# Curated list parser, search filter and ask proxy, modelled in Dafny

This project models the two pieces of real logic in the etherverse web site.
Both models are written in Dafny and their properties are proved.

**The curated-list page** (`src/app/awesome/page.tsx`):
- `parseMarkdown` turns the awesome-list markdown into categories of resources. It is modelled as the method `AwesomeParse.ParseMarkdown`.
  - The method is a loop over the lines of the document.
  - It is proved to compute the specification function `AwesomeParse.Parse`.
  - `Parse` is built from one-line steps: `Step`, folded by `Steps`.
- The pieces that function is built from are modelled exactly, each by its own function:
  - `split('\n')`, `startsWith`, `includes`, `trim` and ASCII `toLowerCase` (module `Text`);
  - the slug replacement `/[^a-z0-9]+/g` (module `Slugs`);
  - the resource pattern `/- \[(.*?)\]\((.*?)\) - (.*)/` with `.replace(/\.$/, '')` (module `BulletPattern`).
- The pattern is modelled as the backtracking search of a regular expression engine:
  - it is unanchored and leftmost;
  - the first two groups are lazy and the third is greedy;
  - `.` does not match `\n`, `\r`, U+2028 or U+2029.
- Lemmas show what the pattern means:
  - the match found is the least one;
  - the name runs to the first `](`, and the url to the first `) - ` after that;
  - a parsed resource is laid out in its line as `- [name](url) - description`.
- The search box (module `AwesomeSearch`) keeps the resources whose lowercased name or description contains the lowercased term. It then drops the categories left empty.

**The `/api/ask` route** (`src/app/api/ask/route.ts`), module `AskRoute`:
- `POST` is a function from two inputs to the forwarded payload and the response:
  - what `request.json()` yields;
  - what the upstream `fetch` yields.
- Inside the `try`, `NextResponse.json` itself throws for a status that cannot carry a body, and for one outside 200..599. The model follows this: an upstream 304, or an upstream status from 600 to 999 (which `fetch` can return), ends in the catch-all 500.
- `OPTIONS` is a constant response.

On the resource pattern:
- The pattern is what decides where the name and the url end.
- The name ends at the first `](` that a url group can follow, not at the first `]`.
- The url ends at the first `) - ` after that, not at the first `)`.
- So `- [a]b](c) - d` gives the name `a]b`.

## Model

| member | source | states |
|---|---|---|
| Text.Split | src/app/awesome/page.tsx:38 | the lines hold no `\n` and joined with `\n` give back the document |
| Text.Contains | src/app/awesome/page.tsx:44 | `includes` holds exactly when the literal occurs at some position |
| Text.Trim | src/app/awesome/page.tsx:48 | the title is a slice of the text with only whitespace around it, and neither starts nor ends with whitespace |
| Text.Lower | src/app/awesome/page.tsx:51 | lowercasing keeps the length and maps each character, `A`-`Z` to `a`-`z` |
| Slugs.RunLength | src/app/awesome/page.tsx:51 | the greedy `[^a-z0-9]+` consumes a maximal run of characters outside the class |
| Slugs.CollapseRuns | src/app/awesome/page.tsx:51 | the replacement yields only `a`-`z`, `0`-`9`, `-`, and never two `-` in a row |
| Slugs.Slug | src/app/awesome/page.tsx:51 | every slug is well formed in that sense |
| Slugs.CollapseRunsIsSqueezedDashify | src/app/awesome/page.tsx:51 | replacing each maximal run by `-` equals dashing every outside character and then squeezing runs of `-` |
| Slugs.SlugIsSqueezedDashify | src/app/awesome/page.tsx:51 | the slug is the lowercased title with each outside character dashed and each run of `-` squeezed |
| BulletPattern.DotEnd | src/app/awesome/page.tsx:58 | a run of `.` stops at the first line terminator or the end of the line |
| BulletPattern.LazyUrl | src/app/awesome/page.tsx:58 | the lazy url group, when it succeeds, ends at a `) - ` inside the run of `.` it started; `LazyUrlIsLeast` shows it is the first one |
| BulletPattern.LazyName | src/app/awesome/page.tsx:58 | the lazy name group, when it succeeds, ends at a `](` inside its run of `.` from which the url group reaches a `) - `; `LazyNameIsLeast` shows it is the first such |
| BulletPattern.LazyUrlIsLeast | src/app/awesome/page.tsx:58 | the lazy url group ends at the first `) - ` it can reach |
| BulletPattern.LazyNameIsLeast | src/app/awesome/page.tsx:58 | the lazy name group ends at the first `](` that a url group can follow |
| BulletPattern.Search | src/app/awesome/page.tsx:58 | what the search returns is a match of the pattern at or after its starting position |
| BulletPattern.SearchIsLeast | src/app/awesome/page.tsx:58 | the match found is the lexicographically least of all matches (start, end of name, end of url) |
| BulletPattern.StripFinalPeriod | src/app/awesome/page.tsx:63 | exactly one final `.` is removed when there is one, otherwise nothing |
| BulletPattern.ParseResource | src/app/awesome/page.tsx:58-64 | the name, the url, the description and the nine delimiter characters of a resource fit in its line; where they stand is stated by `ParseResourceFindsMatch` and `BulletFacts.ResourceLayout` |
| BulletPattern.ParseResourceFindsMatch | src/app/awesome/page.tsx:58-59 | a line yields a resource exactly when the pattern matches somewhere in it |
| BulletFacts.FoundMatchIsLeast | src/app/awesome/page.tsx:58 | no match starts earlier, and none from the same start ends its groups earlier |
| BulletFacts.ResourceLayout | src/app/awesome/page.tsx:58-64 | a parsed resource stands in its line as `- [` name `](` url `) - ` raw, up to a line terminator or the end, with description = raw less one final `.` |
| BulletFacts.NameIsShortest | src/app/awesome/page.tsx:58 | within the least match the name holds no `](` |
| BulletFacts.UrlIsShortest | src/app/awesome/page.tsx:58 | within the least match the url holds no `) - ` |
| BulletFacts.ResourceGroupsAreShortest | src/app/awesome/page.tsx:58-64 | name and url hold no line terminator, the name no `](` and the url no `) - ` |
| BulletFacts.BulletMatchesWholeLine | src/app/awesome/page.tsx:57-64 | a `- [` line without line terminators that matches is exactly `- [` name `](` url `) - ` raw |
| AwesomeParse.HeadingTitle | src/app/awesome/page.tsx:48 | the title stands in the heading line after `## ` with only whitespace around it, and neither starts nor ends with whitespace |
| AwesomeParse.NewCategory | src/app/awesome/page.tsx:48-53 | the category a heading opens has that title, the title's slug and no resource |
| AwesomeParse.Step | src/app/awesome/page.tsx:43-66 | only a heading pushes a category, and only the open one if it holds a resource; once a heading has been seen a category stays open |
| AwesomeParse.Steps | src/app/awesome/page.tsx:42-67 | a category once pushed is never taken back |
| AwesomeParse.ParseMarkdown | src/app/awesome/page.tsx:37-75 | the loop over the lines returns `Parse(markdown)`, the fold of the one-line step followed by the last push and the meta filter |
| AwesomeParse.DropMeta | src/app/awesome/page.tsx:74 | keeps exactly the categories not titled `Contribute` or `Contact`, each as often as it occurs, in their order |
| AwesomeParse.ParsedCategoriesShown | src/app/awesome/page.tsx:45-74 | every category returned holds a resource, is not a meta section, and carries its title's well-formed slug |
| AwesomeParse.InertLine | src/app/awesome/page.tsx:42-66 | a line that is not a heading and not a matching bullet changes nothing |
| AwesomeParse.ContentsLineInert | src/app/awesome/page.tsx:44 | a `## ` line containing `Contents` opens no category, so later bullets go to the category open before it |
| AwesomeParse.HeadingNotBullet | src/app/awesome/page.tsx:44-57 | a `## ` line never adds a resource |
| AwesomeParse.PreambleIgnored | src/app/awesome/page.tsx:57 | before the first heading nothing is open and bullets contribute nothing |
| AwesomeParse.NoHeadingNoCategory | src/app/awesome/page.tsx:57-74 | a document without a heading yields no category |
| AwesomeParse.StepsAppend | src/app/awesome/page.tsx:42-67 | running the loop over two pieces is running it over the first, then the second |
| AwesomeParse.StepHeld | src/app/awesome/page.tsx:44-66 | with a category open, a line appends its resource, if any, after all held before; pushing or dropping an empty category loses none |
| AwesomeParse.ResourcesInLineOrder | src/app/awesome/page.tsx:42-71 | before the meta filter the resources are exactly those of the matching bullets after the first heading, in line order |
| AwesomeParse.ResourceCountBound | src/app/awesome/page.tsx:42-74 | the number of resources is at most the number of lines starting with `- [` |
| AwesomeParse.CategoriesInDocumentOrder | src/app/awesome/page.tsx:42-74 | the category titles are a subsequence of the heading titles in document order |
| AwesomeSearch.Keep | src/app/awesome/page.tsx:124-128 | keeps exactly the resources whose lowercased name or description contains the term, each as often as it occurs, in their order |
| AwesomeSearch.Narrow | src/app/awesome/page.tsx:122-129 | the narrowed category keeps its title and slug and exactly its matching resources, each as often as before, in their order |
| AwesomeSearch.NarrowAll | src/app/awesome/page.tsx:121-129 | one narrowed category for each listed category, at the same position |
| AwesomeSearch.DropEmpty | src/app/awesome/page.tsx:130 | keeps exactly the categories with a resource, each as often as it occurs, in their order |
| AwesomeSearch.FilterCategories | src/app/awesome/page.tsx:114-133 | an empty term shows the list unchanged; otherwise every category shown holds only matching resources, at least one, and the narrowed categories with a resource are kept, each as often as it occurs, in list order |
| AwesomeSearch.FilterSound | src/app/awesome/page.tsx:120-130 | each category shown is a listed one with the same title and slug, narrowed to its matching resources |
| AwesomeSearch.FilterComplete | src/app/awesome/page.tsx:120-130 | a listed category with a matching resource is shown, with that resource |
| AwesomeSearch.ParsedSearchShown | src/app/awesome/page.tsx:114-133 | for any term, every category shown from a parsed document holds a resource, is no meta section and carries its title's slug |
| AskRoute.OrElse | src/app/api/ask/route.ts:49-50 | a truthy value is kept and a falsy one replaced by the fallback; the result is always truthy |
| AskRoute.JsonResponse | src/app/api/ask/route.ts:87-93 | `NextResponse.json` answers with the data and status exactly for statuses 200..599 that may carry a body, and throws otherwise |
| AskRoute.Decimal | src/app/api/ask/route.ts:89 | the status is written as decimal digits without a leading zero |
| AskRoute.DecimalRoundTrip | src/app/api/ask/route.ts:89 | reading the digits back gives the number |
| AskRoute.Relay | src/app/api/ask/route.ts:58-103 | once the payload is forwarded every answer has a JSON body and a status 200..599 that may carry one, and it is 2xx exactly when the upstream answered ok with JSON |
| AskRoute.Post | src/app/api/ask/route.ts:25-127 | the payload is forwarded exactly when the body parses, is not null and names a truthy message |
| AskRoute.UnforwardedIgnoresUpstream | src/app/api/ask/route.ts:36-45 | without a message the answer does not depend on the upstream |
| AskRoute.MissingMessageRejected | src/app/api/ask/route.ts:36-45 | a falsy message gets 400, `Message is required` and the body echoed, and nothing is forwarded |
| AskRoute.PayloadDefaults | src/app/api/ask/route.ts:47-51 | the payload is the message, the context or `rukh`, the session id or `12345`; all truthy; exactly these three keys |
| AskRoute.RateLimitRewritten | src/app/api/ask/route.ts:76-85 | upstream 429 gets 429 with exactly the body `{message, error: RATE_LIMIT_EXCEEDED, status: 429}`, whatever the upstream said |
| AskRoute.UpstreamErrorPassedOn | src/app/api/ask/route.ts:87-93 | another non-ok status is passed on with the status and text in the message and the upstream text as `error`; 304 and statuses above 599, which a response cannot carry, end in 500 |
| AskRoute.StatusInErrorMessage | src/app/api/ask/route.ts:89 | the error message starts with `Rukh API error: `, then the status, which reads back, then a space and the status text |
| AskRoute.SuccessRelayed | src/app/api/ask/route.ts:96-103 | an ok upstream answer that parses is relayed unchanged with status 200 |
| AskRoute.ExceptionsAnswer500 | src/app/api/ask/route.ts:104-126 | an unparsable or null body, an unreachable upstream or an unparsable ok answer gets the catch-all 500 |
| AskRoute.AnswerWellFormed | src/app/api/ask/route.ts:25-127 | every answer has a JSON body and a status 200..599 that may carry one, and it is 2xx exactly when the upstream answered ok with JSON |
| AskRoute.Options | src/app/api/ask/route.ts:14-23 | the preflight answer is 200 without a body and carries exactly the three CORS headers: any origin, the methods `POST, OPTIONS`, the header `Content-Type` |

## Left out

- The page's React rendering, the toast, the loading spinner and the fetch of the remote README (src/app/awesome/page.tsx:78-112, 135-250) are user interface and network I/O, not logic.
- Text.Lower: lowercases ASCII letters only; the full Unicode case mapping of `toLowerCase` is not modelled.
- BulletPattern.Search: it models a backtracking engine for this one pattern, not regular expressions in general.
- AwesomeParse.ParseMarkdown: the open category is a local value that the loop replaces. The source pushes into the object in place. No other reference to that object is ever used again, so no aliasing is lost.
- AskRoute.Post: the 500 body's `details` (the engine's exception text) and `timestamp` (the clock) are not modelled, nor is console logging.
- AskRoute.Post: JSON objects are maps, so the order of keys in a body is not modelled.
- AskRoute.Post: the parsing of JSON is not modelled. The parsed request body, and what the upstream's `text()` and `json()` give, are inputs.
- AskRoute.Post: a failure of `text()` on a non-ok upstream response is not modelled.
- AskRoute.Post: the upstream's answer is relayed as any JSON value. The declared response shape is not checked, and neither does the source check it.
- AskRoute.Options: only the status, the absent body and the three header values are modelled. How header names are compared is not.
- The chat page, the header, the wallet context and the static pages are user interface and calls into wallet libraries. They are not part of this model.
