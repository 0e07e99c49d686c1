# Orb documentation-site gateway, modelled in Dafny

This project models the request pipeline of the Orb documentation site (`site/main.ts`): a
Deno server that pins the repository's HEAD revision at startup, maps each request pathname to a
logical content path through a fixed route table, fetches the page's Markdown from the repository
at that revision, keeps a process-wide cache, answers a small hand-coded search page, passes
compiled examples under `/wasm/` through as bytes, and serves a favicon.

Modules, one per component of the source file:

- `Wrappers`: `Option`, for JavaScript's `undefined` / `null` results.
- `Strings`: the JavaScript string operations used (`startsWith`, `indexOf`, `replace` with a string pattern).
- `Routes`: `getContentPath`, with its inverse and the facts about its range.
- `Search`: the `/search` branch: trimming, control-character replacement, space collapsing,
  `&quot;` escaping, the keyword links and the Markdown page.
- `Content`: the repository files behind logical paths and examples, and the pinned fetch.
- `Dispatch`: the pipeline as pure functions of the state (cache plus fetch log):
  `MarkdownFor` for `getMarkdownForRequest`, `Serve` for the request handler, and the lemmas about them.
- `Server`: the class `Site`, whose `cache` field is updated in place and whose ghost `fetchLog`
  records every file fetched; its methods are proved to follow `Dispatch`.

`getContentHTML` (fetch, then render with `details` elements allowed a `data-path` attribute) is
used only at startup, for the navigation and footer; it is part of `Dispatch.Boot` and the `Site`
constructor.

The repository host, the text decoder and the Markdown renderer are parameters: arbitrary
functions of their inputs (the fetch is a function of owner, repository, revision and file).

The cache is modelled as the code behaves, not as a memo. The lookup at `site/main.ts:83` uses
the raw pathname, but the store at line 90 uses the logical path. No logical path starts with `/`,
and every request pathname does, so the cached early return never fires (`Dispatch.NeverHits`).
Every routed request fetches its file again (`Dispatch.RepeatRefetches`, `Server.RepeatedRequest`).
Storing the fetch under the logical path suggests that a memo was intended. As written, the
lookup never hits, and the model follows the code as written.

## Model

| member | source | states |
|---|---|---|
| `Routes.ContentPath` | site/main.ts:41-64 | a routed pathname gives a non-empty logical path that does not start with `/` |
| `Routes.RequestPath` | site/main.ts:48-62 | the inverse table: the pathname it gives for a logical path starts with `/` |
| `Routes.ContentPathCases` | site/main.ts:41-64 | no `/` prefix gives none; `/` gives `readme`; `/silverorb` gives `silverorb/silverorb`; the eleven listed subpaths give themselves; anything else gives none |
| `Routes.RoundTrip` | site/main.ts:48-62 | `ContentPath(p) == Some(c)` exactly when `RequestPath(c) == Some(p)` |
| `Routes.Injective` | site/main.ts:48-62 | two pathnames routed to the same logical path are equal |
| `Routes.RoutedIff` | site/main.ts:48-62 | the range of the table is exactly `readme`, `silverorb/silverorb` and the eleven self routes |
| `Routes.AliasTargetUnrouted` | site/main.ts:59-62 | the alias target written as a pathname, `/silverorb/silverorb`, is not routed |
| `Routes.WasmUnrouted` | site/main.ts:48-63 | no pathname under `/wasm/` is routed |
| `Strings.IndexOf` | site/main.ts:114 | the result is the first position where the pattern occurs; none when it occurs nowhere |
| `Strings.ReplaceFirst` | site/main.ts:114 | at the first position where the pattern occurs, it is replaced and everything else is kept; with no occurrence the string is unchanged |
| `Strings.ReplacePrefix` | site/main.ts:113-114 | for a pathname starting with `/wasm/`, removing `/wasm/` leaves exactly the rest after the prefix |
| `Strings.RemoveFirstChar` | site/main.ts:125 | removing `"` drops exactly its first occurrence and keeps every other character in order; without a quote nothing changes |
| `Search.TrimStartSpec` | site/main.ts:71 | the leading half of `trim` removes exactly the longest whitespace prefix |
| `Search.TrimEndSpec` | site/main.ts:71 | the trailing half of `trim` removes exactly the longest whitespace suffix |
| `Search.TrimShape` | site/main.ts:71 | a trimmed string is empty or has no whitespace at either end |
| `Search.ReplaceControlsSpec` | site/main.ts:71 | each newline, carriage return and tab becomes a space; every other character stays in place |
| `Search.CollapseSpacesSpec` | site/main.ts:71 | collapsing leaves no double space, keeps both ends, adds no character, and leaves a string without double spaces unchanged |
| `Search.CollapseSpacesIsRuns` | site/main.ts:71 | collapsing equals the run-by-run reading of `[ ]+`: each maximal run of spaces becomes one space and every other character is kept, in order |
| `Search.NormaliseShape` | site/main.ts:70-71 | the normalised query has no newline, carriage return or tab, no double space and no whitespace at either end |
| `Search.NormaliseIdempotent` | site/main.ts:70-71 | normalising the normalised query changes nothing |
| `Search.NormaliseExample` | site/main.ts:71 | `"  github \t"` normalises to `github` |
| `Search.EscapeSpec` | site/main.ts:72 | the form value has no `"`, is longer by five per quote, and equals the query when it has no quote |
| `Search.EscapeAppend` | site/main.ts:72 | escaping works character by character, in order |
| `Search.EscapeRoundTrip` | site/main.ts:72 | reading `&quot;` back as `"` recovers the query, unless the query itself contains `&quot;` |
| `Search.LinksCases` | site/main.ts:73-79 | `github` gives the two GitHub links, `spec` or `specs` the three spec links, in order; every other query gives none |
| `Search.Bullets` | site/main.ts:80 | one line per link, each `- ` followed by the link |
| `Search.PageMissing` | site/main.ts:70-80 | a missing `q` gives the empty form followed by a blank line and nothing else |
| `Search.PageGitHub` | site/main.ts:74-80 | `github` gives the form, a blank line, then the two GitHub bullets joined by newlines |
| `Search.PageSpec` | site/main.ts:77-80 | `spec` and `specs` give the form, a blank line, then the three spec bullets joined by newlines |
| `Search.PageOther` | site/main.ts:73-80 | any other query gives only the form, holding the escaped query, and a blank line |
| `Search.Markdown` | site/main.ts:69-81 | the search branch, with its reassigned query and pushed results, returns `Page(q)` |
| `Content.MarkdownFileRoundTrip` | site/main.ts:18-19 | `site/<path>.md` determines its path: distinct pages fetch distinct files |
| `Content.WasmFileRoundTrip` | site/main.ts:29-30 | `examples/<name>.wasm` determines its name: distinct examples fetch distinct files |
| `Content.FilesDisjoint` | site/main.ts:18-30 | a page fetch and an example fetch never ask for the same file |
| `Dispatch.NeverHits` | site/main.ts:83-84 | while the cache holds only routed logical paths, no pathname starting with `/` is a cache key |
| `Dispatch.SearchRequest` | site/main.ts:69-81 | `/search` fetches nothing, leaves the cache alone and answers the search page |
| `Dispatch.UnroutedRequest` | site/main.ts:86-87 | an unrouted pathname fetches nothing, leaves the cache alone and answers the startup not-found Markdown |
| `Dispatch.RoutedRequest` | site/main.ts:86-92 | a routed pathname fetches `site/<path>.md` at the pinned revision once, sets only the key `<path>`, and answers the fetched text |
| `Dispatch.MarkdownForCoherent` | site/main.ts:83-92 | every cache key stays a routed logical path holding its file's text at the pinned revision |
| `Dispatch.RepeatRefetches` | site/main.ts:83-92 | asking twice for the same page logs two fetches of its file and answers the same text |
| `Dispatch.ServeFavicon` | site/main.ts:95-111 | `/favicon.ico` resolves its Markdown first, fetches nothing and answers the SVG icon as `image/svg+xml` |
| `Dispatch.ServeWasm` | site/main.ts:113-121 | a `/wasm/` pathname fetches exactly `examples/<rest>.wasm`, leaves the cache alone and answers its bytes as `application/wasm` |
| `Dispatch.ServePage` | site/main.ts:96-125 | any other pathname answers an HTML page: the resolved Markdown rendered unsanitised, the startup navigation and footer, and the pathname with only its first `"` removed as data path |
| `Dispatch.ServeState` | site/main.ts:95-121 | the handler changes the state as resolving the Markdown does, then adds only the example fetch; the cache stays coherent |
| `Dispatch.RootScenario` | site/main.ts:49-92 | `/` fetches `site/readme.md` once and answers its text |
| `Server.Site.constructor` | site/main.ts:36-39 | startup fetches `404`, `_nav` and `_footer` once, renders the last two, and starts with an empty cache |
| `Server.Site.GetContentMarkdown` | site/main.ts:18-21 | one fetch of `site/<path>.md` at the pinned revision, logged, read as text |
| `Server.Site.GetExampleWasm` | site/main.ts:29-34 | one fetch of `examples/<name>.wasm` at the pinned revision, logged, returned as bytes |
| `Server.Site.GetMarkdownForRequest` | site/main.ts:66-93 | the new cache, fetch log and answer are those of `Dispatch.MarkdownFor`; the cache stays coherent |
| `Server.Site.Handle` | site/main.ts:95-125 | the new cache, fetch log and response are those of `Dispatch.Serve`; the cache stays coherent |
| `Server.Start` | site/main.ts:13-16 | no HEAD revision gives no gateway; otherwise a fresh one pinned to it with the given renderer, its not-found, navigation and footer fragments those of `site/404.md`, `site/_nav.md` and `site/_footer.md`, the startup fetches logged and an empty cache |
| `Server.RepeatedRequest` | site/main.ts:83-92 | two requests in a row for the same page add two fetches of its file to the log |

## Left out

- HTTP serving (`Deno.serve`, `Request`, `Response`) and URL parsing: the pathname and the decoded `q` parameter are inputs; a response is its parts, not HTTP.
- The repository host client (`fetchGitHubRepoRefs`, `findHEADInRefs`, `fetchGitHubRepoContent`, `res.text()`, `res.arrayBuffer()`): network I/O in a library; the HEAD revision is an optional input, the content fetch an arbitrary function of owner, repository, revision and file, and the text decoding an arbitrary function of the bytes.
- Failed fetches: the fetch is a total function, so a missing file, a network error, a non-2xx answer or a rejected promise is not modelled; neither is the memoising of a failure.
- The Markdown renderer (`render` from `@deno/gfm`) and its sanitiser: a foreign library; it is an arbitrary function of the Markdown and the options.
- Promises and the interleaving of concurrent requests: requests are handled one after another and cache values are resolved strings. The cached early return never fires, so interleaving cannot change which value a request answers.
- The HTML page template, its inline client-side script, the CSS and the logo SVG: presentation text; a `Page` response carries the data path, the rendered body, navigation and footer that the template would embed.
- Character model: JavaScript strings are UTF-16 code units and Dafny's `char` is a Unicode scalar value, so lone surrogates are not modelled; the whitespace set of `trim` is the ECMAScript WhiteSpace and LineTerminator set written out.
