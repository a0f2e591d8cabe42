# Country outline handler, modelled in Dafny

The system is one HTTP endpoint, `GET /api/outline?country=<name>`. It
validates the `country` query parameter, fetches the English Wikipedia
article of that name, picks the `h1`–`h6` headings out of the article's
`#content` element, and answers with a Markdown outline: a `## Contents`
header, then one ATX heading (CommonMark section 4.2) per non-empty heading,
in document order. The failures map to status codes 400, 404, 502 and 500,
each with a JSON error body. Every response carries the CORS headers.

The model treats the handler as a pure pipeline. The network fetch and the
HTML parsing are inputs: the value `Fetch` says whether the HTTP client
resolved (with a status and the selected elements) or threw (with a code, an
optional response and a message).

- `Text` (text.dfy): the whitespace set shared by `\s` and `trim`, with
  `Trim` and `Repeat`. `Trim` has three lemmas: it cuts a slice bordered by
  whitespace (`TrimBorders`), that contract fixes the result uniquely
  (`TrimUnique`), and trimming is idempotent.
- `Query` (query.dfy): the two parameter gates in `ValidateCountry`
  (api/outline.js:12-24): the falsy test, then the pattern
  `^[a-zA-Z\s-]+$` as `MatchesCountryPattern` (api/outline.js:20).
- `Headings` (headings.dfy): the tag-to-level parse (`LevelOf`), the
  non-empty-text test `Keeps` and the conversion of one element to a heading
  `ToHeading` (api/outline.js:42-44), the heading filter as the function
  `Filter`, and the `.each` loop as the method
  `CollectHeadings`, proved equal to `Filter`. Also proved: the collected
  headings are exactly the kept elements, in document order
  (`FilterSelects`).
- `Markdown` (markdown.dfy): one heading line as `Line` (api/outline.js:57)
  and the lines of a heading list as `Lines` (api/outline.js:56-58), the outline as the function
  `Render`, and the `+=` loop as the method `RenderMarkdown`, proved equal to
  `Render`. Also proved: the body length formula, and that a parser reads an
  outline back to its heading list when no heading text holds a line feed
  (`ParseRender`).
- `Handler` (handler.dfy): the outcome of a request (`Outcome`), the decision
  ladder (`Classify`), the status, headers and body for each outcome
  (`Respond`), and the handler `Handle`. The method `Serve` runs the same
  steps as the source, with both loops, and is proved equal to `Handle`.
  The remaining lemmas state the promised response for each path.

Where the code and the usual description of the endpoint part ways, the model
follows the code:

- A timeout is sometimes described as a connection failure (502). In the
  code, a timed-out request throws an error whose code is not `ENOTFOUND`
  and which has no response. It therefore gets 500 "Internal server error".
  In the model that is `Threw` with such an error.
- By default the HTTP client throws on any non-2xx status. So an upstream 404
  reaches the catch block and gets 502 "Wikipedia returned an error" with
  status 404. The 404 "Country page not found" branch is taken only for a
  resolved status other than 200. The model follows the branch as written:
  `Fetched(status, …)` with `status != 200` gives 404.
- "Missing parameter" covers the empty string as well as an absent
  parameter, because the test is `!country`.
- `IsWs` is the exact ECMAScript whitespace set: WhiteSpace plus
  LineTerminator, with the Unicode Zs space separators. In JavaScript, `\s`
  and `trim` both use this set, so one predicate serves both.

## Model

| member | source | states |
|---|---|---|
| `Text.Trim` | api/outline.js:43 | the trimmed text is empty exactly when the raw text is all whitespace; otherwise it begins and ends with a non-whitespace character |
| `Text.TrimBorders` | api/outline.js:43 | the trimmed text is a slice of the raw text with only whitespace before and after it |
| `Text.TrimUnique` | api/outline.js:43 | any whitespace-bordered slice with non-whitespace ends (or empty, for an all-whitespace input) is the trim, so the contract of `Trim` determines it |
| `Text.TrimIdempotent` | api/outline.js:43 | trimming an already trimmed text changes nothing |
| `Text.Repeat` | api/outline.js:57 | `'#'.repeat(level)` has exactly `level` characters, all `#` |
| `Query.ValidateCountry` | api/outline.js:12-24 | missing parameter exactly when it is absent or empty; invalid format exactly when it is non-empty and fails the anchored pattern; otherwise the parameter passes unchanged |
| `Query.ValidatedCountryIsPathSafe` | api/outline.js:19-26 | a validated name holds none of the characters in `IsUrlDelimiter`: the RFC 3986 reserved characters (among them `/ ? # &`), the escape character `%`, the characters not allowed in a URI, `.` and `~`; so it can only name one article |
| `Headings.LevelOf` | api/outline.js:42 | the level parsed from the tag name is in 1..6, and the tag for that level is the original tag |
| `Headings.LevelOfTagName` | api/outline.js:42 | parsing the tag name for a level gives that level back |
| `Headings.Filter` | api/outline.js:41-47 | the collection never yields more headings than selected elements |
| `Headings.FilterTrimmed` | api/outline.js:43-46 | every collected heading has non-empty text with no whitespace at either end |
| `Headings.TrimmedHeadingIsFixed` | api/outline.js:43 | the text of a collected heading is its own trim |
| `Headings.FilterAppend` | api/outline.js:41-47 | each element is judged on its own: collecting over a concatenation concatenates the results |
| `Headings.CollectHeadings` | api/outline.js:38-47 | the push loop builds exactly `Filter(elements)` |
| `Headings.Positions` | api/outline.js:44 | the positions of the kept elements, strictly increasing, each one kept, none missing |
| `Headings.FilterSelects` | api/outline.js:41-47 | the k-th collected heading is the k-th kept element, with its tag's level and its trimmed text; nothing is reordered, duplicated or invented |
| `Headings.FilterEmptyIff` | api/outline.js:44-49 | no heading is collected exactly when every selected element's text is whitespace only |
| `Markdown.LinesAppend` | api/outline.js:56-58 | rendering a concatenation of heading lists concatenates their lines |
| `Markdown.RenderMarkdown` | api/outline.js:55-58 | the `+=` loop starting from `## Contents\n\n` builds exactly `Render(headings)` |
| `Markdown.LinesLength` | api/outline.js:56-58 | the heading lines have the sum over headings of level + 3 + length of text characters |
| `Markdown.RenderLength` | api/outline.js:55-58 | the body has 13 + the sum over headings of level + 3 + length of text characters |
| `Markdown.ParseLine` | api/outline.js:57 | one rendered line with a line-feed-free text reads back as its heading, followed by the rest |
| `Markdown.ParseLinesLines` | api/outline.js:56-58 | the rendered lines read back as the heading list, when no heading text holds a line feed |
| `Markdown.ParseRender` | api/outline.js:55-58 | a rendered outline reads back as the heading list it came from, when no heading text holds a line feed |
| `Handler.Caught` | api/outline.js:63-82 | `ENOTFOUND` exactly gives the connection failure; otherwise an attached response gives the upstream error with that status; anything else gives the internal error with the message |
| `Handler.Classify` | api/outline.js:12-53 | an outline outcome comes only from a resolved fetch and holds the non-empty collected headings |
| `Handler.Respond` | api/outline.js:7-82 | every response starts with the two CORS headers; status 200 and a Markdown body exactly for the outline outcome |
| `Handler.Serve` | api/outline.js:4-84 | the step-by-step handler, with its early returns and both loops, answers exactly what `Handle` answers |
| `Handler.CorsAlways` | api/outline.js:7-8 | every response, success or error, starts with `Access-Control-Allow-Origin: *` and `Access-Control-Allow-Methods: GET` |
| `Handler.MissingParameterWins` | api/outline.js:12-17 | an absent or empty parameter gives 400 with the usage example, whatever the fetch outcome |
| `Handler.InvalidFormatBeforeFetch` | api/outline.js:20-24 | a non-empty parameter with a character outside `[a-zA-Z\s-]` gives 400 "Invalid country name format", the same for every fetch outcome |
| `Handler.ValidIff` | api/outline.js:12-24 | a parameter is accepted exactly when it is non-empty and all its characters are in the class |
| `Handler.UpstreamNot200` | api/outline.js:31-35 | a valid request whose fetch resolved with a status other than 200 gives 404, the same whatever the page's headings |
| `Handler.NoHeadingsIff` | api/outline.js:41-61 | after a 200 fetch: 404 "No headings found" exactly when every heading text is whitespace only, and otherwise 200 `text/markdown` with the rendered outline |
| `Handler.SuccessIff` | api/outline.js:12-61 | status 200 exactly for a valid parameter, a 200 fetch and at least one kept heading, and then the headers are CORS plus `Content-Type: text/markdown` |
| `Handler.ThrownErrors` | api/outline.js:63-82 | `ENOTFOUND` gives 502 "Failed to connect to Wikipedia", even with a response attached; else a response gives 502 with its status; else 500 with the error message |
| `Handler.SuccessBody` | api/outline.js:55-61 | a successful response is 200 with the rendered outline, whose length is 13 + the sum over headings of level + 3 + length of text |
| `Handler.ExampleHeadings` | api/outline.js:41-47 | `h1 "A"`, `h2 "B"`, whitespace-only `h3`, `h2 "C"` collect to levels 1, 2, 2 with texts A, B, C |
| `Handler.ExampleLines` | api/outline.js:56-58 | those three headings render to `# A\n\n## B\n\n## C\n\n` |
| `Handler.ExampleRender` | api/outline.js:55-58 | with the header: `## Contents\n\n# A\n\n## B\n\n## C\n\n` |
| `Handler.ExampleOutline` | api/outline.js:12-61 | the whole handler answers that page with 200, `text/markdown` and exactly that body |

## Left out

- The HTTP GET, its 5-second timeout and the network (api/outline.js:26-29) are I/O. The fetch is the input value `Fetch`. A timeout is a `Threw` value whose code is not `ENOTFOUND` and which has no response.
- The article URL built with `encodeURIComponent` (api/outline.js:26) is a library call. It does not affect any modelled output. `Query.ValidatedCountryIsPathSafe` states what the allow-list guarantees about the name before it is encoded.
- HTML parsing and the `#content h1 … h6` selector (api/outline.js:37, 41) are a foreign library. Their result is the input sequence of `Element(tag, rawText)` values, in document order. The tag is limited to `h1`–`h6` by its type.
- The `res` object: `setHeader`, `status`, `json` and `send` (api/outline.js:7-8, 13-82). A response is the record `Response(status, headers, body)`. Headers are listed in the order they are set. The `Content-Type` that `json` adds to error bodies is not modelled.
- The serialisation of error bodies to JSON text is not modelled. An error body is the `error` string plus one optional field: `example`, `status` or `details`.
- `console.error` logging (api/outline.js:64) is a side effect with no effect on the response.
- A thrown error is modelled only as the outcome of the fetch. The catch block also receives errors thrown by the parser or by `res`; those are out of scope with the libraries that would throw them.
- `error.message` is a string in the model. JavaScript lets it be undefined, in which case the JSON body omits `details`.
- `error.response.status` is an integer in the model. An attached response is always assumed to carry a status.
- A repeated `country` parameter can make `req.query.country` an array, which the pattern test then sees as a string. The model takes the parameter to be absent or one string (`Option<string>`).
- JavaScript strings are UTF-16 code units. Here a `char` is a Unicode scalar value, so `Markdown.RenderLength` counts a character outside the Basic Multilingual Plane once where `.length` counts two. Every whitespace character is in that plane, so trimming and validation are unaffected.
- Determinism: the same parameter and the same page always give the same response. That holds by construction, because `Handle` is a function, so no lemma states it.
