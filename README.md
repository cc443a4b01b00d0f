# Short-link preview worker, modelled in Dafny

`short.js` is a Cloudflare Worker. It takes the path of a request as a short
code, looks the code up in a Firebase realtime database, and answers with an
HTML page. The page carries Open Graph and Twitter preview tags for the
record's title, description and image, plus a redirect to the record's
`linkproduk`. This project models the decisions that handler makes and the
HTML escaper it applies to the interpolated values, and proves what they
promise.

- `js_values.dfy` (module `JsValues`): the values `response.json()` can
  produce, JavaScript truthiness, property reads on a parsed body, and `||`
  with a string fallback.
- `html_escape.dfy` (module `HtmlEscape`): `encode` as the source writes it.
  That is five global replacements chained in order, `&` first, behind an
  early return for falsy input. Beside it are a per-character reference
  escaper (`EscapeEach`) and a decoder (`Decode`). The lemmas prove that the
  chain equals the per-character escaper. Through that, they prove what
  `encode` guarantees: no raw `<`, `>`, `"` or `'` survives, every `&` begins
  an entity, decoding inverts it, it is injective, it never shortens its
  input, and it leaves a string unchanged exactly when the string holds no
  special character.
- `short_worker.dfy` (module `ShortWorker`): `handleRequest` as a pure
  function of the request path and the lookup's outcome. The Firebase fetch
  is a parameter `store` that maps the record URL the worker would fetch to
  one of three outcomes: a response that is not OK, an OK response whose
  body parsed to a JSON value, or a rejection (of `fetch` or of `json()`)
  with its message.

The root path (`/` or empty) gets the info page and never consults the
store. Any other path is looked up with exactly one leading `/` removed. A
response that is not OK, a falsy body, a missing or falsy `linkproduk`, and
any thrown error all end on the error page with status 404. Otherwise the
preview page goes out with status 200. Its url is `linkproduk`. Its title,
description and image are `name`, `description` and `image` when truthy, and
each falls back to its own fixed default otherwise.

The model follows the code in two places the code is easy to misread:

- A truthy field that is not a string, such as a number or an object, makes
  `encode` call a `.replace` that does not exist. The resulting TypeError is
  caught, so such a record gets the error page (404), not a preview.
  `CreatePage` and `SuccessExactly` state this.
- Thrown errors are reported with status 404, as `showError` always does.
  They are not reported as a 500-class internal error.

## Model

| member | source | states |
|---|---|---|
| `HtmlEscape.ReplaceChain` | short.js:93-98 | after the five passes no `<`, `>`, `"` or `'` remains, and a string holding none of the five special characters passes through unchanged; `ReplaceChainIsPerChar` equates it with the per-character escaper |
| `HtmlEscape.Encode` | short.js:91-99 | `encode` on a string: the empty string gives `''`, the output holds no `<`, `>`, `"` or `'`, and a string without special characters comes back unchanged; `EncodeIsPerChar`, `DecodeEncode` and `EncodeFixedPoint` specify it fully |
| `HtmlEscape.ReplaceAll` | short.js:94-98 | one global replacement leaves a string without the character unchanged, leaves no occurrence of the character when the entity lacks it, and only produces characters from the input or the entity |
| `HtmlEscape.EncodeValue` | short.js:91-99 | a falsy value gives `''`; a truthy string gives its escaping, which is non-empty; any other truthy value throws (it has no `.replace`) |
| `HtmlEscape.ReplaceChainChar` | short.js:94-98 | on a single character the five-pass chain writes exactly that character's entity, because `&` is replaced before any entity is written |
| `HtmlEscape.ReplaceChainIsPerChar` | short.js:93-98 | the sequential five-pass replacement equals the per-character substitution on every string |
| `HtmlEscape.EncodeIsPerChar` | short.js:91-99 | `encode` on strings, early return included, equals the per-character substitution |
| `HtmlEscape.EncodeNonEmpty` | short.js:92-98 | only the empty string escapes to the empty string |
| `HtmlEscape.EncodeNoRawSpecials` | short.js:95-98 | no `<`, `>`, `"` or `'` appears in the output |
| `HtmlEscape.EncodeAmpersandsAreEntities` | short.js:94-98 | every `&` in the output begins `&amp;`, `&lt;`, `&gt;`, `&quot;` or `&#039;` |
| `HtmlEscape.DecodeEncode` | short.js:93-98 | decoding the five entities recovers the original string |
| `HtmlEscape.EncodeInjective` | short.js:93-98 | two strings with the same escaping are equal |
| `HtmlEscape.EncodeLength` | short.js:93-98 | the output is never shorter than the input, and has the same length exactly when the input has no special character |
| `HtmlEscape.EncodeFixedPoint` | short.js:93-98 | a string is returned unchanged if and only if it contains none of the five special characters |
| `JsValues.Truthy` | short.js:55-68 | the truthiness behind `!data`, `!targetUrl` and the or-operator fallbacks (and `!str` at short.js:92): a truthy value is defined and is not `null`, `false` or `''`, and every array or object is truthy |
| `JsValues.Property` | short.js:60 | reading one of the four keys the worker uses (`linkproduk`, `name`, `description`, `image`) from a parsed body gives a value exactly when the body is an object holding that key as a member, and then it is that member |
| `JsValues.OrElse` | short.js:66-68 | the or-operator with a string fallback gives `v` when truthy, otherwise the fallback string, and it is truthy whenever the fallback is non-empty |
| `ShortWorker.IsRoot` | short.js:12 | the info page's paths, `/` and `''`, are exactly the paths whose short code would be empty |
| `ShortWorker.ShortCode` | short.js:34 | a path starting with `/` is that slash followed by the short code; any other path is the short code itself (one slash at most is removed) |
| `ShortWorker.RecordUrl` | short.js:41 | the record URL is the database's `shortUrls/` base, then the short code, then `.json` |
| `ShortWorker.NotFoundMessage` | short.js:48 | the message for a response that is not OK quotes the short code verbatim, unescaped, at a fixed offset |
| `ShortWorker.EmptyDataMessage` | short.js:56 | the message for a falsy body quotes the short code verbatim, unescaped, at a fixed offset |
| `ShortWorker.CaughtMessage` | short.js:84 | the message for a caught error is a fixed prefix followed by the error's own message, unescaped |
| `ShortWorker.ShowError` | short.js:268-313 | the error response always has status 404 and shows the given message |
| `ShortWorker.Field` | short.js:66-68 | each preview field's value, the record's or the default, is truthy |
| `ShortWorker.CreatePage` | short.js:89-104 | page building succeeds exactly when all four values are strings; it then carries their escapings and the short code; otherwise it throws the TypeError message |
| `ShortWorker.Resolve` | short.js:39-85 | after a lookup the status is 404 for the error page and 200 otherwise; it never gives the info page; a preview page carries the short code and the five-minute cache header |
| `ShortWorker.HandleRequest` | short.js:6-86 | the info page is sent exactly for the root path; the status is 404 exactly for the error page and 200 otherwise; a preview carries the path's short code; the content type is always HTML |
| `ShortWorker.RootNeverLooksUp` | short.js:12-31 | for `/` and `''` the response is the info page with status 200, whatever the store holds |
| `ShortWorker.LookupKey` | short.js:33-44 | any other path is resolved from the store's answer for the record URL of its short code, with one leading slash removed |
| `ShortWorker.FailuresAreNotFound` | short.js:46-84 | not-OK, thrown, null or falsy body, and falsy `linkproduk` each give the error page with its own message and status 404 |
| `ShortWorker.Shown` | short.js:66-68 | a preview field shows the record's string when truthy, and its fixed default otherwise (so an empty string counts as absent) |
| `ShortWorker.SuccessExactly` | short.js:46-80 | status 200 after a lookup if and only if the body is truthy, `linkproduk` is a truthy string, and each chosen title, description and image is a string |
| `ShortWorker.PreviewShape` | short.js:60-80 | a renderable record gives status 200, the five-minute cache header, and a preview whose fields are the escapings of the chosen title, description, image and of `linkproduk` |
| `ShortWorker.SuccessPage` | short.js:60-79 | on success the page's url decodes to exactly `linkproduk`, and its title, description and image decode to the record's values or, each independently, the fixed defaults |
| `ShortWorker.EncodeIsEscaped` | short.js:91-99 | every escaped string has no raw markup character and every `&` in it starts an entity |
| `ShortWorker.PreviewIsEscaped` | short.js:101-104 | the title, description, image and url of any preview page the handler sends are escaped in that sense |

## Left out

- The HTTP plumbing is not modelled: `addEventListener`, `fetch`, `response.json()`, `Response` construction and async/await. Their outcomes enter as the `StoreOutcome` parameter.
- Parsing of `request.url` by `new URL` is not modelled. The pathname is an input and is assumed to parse.
- The text of the HTML and CSS templates is not modelled. This covers the info page, the preview page and the error page. The model records only which values each page interpolates.
- The shown time from `new Date().toLocaleTimeString` is left out because it depends on the clock and the locale. All `console.log` and `console.error` calls are left out too.
- The short code and the error messages are interpolated raw by the source. No escaping property is claimed for them.
- The info page interpolates `request.url` raw, five times (short.js:19-24). `InfoPage` does not record it, and no escaping property is claimed for it.
- `ShortWorker.PreviewIsEscaped` claims only that the escaped fields cannot close the attribute or element they sit in. The url also goes into a link, the meta refresh and the script's `window.location.href`. The model claims nothing about the url's scheme: a `javascript:` `linkproduk` is still followed. Backslashes and line breaks inside the script's string literal are not escaped either.
- The TypeError message uses V8's wording, `str.replace is not a function`. Other engines word it differently.
- `JNumber` holds the value the JSON parser produced, a double, not the value of the literal in the body. A literal such as `1e-400` parses to `0` and is `JNumber(0.0)`. Only truthiness is used, and JSON has no NaN.
- JavaScript strings are UTF-16 code units, while the model's are Dafny characters. The five special characters are ASCII, so escaping does not depend on the difference.
- The metadata extractor, the target-page fetch with a timeout, and the write-back of derived metadata are not part of this model. They are not in `short.js`.
- The other entrypoints are not part of this model: `pages/[code].js`, `api/[code].js`, `api/debug/[code].js` and `api/metadata/[code].js`. Neither is `next.config.js`, which holds only static headers and rewrites.
