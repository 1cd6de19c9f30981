# QR codes for a product catalog, in Dafny

This project models the request-handling logic of a small Django catalog
application (QR-MALL-CONNECT). It covers the three views that turn catalog rows
into QR codes and search hints:

- `generate_product_qr` builds one downloadable QR code for a product. Its query
  string sets the box size, border and colours. Colours the renderer rejects fall
  back to black on white. The attachment file name is the product name reduced to
  letters, digits, spaces, hyphens and underscores, then trimmed.
- `batch_qr_generation` (POST) takes the submitted product keys. It renders one
  QR code per matching product, with fixed settings, and returns them as a list.
  An empty submission is answered with status 400.
- `search_suggestions` takes a query of at least two characters. It suggests up to
  five matching product names, followed by up to three matching category names,
  each with a "Category: " label.

Everything is a pure function over immutable values:

- The database tables are sequences of rows, in table order.
- The query string is a map.
- The submitted keys are a sequence of strings.
- What the program takes from libraries becomes a function parameter:
  - `str.isalnum` is `alnum`.
  - The database's `icontains` is `icontains`.
  - Whether the image library accepts a colour pair is `accepts`.
  - Building the URL, QR encoding and PNG output is `render`, shared by both QR views.
  - Base64-encoding the PNG in the batch view is `encode`.
  - The primary-key field's conversion of a submitted value is `toKey`.

Python's own behaviour is modelled where the views depend on it, with the limits
listed under "Left out":

- `str.strip` with Python's `str.isspace` set.
- `int()` on a base-10 string: surrounding padding (the `str.isspace` set without
  the separators U+001C..U+001F, which `int()` does not skip), a sign, and ASCII
  digits with single underscores between them.
- `str()` of an integer.

Modules:

| module | file | contents |
|---|---|---|
| `Wrappers` | wrappers.dfy | `Option`, `Result` |
| `Seqs` | seqs.dfy | filter, prefix, map, subsequence and their lemmas |
| `Text` | text.dfy | Python whitespace, `strip`, and the padding `int()` skips |
| `Decimal` | decimal.dfy | `str(int)` and `int(str)` with the round trip |
| `Catalog` | catalog.dfy | product rows, `get_object_or_404`, the `/<pk>/` payload path |
| `Filename` | filename.dfy | the file-name sanitiser and the `Content-Disposition` header |
| `CustomQr` | customqr.dfy | `generate_product_qr` |
| `BatchQr` | batchqr.dfy | `batch_qr_generation` (POST) |
| `Suggestions` | suggestions.dfy | `search_suggestions` |

## Model

| member | source | states |
|---|---|---|
| Text.Strip | CODE/PRODUCTS/views.py:122 | the stripped name has no padding at either end; it is one contiguous slice of the input, and everything outside the slice is padding |
| Text.StripKeepsOthers | CODE/PRODUCTS/views.py:122 | stripping removes only padding: every other character keeps its count |
| Text.StripUnchanged | CODE/PRODUCTS/views.py:122 | `strip` returns its input exactly when the input has no padding at either end |
| Filename.KeptChars | CODE/PRODUCTS/views.py:122 | every remaining character is alphanumeric, a space, a hyphen or an underscore, and the result is never longer than the name |
| Filename.KeptCharsCounts | CODE/PRODUCTS/views.py:122 | nothing allowed is lost: each alphanumeric, space, hyphen or underscore occurs as often as in the name, every other character not at all |
| Filename.KeptCharsAppend | CODE/PRODUCTS/views.py:122 | filtering distributes over concatenation, so the kept characters keep the name's order; with `KeptChars` and `KeptCharsCounts` this fixes the filtered name |
| Filename.CleanName | CODE/PRODUCTS/views.py:122 | the sanitised name contains only kept characters, has no outer whitespace, and is never longer than the product name |
| Filename.CleanNameCounts | CODE/PRODUCTS/views.py:122 | every non-whitespace character the filter keeps survives with its full count, and no other non-whitespace character appears |
| Filename.CleanNameTrimsOnlyEnds | CODE/PRODUCTS/views.py:122 | sanitising removes whitespace only at the two ends of the kept characters: the result is one contiguous run of them, interior spaces included; with `KeptCharsCounts` and `KeptCharsAppend` this fixes the sanitised name |
| Filename.CleanNameUnchanged | CODE/PRODUCTS/views.py:122 | a name is left unchanged exactly when it already contains only kept characters and has no outer whitespace |
| Filename.CleanNameIsSubsequence | CODE/PRODUCTS/views.py:122 | the sanitised name is the product name with characters deleted; nothing is added, replaced or reordered |
| Filename.CleanNameIdempotent | CODE/PRODUCTS/views.py:122 | sanitising a sanitised name changes nothing |
| Filename.AttachmentFilename | CODE/PRODUCTS/views.py:123 | the file name is `QR_`, then the sanitised name, then `.png`, and is 7 characters longer than the sanitised name |
| Filename.ContentDisposition | CODE/PRODUCTS/views.py:123 | the header value is `attachment; filename="`, the file name, and a closing quote; `ParseDisposition` is its inverse |
| Filename.AttachmentFilenameSafe | CODE/PRODUCTS/views.py:122-123 | for every product name, the file name contains no double quote, CR or LF |
| Filename.HeaderRoundTrip | CODE/PRODUCTS/views.py:122-123 | for every product name, the header parses back to exactly the attachment file name |
| Filename.DispositionRoundTrip | CODE/PRODUCTS/views.py:123 | any name free of quotes and line breaks survives the header round trip |
| Filename.ParseDispositionSound | CODE/PRODUCTS/views.py:123 | a header that parses is the header of the name it parses to |
| Filename.WidgetExample | CODE/PRODUCTS/views.py:122-123 | "Widget #1/2 (Blue)!" is downloaded as "QR_Widget 12 Blue.png" |
| Decimal.NatToString | CODE/PRODUCTS/views.py:92 | a key is printed as a non-empty run of ASCII digits with no leading zero |
| Decimal.IntToString | CODE/PRODUCTS/views.py:92 | the printed form is non-empty and starts with a digit exactly when the value is non-negative |
| Decimal.NatToStringValue | CODE/PRODUCTS/views.py:92 | the printed digits have the printed value |
| Decimal.CanonicalRoundTrip | CODE/PRODUCTS/views.py:92 | every canonical digit string is the printed form of its value |
| Decimal.NatToStringInjective | CODE/PRODUCTS/views.py:92 | different keys are printed differently |
| Decimal.PyInt | CODE/PRODUCTS/views.py:95-96 | `int()` succeeds only on text that contains a digit |
| Decimal.SeparatorRejected | CODE/PRODUCTS/views.py:95-96 | text starting with one of the separators U+001C..U+001F is rejected: `int()` does not skip them although `strip` would |
| Decimal.ParseSignedDigits | CODE/PRODUCTS/views.py:95-96 | a signed digit group converts only when it contains a digit |
| Decimal.DigitGroupValue | CODE/PRODUCTS/views.py:95-96 | the printed form of a natural number is a valid digit group whose digits have that number's value |
| Decimal.ParsePrinted | CODE/PRODUCTS/views.py:95-96 | the sign-and-digits reader gives back every printed integer, sign included |
| Decimal.PyIntRoundTrip | CODE/PRODUCTS/views.py:95-96 | `int(str(v)) == v` for every integer |
| Catalog.Lookup | CODE/PRODUCTS/views.py:91 | a product is found exactly when some row has the key; the found row is in the catalog with that key, and with unique keys it is the only such row |
| Catalog.PayloadPath | CODE/PRODUCTS/views.py:92 | the payload path is a slash, the key's canonical digits, and a slash |
| Catalog.PayloadPathRoundTrip | CODE/PRODUCTS/views.py:92 | the canonical-digit reader `ParsePayloadPath` inverts the payload path: it gives back the key, and a path reads back to a key exactly when it is that key's path |
| Catalog.PayloadPathInjective | CODE/PRODUCTS/views.py:92 | two products with different keys never share a QR payload |
| CustomQr.IntParam | CODE/PRODUCTS/views.py:95-96 | a missing parameter gives the default; a present one succeeds exactly when `int()` accepts it, with `int()`'s value, and otherwise fails naming the parameter and its text |
| CustomQr.DefaultsParse | CODE/PRODUCTS/views.py:95-96 | the default texts '10' and '4' parse to 10 and 4 |
| CustomQr.ResolveColours | CODE/PRODUCTS/views.py:97-115 | the requested colours are used when the renderer accepts them, and black on white otherwise |
| CustomQr.ResolveStyle | CODE/PRODUCTS/views.py:95-115 | success exactly when size and border both convert, the size is at least 1 and the border at least 0; otherwise the error of the first check that fails, in the view's order; a resolved style has level M, the parsed size and border (10 and 4 when absent), and the colour pair `ResolveColours` picks for the requested colours |
| CustomQr.ResolveStyleColoursOnly | CODE/PRODUCTS/views.py:110-115 | which colours the renderer accepts affects only the colours, never success, the error, the size, the border or the level |
| CustomQr.GenerateProductQr | CODE/PRODUCTS/views.py:89-123 | not-found exactly when no product has the key; for an existing product, success exactly when `ResolveStyle` succeeds and otherwise its error; a failure reaches the client as 404 for a missing product and 500 otherwise; on success the image is drawn from the product's path with exactly the style `ResolveStyle` gives, and the file name and header come from that product's name |
| CustomQr.ColoursNeverFail | CODE/PRODUCTS/views.py:110-115 | colours never decide whether the view fails or with which error |
| CustomQr.RejectedColoursStyle | CODE/PRODUCTS/views.py:110-115 | rejected colours resolve to the same style as a request without colour parameters |
| CustomQr.RejectedColoursFallBack | CODE/PRODUCTS/views.py:110-115 | rejected colours give exactly the response of a request without colour parameters |
| CustomQr.NoParamsGivesDefaults | CODE/PRODUCTS/views.py:95-106 | with no query parameters an existing product is always rendered with box size 10, border 4, level M, black on white |
| BatchQr.ParseIds | CODE/PRODUCTS/views.py:158 | conversion succeeds exactly when every submitted value converts; the key set is exactly the converted values; a failure names a submitted value that does not convert |
| BatchQr.BatchQr | CODE/PRODUCTS/views.py:152-183 | "No products selected" with status 400 exactly when nothing was submitted; success exactly when every value converts; otherwise status 500 for a value that does not convert; never more entries than products; every image is drawn from its entry's own path with the fixed style |
| BatchQr.BatchQrLoop | CODE/PRODUCTS/views.py:158-183 | the loop that appends one entry per selected product builds the list `BatchQr` describes |
| BatchQr.Selection | CODE/PRODUCTS/views.py:158 | never more rows than the catalog, each with a requested key; `SelectionMembership` gives the converse |
| BatchQr.EntryFor | CODE/PRODUCTS/views.py:162-181 | an entry carries the product's own key and name, and the encoded image of that key's path drawn with box size 10, border 4, level M, black on white |
| BatchQr.SelectionAgrees | CODE/PRODUCTS/views.py:158 | two key sets that agree on every catalog key select the same rows in the same order |
| BatchQr.SelectionMembership | CODE/PRODUCTS/views.py:158 | a product is selected exactly when it is in the catalog and its key was submitted |
| BatchQr.BatchEntriesRequested | CODE/PRODUCTS/views.py:158-181 | every entry is the entry of a catalog product whose key was submitted, with that product's key and name |
| BatchQr.BatchRequestedGetEntries | CODE/PRODUCTS/views.py:158-181 | every catalog product whose key was submitted gets its entry |
| BatchQr.BatchKeepsCatalogOrder | CODE/PRODUCTS/views.py:158-161 | entries come in catalog order, as a subsequence of the whole catalog's entries |
| BatchQr.BatchEntriesDistinct | CODE/PRODUCTS/views.py:158-161 | with unique keys, no product gets two entries, however often its key was submitted |
| BatchQr.BatchDependsOnlyOnSelectedKeys | CODE/PRODUCTS/views.py:158 | reordering, repeating or dropping submitted values, or adding unknown keys, leaves the result unchanged as long as the same catalog keys are named |
| BatchQr.UnknownIdIgnored | CODE/PRODUCTS/views.py:158 | a submitted key that no product has is dropped silently |
| BatchQr.PrintedKeyRequested | CODE/PRODUCTS/views.py:153-158 | with `int()` as the conversion, a submission containing a product's printed key requests that product |
| BatchQr.BatchMatchesDefaultCustomQr | CODE/PRODUCTS/views.py:162-175 | every batch image is the encoding of the image the customisable view gives the same product for a request with no parameters |
| Suggestions.Suggestions | CODE/PRODUCTS/views.py:128-147 | at most eight suggestions; none for a query shorter than two characters; otherwise min(5, matching products) plus min(3, matching categories) of them |
| Suggestions.SuggestionCapNeverBinds | CODE/PRODUCTS/views.py:147 | the final cap at eight never removes a suggestion |
| Suggestions.ProductSuggestionsSound | CODE/PRODUCTS/views.py:134-144 | the product suggestions are the first matching product names in table order; each is the name of a product matching by name or description |
| Suggestions.CategorySuggestionsSound | CODE/PRODUCTS/views.py:139-145 | the later suggestions are the labels of the first matching categories in table order, each "Category: " followed by the name of a matching category |
| Suggestions.SuggestionsComplete | CODE/PRODUCTS/views.py:134-145 | when at most five products match, all of their names are suggested; when at most three categories match, all of them are suggested |
| Suggestions.CollectProductNames | CODE/PRODUCTS/views.py:134-136 | scanning the products in order and stopping after five matches yields the product suggestions |
| Suggestions.CollectCategoryLabels | CODE/PRODUCTS/views.py:139-141 | scanning the categories in order and stopping after three matches yields the category suggestions |
| Suggestions.CollectSuggestions | CODE/PRODUCTS/views.py:128-147 | the view body, with both scans, returns exactly `Suggestions` |

## Left out

- `str.isalnum` is the parameter `alnum` because the Unicode letter and digit tables are not modelled. `Filename.SensibleAlnum` states the one property the header lemmas need: no alphanumeric character is whitespace or a double quote. `Filename.AsciiAlnum` is the ASCII instance used in the worked example.
- Decimal.PyInt: Unicode decimal digits (Arabic-Indic and others), which Python's `int()` also accepts, are not modelled; only ASCII digits are. Python 3.11 and later also reject decimal strings of more than 4300 digits (the integer string conversion limit); the model converts strings of any length.
- The database's `icontains` is the parameter `icontains`, because SQL collation and case folding are not modelled.
- QR encoding and PNG output are the parameter `render(style, path)`, and the batch view's base64 step is the parameter `encode`. The model proves which settings and payload reach the renderer, not the pixels. `qr.make(fit=True)` growing the symbol past version 1 is part of the renderer.
- `build_absolute_uri` adds the scheme and host, which come from the request. The model carries only the path `/<pk>/` that the URL ends with.
- The box-size and border checks that make a non-positive size or a negative border fail belong to the QR library's constructor. That code is not part of this model; the checks are modelled as the errors `InvalidBoxSize` and `InvalidBorder`.
- Which colour names the image library accepts is the parameter `accepts`. The bare `except` that catches any rendering failure is modelled as rejection of the colour pair.
- CustomQr.GenerateProductQr: the renderer is assumed never to fail for any reason other than the colours. A very large size or border (`?size=1000000`) passes the library's checks but exhausts memory while drawing; the program then falls back to black on white, fails again outside the `try`, and answers with status 500, where the model answers with success. Memory is not modelled.
- BatchQr.BatchQr: the key conversion is the parameter `toKey` because inlining Python `int()` into every batch proof is too costly. `BatchQr.PrintedKeyRequested` ties it to `Decimal.PyInt`. The properties hold for every conversion. The error message text for a bad key is a paraphrase of Django's.
- The GET branch of `batch_qr_generation` renders a template of available products sorted by name; templates are outside the model.
- `product_list` (search, filter, pagination) and `product_detail` (review submission, offers and reviews, its inline QR code of the page's own URL with border 5) are page rendering, not part of this model.
- `cache_page(60 * 5)` on `search_suggestions`, `admin.py`, and the `Offer`, `Review` and `ProductView` models are not modelled.
- Catalog.Lookup: keys are assumed to lie within the database's integer range. The route's `<int:pk>` and `int()` in the batch view accept digit strings of any length, and a key beyond the 64-bit range can make the database driver raise an overflow error (status 500) where the model answers 404 (`Catalog.Lookup`) or drops the key (`BatchQr.UnknownIdIgnored`).
- The JSON encoding of responses is not modelled; responses are values of the model's datatypes.
- Django's own handling of the header value assigned at line 123 of views.py is not modelled: it rejects line breaks and encodes values that are not latin-1 (RFC 2047). `Filename.HeaderRoundTrip` is about the value the view assigns, not the bytes sent.
- Table order: `Product` and `Category` declare no ordering, so the database may return rows in any order. The model fixes one order, the sequence order, and proves the order properties relative to it.
- There is no view that renders a single product's QR code with fixed settings: `generate_product_qr` always reads size, border and colours from the query string and always answers with an attachment.
- In the batch view, a well-formed key that no product has is dropped silently, but a submitted value that `int()` rejects fails the whole request with status 500 (`BatchQr.InvalidId`).
