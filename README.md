# PIM gestor core, modelled in Dafny

The product manager keeps a list of product records: name, SKU, NCM tax
code, EAN/GTIN barcode, cost, and links to photos and videos. It lists
and filters them, turns Google Drive links into thumbnails, and imports
spreadsheets. It also registers products with the GS1 Brasil barcode
registry and looks them up there, through two serverless handlers and a
browser-side client. This project models the logic under the UI. Each
piece is proved against a specification of what the code promises.

- `text.dfy`, `lists.dfy`, `patterns.dfy`, `records.dfy`, `wrappers.dfy`,
  `http.dfy`: the JavaScript string and array operations the code relies
  on. They cover `replace(/\D/g, '')`, `trim`, `toLowerCase`, `includes`,
  `padStart`, `slice`, `filter`, `findIndex`, and first-match regular
  expressions with a `[A-Za-z0-9_-]+` capture. They also define the view
  of an HTTP reply that the GS1 code sees.
- `utils.dfy` (`src/lib/utils.js`): the Drive thumbnail URL, NCM display,
  filter tabs, search, and the spreadsheet column alias table.
- `drive_api.dfy` (`src/lib/driveApi.js`): the Drive folder id, and the
  guard before the folder listing request.
- `db.dfy` (`src/lib/db.js`): the record defaults, the GS1 column
  fallback, and the browser-storage branch of the store. That branch is
  a class whose product list the methods create, update, remove and
  bulk-import change in place.
- `gs1_client.dfy` (`src/lib/gs1.js`): the token cache, a class holding
  the module-level `tokenCache`, and product registration.
- `gs1_proxy.dfy`, `gs1_register.dfy` and `gs1_verify.dfy`
  (`api/gs1-register.js`, `api/gs1-verify.js`): the two handlers, as
  functions from the request, the environment and the registry's
  replies to the response and the list of requests sent. The two files
  have identical `getToken` functions, modelled once as
  `Gs1Proxy.ProxyToken`.
- `import_modal.dfy` (`src/components/ImportModal.jsx`): header
  normalisation, row mapping (a loop, as in the source), the file-name
  check, the preview, and the upload → preview → done steps of the dialog.

The clock, `uuidv4`, the network replies, parsed JSON bodies and the
spreadsheet reader are inputs. A record is a map from field name to text.
An absent field is an absent key. A falsy text is the empty string.
`uuid` is a function of the row's position in a bulk import.

The code performs no GTIN check-digit validation anywhere: neither the
client nor either handler computes or checks a check digit. The model
follows the code, so it has no such routine. A failed token exchange
leaves the client's cache exactly as it was, including a stored expired
token; it does not clear the cache. The client checks the EAN before the
name.

## Model

| member | source | states |
|---|---|---|
| Text.Digits | src/lib/utils.js:42 | The result holds only digits and is never longer than the input. An all-digit string is returned as it is. |
| Text.DigitsAppend | src/lib/utils.js:42 | Removing non-digits distributes over concatenation. |
| Text.DigitsIdempotent | src/lib/gs1.js:63 | Stripping non-digits twice equals stripping once. |
| Text.Trim | src/lib/utils.js:62-67 | The result is empty iff the input is all white space. Otherwise it starts and ends with a non-space character. A string already without outer white space is returned unchanged. The result is a slice `s[i..j]` with only white space before `i` and from `j` on. |
| Text.TrimIdempotent | src/components/ImportModal.jsx:42 | Trimming twice equals trimming once. |
| Text.Lower | src/lib/utils.js:74 | Character by character lowering: same length, no upper-case ASCII letter left, spaces and digits kept. |
| Text.LowerIdempotent | src/lib/utils.js:74-78 | Lowering twice equals lowering once. |
| Text.IndexOfFrom | src/lib/utils.js:77-80 | Returns the leftmost occurrence at or after `from`, or -1 exactly when there is none. |
| Text.Contains | src/lib/db.js:32 | `includes` holds iff the substring occurs at some position. |
| Text.Take | api/gs1-register.js:44 | `slice(0, n)` is a prefix of length `min(n, length)`. |
| Text.PadStart | api/gs1-register.js:76 | The result length is `max(n, length)`. It ends with the input, and every added character is the pad character. |
| Text.NatToStringRoundTrip | api/gs1-register.js:129 | The decimal text of a status code reads back as that code. |
| Lists.Filter | src/lib/utils.js:62 | The result is a subsequence of the input. Each element's multiplicity is kept when the predicate holds and is 0 otherwise. |
| Lists.FilterIdempotent | src/lib/utils.js:60-70 | Filtering twice by the same predicate equals filtering once. |
| Lists.FindIndex | src/lib/db.js:79 | `findIndex`: -1 iff no element matches. Otherwise the least matching index. |
| Patterns.IdRun | src/lib/utils.js:13 | The greedy `[A-Za-z0-9_-]+` run: a prefix of id characters followed by a non-id character or by the end. |
| Patterns.IdRunOfDelimited | src/lib/utils.js:13 | An id followed by a non-id character is captured exactly. |
| Patterns.Capture | src/lib/utils.js:13 | No match iff no position has the marker followed by an id character. A capture is a non-empty run of id characters. |
| Patterns.CaptureIsLeftmostRun | src/lib/utils.js:13 | The capture is the maximal run after the leftmost marker occurrence that is followed by an id character. |
| Patterns.CaptureOccurs | src/lib/utils.js:13-15 | A captured id occurs in the URL. |
| Utils.DriveUrlToThumbnail | src/lib/utils.js:9-31 | An empty URL gives null. A result is either the URL itself or the thumbnail URL of a non-empty id that occurs in the URL. |
| Utils.DriveUrlToThumbnailNull | src/lib/utils.js:10-30 | The result is null iff the URL is empty, or it matches neither `/file/d/` nor `id=` and does not mention `googleusercontent.com`. |
| Utils.FileIdWins | src/lib/utils.js:13-16 | A `/file/d/ID` match wins over any `id=` parameter. The result is exactly the thumbnail URL of the maximal id run after the leftmost match. |
| Utils.QueryIdWins | src/lib/utils.js:17-21 | Without a `/file/d/` match, the result is exactly the thumbnail URL of the maximal id run after the leftmost `?id=` or `&id=`. |
| Utils.IdFallback | src/lib/utils.js:24-28 | With no `/file/d/` or `[?&]id=` match and no `googleusercontent.com`, the result is exactly the thumbnail URL of the maximal id run after the leftmost `id=`. |
| Utils.DirectImageKept | src/lib/utils.js:18-23 | A `googleusercontent.com` URL is returned unchanged only when neither `/file/d/` nor `[?&]id=` matched first. |
| Utils.QueryIdImpliesId | src/lib/utils.js:18-28 | A `[?&]id=` match implies an `id=` match, so the last pattern only catches `id=` at the start or after another character. |
| Patterns.ThumbnailUrl | src/lib/utils.js:15 | The thumbnail URL has the fixed prefix and suffix lengths around the id, and carries the id right after the prefix. |
| Utils.ThumbnailUrlIsFixpoint | src/lib/utils.js:15-20 | A thumbnail URL the function produced maps to itself. |
| Utils.FormatNcm | src/lib/utils.js:40-47 | An empty NCM gives an em dash. Exactly eight digits give `DDDD.DD.DD` of those digits. Anything else is returned unchanged, not stripped of non-digits. |
| Utils.Dotted | src/lib/utils.js:44 | `DDDD.DD.DD`: ten characters, dots at positions 4 and 7, and the eight digits in order between them. |
| Utils.DigitsOfDotted | src/lib/utils.js:43-44 | The dotted form holds the same eight digits. |
| Utils.FormatNcmKeepsDigits | src/lib/utils.js:40-47 | Formatting never changes the digits of an NCM. |
| Utils.FormatNcmIdempotent | src/lib/utils.js:40-47 | Formatting a formatted NCM changes nothing. |
| Utils.FilterField | src/lib/utils.js:61-68 | A filter id selects a product field, or none ('all' and unknown ids). |
| Utils.IsBlankField | src/lib/utils.js:62-67 | `!p.field?.trim()`: the field is absent or holds only white space. |
| Utils.ApplyFilter | src/lib/utils.js:60-70 | 'all' and unknown ids return the list unchanged. Otherwise the result is the order-preserving subsequence of exactly the products whose field is absent or white space only. |
| Utils.FilterTabsSelectFields | src/lib/utils.js:50-68 | Every tab except 'all' selects a field. |
| Utils.ApplyFilterIdempotent | src/lib/utils.js:60-70 | Applying a filter twice equals applying it once. |
| Utils.MatchesQuery | src/lib/utils.js:76-81 | A product matches when its lowered `nome` or `sku`, or its raw `ean` or `ncm`, contains the query. An absent field never matches. |
| Utils.ApplySearch | src/lib/utils.js:72-82 | A blank query returns the list unchanged. Otherwise the result is the order-preserving subsequence of the products whose lowered `nome` or `sku`, or raw `ean` or `ncm`, contains the lowered, untrimmed query. |
| Utils.SearchIgnoresQueryCase | src/lib/utils.js:74 | Searching for the lowered query gives the same result. |
| Utils.ColumnMapTargetsFields | src/lib/utils.js:86-112 | Every alias maps to one of the ten product fields. |
| Utils.ColumnMapCoversFields | src/lib/utils.js:86-112 | Every product field is its own alias. |
| Utils.ColumnMapKeysNormalized | src/lib/utils.js:86-112 | Every alias is already lower-case and trimmed. |
| DriveApi.ExtractFolderId | src/lib/driveApi.js:10-14 | An empty URL gives null. The result is null iff no `/folders/` is followed by an id character. An id is non-empty and holds only id characters. |
| DriveApi.FolderIdIsLeftmostRun | src/lib/driveApi.js:12-13 | The id is the maximal run after the leftmost matching `/folders/`. |
| DriveApi.FirstImageFromFolder | src/lib/driveApi.js:20-39 | Nothing is requested iff there is no folder id or no API key. A thumbnail is returned iff the listing succeeded with a file, and it is the thumbnail URL of the first file. |
| DriveApi.NoRequestWithoutFolderOrKey | src/lib/driveApi.js:21-22 | Without a folder id or a key, the result does not depend on the listing. |
| Db.Blank | src/lib/db.js:13-24 | Every core and GS1 key is present. Keys of `data` keep their values. Every other key is '' except `origem`, which is '076'. |
| Db.BlankIdempotent | src/lib/db.js:17-24 | Defaulting twice equals defaulting once. |
| Db.WithoutGs1 | src/lib/db.js:15-28 | Removes exactly the five GS1 keys. Every other key keeps its value. |
| Db.WithoutGs1KeepsProductFields | src/lib/db.js:13-28 | The core fields of a defaulted record survive the GS1 fallback. |
| Db.IsMissingColumnError | src/lib/db.js:31-32 | Holds iff the code is `PGRST204` or the message contains 'does not exist'. A missing error, code or message does not count. |
| Db.NewRecord | src/lib/db.js:59 | Every product field is present. `created_at` and `updated_at` are the current time. Fields of `data` keep their values, and an `id` in `data` overrides the generated one. A default field missing from `data` is '', except `origem`, which is '076'. No other key. |
| Db.Merge | src/lib/db.js:81 | Keys of the old record and of `data`, with `data` winning, and `updated_at` set to the current time. |
| Db.ImportRow | src/lib/db.js:116-120 | One row either updates the list in place, keeping its length, or prepends the new record built from it. `Db.ImportRowShape` says which. |
| Db.ImportAll | src/lib/db.js:115-122 | The rows are applied in order. Each adds at most one record, and none is removed. |
| Db.ImportRowShape | src/lib/db.js:116-120 | A row whose SKU matches a stored SKU, ignoring case, is merged in place into the first such record, and no earlier record matches. Any other row is prepended as a new record. |
| Db.ImportRowMakesFindable | src/lib/db.js:116-120 | After a row with a SKU is imported, that SKU is found in the list. |
| Db.ImportRowKeepsFindable | src/lib/db.js:116-120 | Importing a row never makes a findable SKU unfindable. |
| Db.ImportedSkusFindable | src/lib/db.js:115-122 | After a bulk import, every row's SKU is found in the list, including SKUs inserted by earlier rows of the same import. |
| Db.FindableStaysAcrossImport | src/lib/db.js:115-122 | A SKU findable before a bulk import stays findable. |
| Db.ImportOfKnownSkusKeepsLength | src/lib/db.js:115-122 | Rows whose SKUs are all already stored only update, so the list length is unchanged. |
| Db.ReimportAddsNothing | src/lib/db.js:115-122 | Importing the same SKU-bearing rows again adds no record. |
| Db.LocalStore.Create | src/lib/db.js:57-62 | The new record is at index 0 and is that of `Db.NewRecord`. The old records follow unchanged and in order. |
| Db.LocalStore.Update | src/lib/db.js:78-83 | An absent id returns null and leaves the list unchanged. Otherwise only the first record with that id is replaced, by its merge with `data`. That merge is returned, and the length is kept. |
| Db.LocalStore.Remove | src/lib/db.js:92 | Every record with the id is deleted. The others keep their relative order. |
| Db.LocalStore.BulkImport | src/lib/db.js:113-124 | The loop's list equals the row-by-row upsert `Db.ImportAll` of the rows, and it returns the number of rows. |
| Http.Field | api/gs1-register.js:129 | A truthy string field of a parsed body, or '' when it is missing or the body is not JSON. |
| Gs1Client.ExpiryAfter | src/lib/gs1.js:48 | The expiry is `issued + (expires_in − 60)·1000`. It is NaN without a numeric `expires_in`. |
| Gs1Client.Fresh | src/lib/gs1.js:21 | A cached token is reused iff it is non-empty and the clock is before a numeric expiry. A NaN expiry is never fresh. |
| Gs1Client.Acquire | src/lib/gs1.js:20-51 | A fresh token is reused with no request. A stale one always causes a request. A failed exchange throws (the auth message for a refusal carries the body) and leaves the cache unchanged. A successful one stores the token and its expiry and returns the token. |
| Gs1Client.GrantedTokenIsReused | src/lib/gs1.js:21-50 | A token granted for `expires_in` seconds is reused, with no new request, until 60 seconds before it runs out. |
| Gs1Client.ExpiredTokenIsRenewed | src/lib/gs1.js:21 | Once the clock reaches the expiry, or the expiry is NaN, the next call requests a token. |
| Gs1Client.Session.GetToken | src/lib/gs1.js:18-51 | The new cache, the result and whether a request was sent are exactly those of `Gs1Client.Acquire`. |
| Gs1Client.Session.RegisterProduct | src/lib/gs1.js:54-94 | A failed check throws before any token request (`exchanged` is false) or product post, and keeps the cache. Otherwise a token request goes out exactly when `Gs1Client.Acquire` sends one, and the token's failure is thrown, or the payload is posted with the token and the reply is mapped. |
| Gs1Client.ClientCheck | src/lib/gs1.js:57-58 | A missing `ean` is reported before a missing `nome`. The product passes iff both are present. |
| Gs1Client.ClientPayloadOf | src/lib/gs1.js:62-71 | `gtin` is exactly the digits of `ean`, never padded. `ncm` is exactly the digits of `ncm`, or '' when there is none. `sku` is the SKU or ''. `marca` is `sku || nome`. `tipo` and `unidadeMedida` are the fixed constants. |
| Gs1Client.ClientPayloadOfStable | src/lib/gs1.js:62-71 | Feeding the sent `gtin` and `ncm` back in as the product's `ean` and `ncm` gives the same payload: the digit cleaning is done once and for all. |
| Gs1Client.ClientErrorAsWritten | src/lib/gs1.js:82-91 | As written, the message is exactly `Erro <status>: <body>`, whatever the body parses to. |
| Gs1Client.FriendlyMessageLost | src/lib/gs1.js:85-90 | As written, a non-empty JSON `message` is lost: the thrown message differs from it unless the message happens to be `Erro <status>: <body>` itself. |
| Gs1Client.ClientErrorMessage | src/lib/gs1.js:84-89 | The intended message: `message`, else `error_description`, else `Erro <status>`, and the raw-body message only for a body that is not JSON. |
| Gs1Client.ClientOutcome | src/lib/gs1.js:82-93 | Success iff the reply is ok with a JSON body, which is returned. A non-ok reply throws the intended message. |
| Gs1Client.ClientOutcomeAsWritten | src/lib/gs1.js:82-93 | As written, a non-ok reply throws `Gs1Client.ClientErrorAsWritten`. Every other reply gives what `Gs1Client.ClientOutcome` gives. |
| Gs1Client.ClientOutcomeAsWrittenDiffers | src/lib/gs1.js:82-93 | The two readings differ exactly on non-ok replies whose as-written message is not the intended one. |
| Gs1Proxy.HasCredentials | api/gs1-register.js:68 | All four credentials (client id, client secret, user name, password) are non-empty. |
| Gs1Proxy.ProxyToken | api/gs1-register.js:28-52 | A token is returned iff the exchange is ok, JSON, and carries `access_token`. A refusal reports at most 300 body characters, a non-JSON reply at most 200, and a missing token at most 200 of the serialised body. Every failure carries a message. |
| Gs1Proxy.NormalizeGtin | api/gs1-register.js:76 | All digits, of length `max(14, digit count)`, ending with the digits of `ean`, and zero-padded on the left. |
| Gs1Proxy.NormalizeGtinOfGtin14 | api/gs1-verify.js:60-61 | A 14-digit GTIN is sent as it is. |
| Gs1Proxy.NormalizeGtinIdempotent | api/gs1-verify.js:60-61 | Normalising a normalised GTIN changes nothing. |
| Gs1Register.BodyOf | api/gs1-register.js:57 | A missing body reads as the empty object. |
| Gs1Register.KeyCode | api/gs1-register.js:82 | A 14-character GTIN is declared `GTIN_14`, any other `GTIN_13`. |
| Gs1Register.PayloadOf | api/gs1-register.js:76-110 | The key code is `GTIN_14` iff the EAN has at most 14 digits, and `GTIN_13` otherwise. `brandName` is `sku || nome`. The NCM block is present iff `ncm` is non-empty, and it carries the digits of `ncm`. |
| Gs1Register.UpstreamError | api/gs1-register.js:125-134 | For a JSON body: `message`, else `error_description`, else `Erro <status>`. For any other body: `Erro <status>: ` and at most 300 body characters. |
| Gs1Register.RegistryResponse | api/gs1-register.js:123-140 | A non-ok status is passed through with `Gs1Register.UpstreamError`. The response is 200 iff the reply is ok and JSON, and then carries the parsed body. A non-JSON ok reply or a network failure gives 500. |
| Gs1Register.Handle | api/gs1-register.js:54-141 | A non-POST gives 405, then a missing `ean` 400, then a missing `nome` 400. No request is sent iff one of those, or a missing credential, applies. Missing credentials after valid input give 500 with 'Credenciais GS1 não configuradas no servidor.'. Otherwise the token request is sent first, its failure gives 500, and a granted token leads to exactly one product post. |
| Gs1Verify.LookupResponse | api/gs1-verify.js:84-97 | An ok reply gives 200 `{found: true, source: 'own', product}`. A 404 gives 200 `{found: false, source: 'own'}`. Any other status is echoed with `GS1 erro <status>` and the body's first 300 characters, the whole body when it is shorter. |
| Gs1Verify.Handle | api/gs1-verify.js:53-102 | A non-GET gives 405, then a missing `ean` 400. No request is sent iff one of those, or a missing credential, applies. Missing credentials after a valid `ean` give 500 with 'Credenciais GS1 não configuradas no servidor.'. A granted token leads to one lookup of the 14-digit padded GTIN. |
| Gs1Verify.LookupGtinIs14Digits | api/gs1-verify.js:59-61 | An EAN of at most 14 digits is looked up as exactly 14 digits: its digits with zeros on the left. |
| ImportModal.NormalizeHeader | src/components/ImportModal.jsx:39 | A normalised header has no outer white space and no upper-case ASCII letter. |
| ImportModal.HeaderIgnoresCase | src/components/ImportModal.jsx:39 | Lower-casing a header first changes nothing, so `SKU` and `sku` normalise alike. |
| ImportModal.FieldOfIgnoresCase | src/components/ImportModal.jsx:39-40 | A header maps to the same field whatever its case. |
| ImportModal.FieldOf | src/components/ImportModal.jsx:39-41 | A header is recognised iff its normalised form is an alias, and it then maps to exactly the field that alias names. |
| ImportModal.AliasesRecognised | src/components/ImportModal.jsx:39-40 | Every alias typed exactly as listed is recognised. |
| ImportModal.MappedRow | src/components/ImportModal.jsx:37-43 | A mapped row only holds fields the alias table targets. |
| ImportModal.MappedRowHasProductFields | src/components/ImportModal.jsx:37-43 | With the real alias table, a mapped row holds product fields only. |
| ImportModal.LastColumnFor | src/components/ImportModal.jsx:38-42 | The last column mapping to a field, or -1 exactly when none does. |
| ImportModal.MappedRowLastColumnWins | src/components/ImportModal.jsx:38-42 | A field is set iff some column maps to it. It holds the trimmed text of the last such column. |
| ImportModal.MappedRowEmpty | src/components/ImportModal.jsx:38-44 | A row maps to no field iff none of its headers is recognised. |
| ImportModal.MappedValuesTrimmed | src/components/ImportModal.jsx:42 | Every mapped value is already trimmed. |
| ImportModal.MapRow | src/components/ImportModal.jsx:37-43 | The column loop builds exactly the row of `ImportModal.MappedRow`. |
| ImportModal.MapSheet | src/components/ImportModal.jsx:36-44 | The surviving rows are an order-preserving subsequence of the mapped rows, and none of them is empty. Each non-empty mapped row survives as often as it occurs. |
| ImportModal.SurvivingRows | src/components/ImportModal.jsx:44 | A sheet row survives iff one of its headers is recognised. |
| ImportModal.AcceptsFileName | src/components/ImportModal.jsx:63 | `/\.(xlsx\|xls\|csv)$/i`: the lowered name ends in `.xlsx`, `.xls` or `.csv`. |
| ImportModal.AcceptsFileNameIgnoresCase | src/components/ImportModal.jsx:63 | The extension check ignores case. |
| ImportModal.Parse | src/components/ImportModal.jsx:25-56 | A reader error gives `Erro ao ler planilha: ` and its message. An empty sheet gives 'A planilha está vazia.'. No surviving row gives 'Nenhuma coluna reconhecida…'. Rows are produced iff at least one row survives, and they are then exactly the surviving rows. |
| ImportModal.PreviewRows | src/components/ImportModal.jsx:239 | The first 20 rows, in order, or all of them when there are 20 or fewer. |
| ImportModal.Overflow | src/components/ImportModal.jsx:255-257 | The overflow note appears iff there are more than 20 rows, and then counts the rows beyond the first 20. |
| ImportModal.PreviewAccountsForAllRows | src/components/ImportModal.jsx:239-257 | The previewed rows plus the overflow count equal the row count. The preview is the list without its last `Overflow` rows. |
| ImportModal.Dialog.HandleFile | src/components/ImportModal.jsx:22-67 | No file changes nothing. A bad extension or a parse failure sets just that error and keeps the step. A parse with rows enters the preview with those rows and clears the errors. The preview is never entered without rows. |
| ImportModal.Dialog.Back | src/components/ImportModal.jsx:111 | 'Voltar' returns to the upload step and keeps rows and errors. |
| ImportModal.Dialog.Import | src/components/ImportModal.jsx:77-87 | The previewed rows are bulk-imported into the local store (`Db.ImportAll`), and the dialog moves to the done step. |

## Left out

- The Supabase branches of `src/lib/db.js`, `getAll`, and the session wrapper `src/lib/auth.js` are remote database and session I/O. The browser-storage read and write become the `LocalStore.products` field.
- The `lsLoad` fallback to `[]` when the stored item is not valid JSON is a parse of foreign storage and is not modelled.
- `fetch`, `Buffer` basic-auth encoding, `process.env` and `import.meta.env` are not modelled. Replies, the environment (`Gs1Proxy.Env`) and the client's `GS1_CAD` are parameters, and each request is recorded as a `Gs1Proxy.Call` value.
- The URLs, the request headers, and the client's form-encoded token request body are transport details, not modelled.
- The XLSX reader, `FileReader`, `json_to_sheet` and `writeFile` are foreign libraries. The dialog starts from already-read rows of (header, `String(val)`) pairs.
- `formatCurrency` uses float parsing and locale formatting, and is not modelled.
- The rendering components, timers and clipboard are UI.
- The optional one-liners in ProductModal, Thumbnail and FilterBar are UI only.
- `Text.Lower` maps ASCII and Latin-1 letters only. Other Unicode case mappings of `toLowerCase` are not modelled.
- JavaScript strings are UTF-16. The model's strings are sequences of code points, so `slice` lengths differ for characters outside the Basic Multilingual Plane.
- `Object.entries` lists integer-like keys first. The model keeps the given column order.
- A header that is a property inherited by every object, such as `constructor`, would be looked up in `COLUMN_MAP`'s prototype. The model treats the table as a plain map.
- A JSON body that parses to something other than an object is not distinguished from one that does not parse.
- `Gs1Client.ExpiryAfter`: `expires_in` is an integer here. A fractional or non-numeric value is not modelled beyond "absent gives NaN".
- `ImportModal.Dialog.Import`: `bulkImport` is asynchronous and not awaited in the dialog. In the browser-storage branch it completes before the step changes, which is what the model states. The `importCount` it reads from `.length` of a number is not modelled.
- `ImportModal.Dialog.HandleFile`: the file is read asynchronously. The model runs the load handler at once.
- `Gs1Client.ClientOutcome`: it maps a non-ok reply with the corrected `ClientErrorMessage`. The code as written reports `ClientErrorAsWritten`, modelled as `Gs1Client.ClientOutcomeAsWritten`; see Findings.
- `Gs1Client.Session.RegisterProduct`: it maps the registry's error reply with the corrected `ClientErrorMessage`. The code as written reports `ClientErrorAsWritten`; see Findings.
- Concurrent callers of the client's `getToken` are not modelled. Calls are sequential.
- A token reply without `access_token` makes the client store and return `undefined`, and the product post then carries `Bearer undefined`. The model uses the empty string, which is falsy in the same way, so the next call requests a token again in both.

## Findings

| source | as written | input that shows it | evidently intended | confidence | as-written member | corrected member |
|---|---|---|---|---|---|---|
| src/lib/gs1.js:85-90 | The friendly message is thrown inside the `try`, so the `catch` of the same statement catches it and always throws `Erro <status>: <body>`. | A 400 reply with body `{"message":"GTIN inválido"}` is reported as `Erro 400: {"message":"GTIN inválido"}`. | Throw the body's `message`, else `error_description`, else `Erro <status>`. Use the raw body only when it is not JSON, as the register handler does. | high, not executed | Gs1Client.FriendlyMessageLost | Gs1Client.ClientErrorMessage |
