# Reposição — catalogue core in Dafny

This project models the catalogue logic of the Reposição parts-replenishment
app (Python and Streamlit):

- **Admin page** (`pages/admin.py`). Staff look products up by code, register
  new products, and assemble and save a customer catalogue. The catalogue file
  is named after the customer's slug.
- **Editor page** (`pages/editar_catalogos.py`). It opens a saved catalogue and
  edits a piece. The edit is mirrored into the product list. It removes marked
  pieces, and every product carrying their codes. It adds pieces and saves the
  customer name.
- **Listing page** (`catalogos.py`). It summarises every catalogue file and
  links each one to the customer page.
- **Customer page** (`app.py`). `pages/pesquisa.py` repeats it and adds a manual
  button under each piece. The page opens the catalogue for a slug, normalises
  its `pecas` into codes, and resolves them against the product database. It
  then collects the ticked pieces (`components/peca.py`) and builds the order
  message.
- **Product database** (`utils/importDatabase.py`). It is turned into a
  dictionary keyed by code.
- **`github_upload`**. This is the decision logic of the helper that pushes
  each written file to the GitHub contents API.

`pages/pesquisa.py` lines 96-105 repeat `app.py` lines 60-69 apart from the
prompt and error texts ("Nome do Catálogo:" for "Nome do Cliente:", "Digite o
nome do Catálogo." for "Digite o nome do cliente."). Its lines 111-149 repeat
`app.py` lines 75-113 line for line, and its lines 154-178 repeat `app.py`
lines 118-136 apart from a comment and the manual button. Both pages are therefore modelled once, in
`ClientPage`. The only addition is the manual button of
`pages/pesquisa.py:55-75,167-170`.

`github_upload` at `pages/editar_catalogos.py:66-129` repeats
`pages/admin.py:68-131` apart from its docstring. `GitHubSync` models both.

**How the model is built**

- Entities are datatypes: `Product`, a catalogue `Item` (a product record or a
  bare code), `Catalogue` and the upload outcomes.
- Keys that the source reads with `.get` are `Option` fields.
- The pages whose state changes step by step are classes: `AdminSession`, the
  editor's `Editor`, and the customer page's `Selection`.
- Their methods are proved against specification functions (`FindByCode`,
  `UpdateFirst`, `Without`/`FilterOut`, `NewPiece`, `Summaries`, `UploadSpec`
  and so on).
- Lemmas prove what the pages promise about those functions.
- Small helpers have no row of their own: `ClientPage.ItemCode` (the code an
  entry contributes), `CatalogueListing.IsJsonName` (the `.json` suffix test),
  and `CatalogueEditor.KeepFrom`/`CatalogueEditor.Without` (the pieces kept by
  the removal). The rows of `Normalised`, `JsonFiles`, `KeepFromUnmarked`,
  `WithoutNothing`, `WithoutOne` and `Editor.RemoveMarked` state what they mean.

**Shared products and duplicate codes.** New products are appended without a
duplicate check (`pages/admin.py:267`, `pages/editar_catalogos.py:412`). The two
pages then disagree when two products share a code:

- the admin search returns the first product with the code;
- the customer page's database dictionary keeps the last one.

`Scenarios.DuplicateCodeViewsDiffer` states this. The editor's removal deletes
every product with a removed piece's code from the shared product list, not
only from the catalogue. `Scenarios.RemovedCodeIsSkipped` shows that the
customer page then skips that code everywhere.

## Model

| member | source | states |
|---|---|---|
| Text.LowerChar | app.py:66 | `str.lower` on one character maps an upper-case ASCII or Latin-1 letter to the character 32 code points above it and keeps every other character; space and `_` are fixed points |
| Text.Lower | app.py:66 | `s.lower()` keeps the length and lower-cases every position independently |
| Text.Replace | app.py:66 | `s.replace(a, b)` keeps the length and changes exactly the positions holding `a` |
| Text.LastSegment | pages/admin.py:215 | `split(sep)[-1]` holds no `sep`, is a suffix of the input, is preceded by `sep` when `sep` occurs, and is the whole input otherwise |
| Text.NatToString | components/peca.py:24-25 | `str(idx)` is a non-empty run of decimal digits |
| Text.DigitsValueOfNatToString | components/peca.py:24-25 | reading back the digits of `str(n)` gives `n` |
| Text.NatToStringInjective | components/peca.py:24-25 | different positions print differently |
| Text.LastSegmentAfterSeparator | pages/admin.py:215-218 | what follows the last separator of `a + sep + t` is `t` when `t` holds no separator |
| Text.StripLeft | app.py:63 | `lstrip()` returns a suffix of the input that does not start with white space |
| Text.StripRight | app.py:63 | `rstrip()` returns a prefix of the input that does not end with white space |
| Text.StripLeftEmptyIffAllSpace | app.py:63 | `lstrip()` leaves nothing exactly when every character is white space |
| Text.StripEmptyIffAllSpace | app.py:63 | `strip()` leaves nothing exactly when every character is white space |
| Text.BlankIffStripEmpty | app.py:63 | `IsBlank` (the model's test for blank input) holds exactly when `strip() == ""`, in both directions |
| Text.Split | app.py:134-135 | `split(sep)` gives at least one piece, no piece holds `sep`, and a string without `sep` splits into itself alone |
| Text.Join | app.py:134-135 | `sep.join([])` is empty; a join starts with its first line; with two or more lines the first line is followed by `sep` |
| Text.SplitJoin | app.py:134-135 | `split("\n")` undoes `"\n".join` for lines without a newline |
| Text.JoinAppend | app.py:135 | joining two groups of lines puts exactly one newline between them |
| Slugs.Slug | app.py:66 | the slug keeps the name's length and holds no space |
| Slugs.CatalogueFileName | pages/admin.py:314 | the file name is the name with each space turned into `_` and then lower-cased, character by character, followed by `.json` |
| Slugs.LowerReplaceCommute | pages/admin.py:314 | replacing spaces and then lower-casing equals lower-casing and then replacing spaces |
| Slugs.FileNameIsSlugFile | pages/admin.py:314 | the admin's catalogue file name is the customer slug plus `.json` and holds no space |
| Slugs.EnterAsCustomer | app.py:62-67 | a blank typed name is refused (both directions); otherwise the query parameter is the slug of the name as typed, unstripped |
| Slugs.SlugOfSpacedName | app.py:66 | the slug of "Acme Co" is "acme_co" |
| Slugs.SlugCollision | app.py:66 | "Acme Co" and "acme_co" have the same slug |
| Slugs.SlugKeepsOuterSpaces | app.py:63-66 | the slug is not trimmed: outer spaces become underscores |
| Assets.Extension | pages/admin.py:215-217 | the extension holds no dot, is never `jpeg` (mapped to `jpg`), and is otherwise the lower-cased last dotted segment |
| Assets.FormatFor | pages/editar_catalogos.py:219-220 | `jpg` maps to JPEG, `png` to PNG, any other extension to no format |
| Assets.AdminSaveFormat | pages/admin.py:224-225 | the admin page saves JPEG exactly for `jpg`, PNG for everything else |
| Assets.ImagePathExtension | pages/admin.py:259-261 | the recorded `imagens/{codigo}.{ext}` path reads back with extension `ext` whatever the code |
| Assets.ManualFileNameExtension | pages/admin.py:239 | the manual file `{codigo}.pdf` always reads back with the extension `pdf` |
| Assets.LowerIdempotent | pages/admin.py:215 | lower-casing twice equals lower-casing once |
| Assets.ExtensionOfImageFileName | pages/admin.py:215-218 | the extension read back from `{codigo}.{ext}` is `ext`, whatever the code |
| Records.AsItems | pages/admin.py:307-312 | each product of the session list becomes a record entry at the same position |
| DatabaseIndex.Index | utils/importDatabase.py:10 | the keys are exactly the codes of the list, and each entry carries its own key as code |
| DatabaseIndex.IndexLastWins | utils/importDatabase.py:10 | for a duplicated code, the dictionary holds the last product with that code |
| DatabaseIndex.LoadDatabase | utils/importDatabase.py:4-17 | a missing or malformed file, or a product without `codigo`, gives `{}`; otherwise the result is `Index` of the file's list (so a later duplicate wins, by `IndexLastWins`): every code is a key and each entry is a product of the file |
| GitHubSync.RawUrl | pages/admin.py:47-51 | the branch raw URL ends with `/` and the repository path |
| GitHubSync.RawUrlAtCommit | pages/editar_catalogos.py:55-58 | the commit raw URL is the branch URL with the commit SHA in the branch's place |
| GitHubSync.FetchPhase | pages/admin.py:99-113 | no GET is made exactly when `max_retries <= 0`; every GET but the last was a transport error or a 500; failure means all `max_retries` attempts were made and the last raised; an early stop ends on an answer that is not a 500 |
| GitHubSync.FetchFrom | pages/admin.py:101-113 | the GET loop makes at most `max_retries` attempts and retries only after a transport error or a 500; it fails only when the last allowed attempt raised; stopping early means the last answer was not a 500 |
| GitHubSync.ShaFor | pages/admin.py:115-124 | `sha` goes into the payload exactly when the last GET answered 200 with a non-empty `sha` |
| GitHubSync.UploadSpec | pages/admin.py:68-131 | the identity check failing or raising short-circuits with its status or 500; a failed file read gives 500; at most `max_retries` GETs; a GET phase that ends in a transport error on the last attempt gives 500 after `max_retries` GETs and sends no PUT; otherwise the PUT is sent with the message and the `sha` of the final GET (`ShaFor`), and the result is the PUT's status and commit, or 500 if it raised |
| GitHubSync.GitHubUpload | pages/admin.py:68-131 | the retry loop returns exactly what `UploadSpec` describes |
| GitHubSync.PersistentServerErrorExhaustsRetries | pages/admin.py:101-113 | a GET answering 500 every time is tried `max_retries` times, and the PUT then goes out without `sha` |
| GitHubSync.FetchIgnoresUnusedOutcomes | pages/admin.py:101-113 | outcomes after the last GET made do not affect the result |
| GitHubSync.PersistentTransportErrorGivesUp | pages/admin.py:101-113 | a GET that raises on every attempt ends the upload with 500 after `max_retries` attempts, with no PUT |
| GitHubSync.FoundAfterRetry | pages/admin.py:101-124 | after a retried transport error or 500, a second GET answering 200 with a `sha` makes the PUT an update carrying that `sha` |
| GitHubSync.UpdateOrCreate | pages/admin.py:115-127 | a first GET answering 200 with a `sha` makes the PUT an update carrying it; a 404 makes it a create without one |
| PieceSelection.Selection.constructor | app.py:121-122 | the selection starts empty |
| PieceSelection.Selection.RenderPeca | components/peca.py:24-35 | a ticked piece is appended and its quantity (at least 1) recorded under its code; an unticked piece changes nothing; the selection stays valid |
| PieceSelection.CheckboxKey | components/peca.py:24 | the checkbox key starts with `c` and its last `_`-separated segment is the position |
| PieceSelection.QuantityKey | components/peca.py:25 | the quantity key starts with `q` and its last `_`-separated segment is the position |
| PieceSelection.WidgetKeysDistinct | components/peca.py:24-26 | pieces at different positions never share a checkbox key or a quantity key, whatever their codes |
| PieceSelection.CheckboxIsNotQuantity | components/peca.py:24-25 | a checkbox key is never a quantity key, for any codes and positions, the same position included |
| PieceSelection.KeyEndsWithIndex | components/peca.py:24-25 | whatever the prefix, `{prefix}_{idx}` has `str(idx)` as its last `_`-separated segment |
| PieceSelection.NoSeparatorInDigits | components/peca.py:24 | `str(idx)` holds no underscore |
| ClientPage.CustomerFile | utils/clients.py:4 | the file opened is the customer id followed by `.json` |
| ClientPage.CustomerFileInjective | utils/clients.py:4 | different customer ids open different files |
| ClientPage.OpenCustomer | app.py:75-85 | an unknown customer stops the page; the name, contact and pieces are the file's when present, and default to the id, `""` and `[]` otherwise |
| ClientPage.Normalised | app.py:87-98 | normalisation yields at most one code per entry |
| ClientPage.NormalisedAppend | app.py:89-98 | normalisation works entry by entry in order |
| ClientPage.NormalisedSkipsUncoded | app.py:90-95 | a record without `codigo` is skipped: the entries around it normalise as if it were absent |
| ClientPage.NormalisedBareCodes | app.py:96-98 | a list of bare codes normalises to itself |
| ClientPage.NormaliseItems | app.py:87-98 | the loop computes `Normalised` |
| ClientPage.Entry | app.py:109-110 | the resolved copy carries the looked-up code |
| ClientPage.Resolved | app.py:106-113 | every resolved piece is the database entry of a present code, with that code set; there are no more pieces than codes |
| ClientPage.ResolvedAppend | app.py:107-113 | resolution works code by code, in order |
| ClientPage.ResolvedAllPresent | app.py:107-111 | when every code is present, piece `i` is the entry of code `i` |
| ClientPage.ResolvedSkipsMissing | app.py:112-113 | a code missing from the database is skipped and nothing else changes |
| ClientPage.ResolveCodes | app.py:106-113 | the loop computes `Resolved` |
| ClientPage.Selected | components/peca.py:27-34 | the selection is drawn from the page's pieces; its exact contents are fixed by the three lemmas below |
| ClientPage.SelectedSnoc | components/peca.py:27-34 | rendering one more piece appends it exactly when its box is ticked, so the selection is the ticked pieces in page order |
| ClientPage.SelectedEmptyIffNoTick | components/peca.py:27-34 | nothing is selected exactly when no box is ticked |
| ClientPage.SelectedMembers | components/peca.py:27-34 | a piece is selected exactly when it stands at a ticked position |
| ClientPage.Quantities | components/peca.py:35 | every selected piece has a quantity under its code |
| ClientPage.QuantitiesKeys | components/peca.py:35 | a code has a quantity exactly when some ticked piece carries it |
| ClientPage.QuantityOfLastTicked | components/peca.py:35 | a code ticked several times keeps the quantity of its last ticked piece |
| ClientPage.SelectPieces | app.py:121-128 | the render loop yields a valid selection equal to `Selected` and `Quantities` |
| ClientPage.ItemLine | app.py:134 | an item line starts with `- ` and holds no newline when the name and the code hold none |
| ClientPage.ItemLines | app.py:134 | one item line per selected piece, in selection order |
| ClientPage.OrderMessage | app.py:130-135 | there is no message exactly when nothing is selected |
| ClientPage.ItemLinesAreOneLine | app.py:134 | item lines hold no newline when names and codes hold none |
| ClientPage.Opening | app.py:135 | the message opens with the title `Pedido de Reposição de Peças` on a line of its own |
| ClientPage.HeadJoin | app.py:135 | the four head lines joined by newlines are the text before the item lines |
| ClientPage.OrderMessageIsJoin | app.py:134-135 | the message is the four header lines and the item lines joined by newlines |
| ClientPage.OrderMessageLines | app.py:134-135 | splitting the message on newlines gives back the header lines followed by one line per selected piece |
| ClientPage.PdfButton | pages/pesquisa.py:55-74 | an empty or missing URL gives the "no manual" note; otherwise a link to exactly that URL |
| ClientPage.ManualButton | pages/pesquisa.py:167-170 | a button appears exactly for pieces with a non-empty manual, and links to it |
| ClientPage.RenderCustomerPage | app.py:75-136 | an unknown customer gives no message; otherwise a message exists exactly when the selection is non-empty, that is exactly when some resolved piece is ticked, and it is the order message for the shown name, the selection and its quantities |
| AdminPage.FindByCode | pages/admin.py:41-45 | not found exactly when no product has the code; otherwise the first product with the code |
| AdminPage.NewProduct | pages/admin.py:208-265 | an empty code is refused first, then a missing name, description or image; the record has the typed fields and `imagem = imagens/{codigo}.{ext}`; it has a `manual` (the branch raw URL of the PDF) exactly when the PDF upload succeeded |
| AdminPage.CatalogueToSave | pages/admin.py:299-314 | missing customer data is refused first, then an empty piece list; otherwise the file is the slug plus `.json`, holding the customer, seller, contact and pieces |
| AdminPage.AdminSession.constructor | pages/admin.py:189 | the session starts with the loaded products and no pieces |
| AdminPage.AdminSession.SearchPiece | pages/admin.py:192-199 | a found product is appended to the catalogue being assembled; nothing else changes |
| AdminPage.AdminSession.SaveNewProduct | pages/admin.py:208-278 | an accepted record is appended to the product list and to the catalogue being assembled; a refused one changes nothing |
| AdminPage.AdminSession.RemovePiece | pages/admin.py:293-294 | `pop(i)` drops exactly the piece at `i` |
| AdminPage.AdminSession.SaveCatalogue | pages/admin.py:299-317 | a refusal writes nothing; otherwise exactly the slug file is written with the catalogue, and the other files are kept |
| CatalogueEditor.Fields | pages/editar_catalogos.py:165 | the editor reads every entry as the record at the same position |
| CatalogueEditor.OpenCatalogue | pages/editar_catalogos.py:150-154 | a catalogue without `pecas` is refused (both directions); a missing `cliente` becomes `""`; the pieces, seller and contact are kept |
| CatalogueEditor.Saved | pages/editar_catalogos.py:445-446 | the written document holds the customer, seller, contact and every piece as a record at its position |
| CatalogueEditor.OpenSaved | pages/editar_catalogos.py:150-154 | opening the saved document gives the same draft back |
| CatalogueEditor.SaveOpened | pages/editar_catalogos.py:150-154 | saving an opened catalogue that has a customer, without edits, writes the same document |
| CatalogueEditor.Apply | pages/editar_catalogos.py:199-224 | an edit keeps the code, sets the name and description, and changes the image or manual only when a new one is given |
| CatalogueEditor.UpdateFirst | pages/editar_catalogos.py:277-285 | only the first product with the piece's code takes the edit; with no match the list is unchanged; the length never changes |
| CatalogueEditor.UpdateFirstAt | pages/editar_catalogos.py:277-285 | when position `k` holds the first product with the code, the update edits exactly that product |
| CatalogueEditor.UpdateFirstNone | pages/editar_catalogos.py:277-285 | when no product has the code, the update changes nothing |
| CatalogueEditor.FirstWithCode | pages/editar_catalogos.py:277-285 | the search loop stops at the first product with the code, or runs off the end when there is none |
| CatalogueEditor.PieceCode | pages/editar_catalogos.py:211 | `p.get('codigo', i)` in a file name is the code when present, otherwise the decimal digits of the position |
| CatalogueEditor.ManualUrl | pages/editar_catalogos.py:250-265 | a URL exists exactly when the upload succeeded; it is pinned to the commit when the PUT answered with one, else on the branch; it always ends in `/pdfs/{file}` |
| CatalogueEditor.PieceEdit | pages/editar_catalogos.py:197-265 | the edit carries the typed name and description, an image path exactly when an image was uploaded (named after the code or the piece's position), and a manual exactly when the PDF upload succeeded |
| CatalogueEditor.FilterOut | pages/editar_catalogos.py:315 | a product remains exactly when it was in the list and its code is not removed |
| CatalogueEditor.FilterOutAppend | pages/editar_catalogos.py:315 | filtering works element by element, so the remaining products keep their order |
| CatalogueEditor.FilterOutNothing | pages/editar_catalogos.py:315 | a list without the removed codes is unchanged |
| CatalogueEditor.FilterOutTwice | pages/editar_catalogos.py:306-315 | filtering one removed code after another equals filtering both |
| CatalogueEditor.KeepFromUnmarked | pages/editar_catalogos.py:306-309 | unmarked pieces are kept whole and in order |
| CatalogueEditor.WithoutNothing | pages/editar_catalogos.py:305 | with no marked index no piece is removed |
| CatalogueEditor.WithoutOne | pages/editar_catalogos.py:309 | removing one marked index is a single `pop` |
| CatalogueEditor.PoppingStart | pages/editar_catalogos.py:305-306 | before the first pop, every marked index is still to be popped and the list is the original |
| CatalogueEditor.PopAt | pages/editar_catalogos.py:307-309 | popping a marked index above which nothing is marked removes exactly the original piece at that index |
| CatalogueEditor.PopLargest | pages/editar_catalogos.py:306-309 | popping the largest remaining index removes the originally marked piece and keeps the removal's invariant |
| CatalogueEditor.PoppingDone | pages/editar_catalogos.py:306-309 | once every marked index is popped, the list is the original without the marked pieces |
| CatalogueEditor.FilterOneMore | pages/editar_catalogos.py:306-315 | each pop extends the product filter by the popped piece's code |
| CatalogueEditor.NewPiece | pages/editar_catalogos.py:340-403 | refused exactly when code, name or image is missing; otherwise it has the typed fields, the local image path, and a manual exactly when the PDF upload succeeded |
| CatalogueEditor.Editor.constructor | pages/editar_catalogos.py:148-154 | the editor holds the opened draft and the product list |
| CatalogueEditor.Editor.ConfirmEdit | pages/editar_catalogos.py:197-285 | piece `i` takes the edit; the product list becomes `UpdateFirst` with the piece's code (the search loop is `FirstWithCode`); the customer data is kept |
| CatalogueEditor.Editor.RemoveMarked | pages/editar_catalogos.py:305-316 | popping in descending order leaves exactly the unmarked pieces in order, and drops every product carrying a removed piece's code |
| CatalogueEditor.Editor.AddPiece | pages/editar_catalogos.py:340-413 | an accepted piece is appended to both the catalogue and the product list; a refusal changes nothing |
| CatalogueEditor.Editor.Save | pages/editar_catalogos.py:444-446 | the customer name becomes the edited one, and the written document holds it with the current pieces |
| CatalogueListing.JsonFiles | catalogos.py:14 | exactly the entries whose names end in `.json` are considered |
| CatalogueListing.Summarise | catalogos.py:30-39 | missing keys default to "Sem nome", "—" and 0 pieces; otherwise the summary has the file's values and the length of `pecas` |
| CatalogueListing.Summaries | catalogos.py:23-39 | there are no more rows than files |
| CatalogueListing.Failures | catalogos.py:41-42 | no more error lines than files; which names are reported is fixed by the lemma below |
| CatalogueListing.FailuresAreUnreadableNames | catalogos.py:26-42 | a name is reported as an error exactly when it is the name of an unreadable file |
| CatalogueListing.EveryFileAccountedFor | catalogos.py:23-42 | each file yields either a row or an error line |
| CatalogueListing.RowPerParsedFile | catalogos.py:23-42 | the number of rows equals the number of readable files |
| CatalogueListing.SummariesAppend | catalogos.py:23-39 | rows follow the order of the file list |
| CatalogueListing.RowsComeFromFiles | catalogos.py:26-39 | every row is the summary of a readable file |
| CatalogueListing.ListCatalogues | catalogos.py:14-42 | no `.json` file gives the warning (both directions); otherwise the loop yields `Summaries` and `Failures` of the `.json` files |
| CatalogueListing.LinkTarget | catalogos.py:52-53 | the link target is `/?cliente=` followed by the customer's slug, and holds no space |
| CatalogueListing.LinkRows | catalogos.py:50-58 | one linked row per summary, in order, pointing at the customer's slug |
| Scenarios.NormalisedRecords | app.py:89-93 | a saved catalogue of coded records normalises to their codes, in order |
| Scenarios.AdminSaveReachesCustomer | pages/admin.py:299-317 | the admin's file is the one that login and the listing link open; the customer page shows the saved name and every saved piece, in order, as the database has it |
| Scenarios.IndexSnoc | utils/importDatabase.py:10 | appending a product updates the dictionary at its code |
| Scenarios.FilterOutCoded | pages/editar_catalogos.py:315 | filtering keeps every product coded |
| Scenarios.IndexAfterFilterOut | pages/editar_catalogos.py:315 | after removal the database dictionary loses the removed code and keeps every other entry |
| Scenarios.RemovedCodeIsSkipped | pages/editar_catalogos.py:315 | after removal the customer page skips the removed code wherever the catalogue lists it |
| Scenarios.DuplicateCodeViewsDiffer | pages/admin.py:41-45 | with two products sharing a code, the admin search finds the first and the customer database keeps the second |

## Left out

- Streamlit rendering is not modelled: layout, CSS and HTML, images, page
  switching, and the `st.rerun`/`st.stop` control flow. Each user action is one
  method call.
  - The rerun inside "Remover peça" (`pages/editar_catalogos.py:195`) empties
    the marked list before the removal block can run.
  - The model treats the removal block as written. It takes the marked indices
    as a set of positions, because one run marks at most one index.
- File and JSON I/O are replaced by values: the catalogue directory map, the
  product list, and `Loaded`/`Missing`/`Malformed` database files.
  - Any exception while opening or parsing a catalogue is `Unreadable`.
  - `utils/clients.py` is replaced by the `loaded` parameter, except for its
    file name (`ClientPage.CustomerFile`).
  - The editor's file picker (`pages/editar_catalogos.py:140-148`) is left out.
    The chosen catalogue is an input.
- The following are not modelled:
  - the network, tokens and secrets (the repository settings are a `Repo`
    value), base64 encoding, timeouts and the one-second sleeps;
  - the bytes written and the PIL conversion to RGB;
  - `urllib.parse.quote`, so links are compared before percent-encoding.
- `utils/images.py`, `components/header.py` and `components/wpp_button.py` are
  not part of this model. They are presentation code: base64 logo, header and
  WhatsApp link.
- The admin password and the session reset after saving
  (`pages/admin.py:327`) are left out.
- Text.Lower: lower-cases ASCII and Latin-1 upper-case letters only. Other
  scripts have case rules too large to state here.
- Codes and names are strings. JSON numbers used as codes are not modelled.
- Records.Product: `nome` and `descricao` are always present in the model. The
  source reads them with `.get` and a default in some places
  (`components/peca.py:18-20`, `pages/editar_catalogos.py:164-168`). It reads
  `p['nome']` without a default in `app.py:134`, which raises `KeyError` for a
  database entry without `nome`. A product lacking these keys is not modelled.
- ClientPage.OpenCustomer: `utils/clients.py:9-10` catches only
  `FileNotFoundError`. A customer file that exists but is not valid JSON
  crashes the customer page. The `loaded` parameter models a found file and a
  missing one, not that crash.
- CatalogueEditor.OpenCatalogue: requires every catalogue entry to be a product
  record, because the page reads each entry with `.get` and fails on a bare code.
- ClientPage.RenderCustomerPage: the ticked state and quantity of each piece
  are inputs, one per resolved piece, rather than widget state kept across
  reruns.
