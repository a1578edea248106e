# parteye intake bridge, modelled in Dafny

`parteye.py` reads barcode-scanner lines from standard input. For each line
printed on a TME label (`QTY:<n> PN:<code> MFR:… MPN:… PO:<ref> <url with
tme.eu>`), it does the following:

- it looks the part number up in three signed TME API calls: description,
  parameters and documents;
- it then either adds stock to the matching PartKeepr part or creates the
  part from a `request.json` template.

An empty line ends the run with status 0. Any other line ends it with
status 1.

This project models that core:

- `text.dfy` (`Text`): Python's `str.strip`, `str.split` with a
  one-character separator, and UTF-8 encoding.
- `scanline.dfy` (`ScanLine`): `read_in`, the label pattern
  `^QTY:\d+ PN:.*tme\.eu.*` under `re.match`, the three-way branch of the
  loop, and the extraction of PN, Quantity and PO by
  `field.split(":")[1]`.
- `params.dfy` (`Params`): the parameter dict as its items in insertion
  order. It covers assignment (`ParamMap`, a class whose `Set` updates the
  items in place), lookup, and `sorted(params.items())` in code-point
  order.
- `percent.dfy` (`Percent`): `urllib.parse.quote` and `quote_plus` with
  `safe=''`, `urlencode`, and a reference decoder used as their inverse.
- `signer.dfy` (`Signer`): `tme_api_call`. It forces `Token`, sorts,
  builds the base string `POST&quote(url)&quote(urlencode(params))`, signs
  it, and stores `ApiSignature` in the sorted copy only.
- `catalog.dfy` (`Catalog`): `parse_tme`, with the three requests, product
  0 of each reply, the last case parameter, the `pdf` links and their
  de-duplication.
- `inventory.dfy` (`Inventory`): `insert_part`, `generate_footprint` and
  `upload_attachments`. Every PartKeepr call made is recorded, in order.
- `intake.dfy` (`Intake`): the `while True` loop over the lines of
  standard input. It gives the exit status, the number of lines read, and
  every outside call made.

The outside world is passed in as values, and the model records what is
sent to it:

- The TME and PartKeepr servers are functions from a request to the part
  of the reply the code reads.
- `config.ini` is a `TmeConfig`.
- The `request.json` template is a `PartDocument`.
- The clock reading, already formatted, is `InventoryService.now`.
- HMAC-SHA1 (RFC 2104) and Base64 (section 4 of RFC 4648) are functions in
  `Crypto`.

Python raises an exception and ends the process with status 1 in these
cases:

- a missing label field or a field without a colon (`IndexError`);
- a reply whose `ProductList` is empty;
- a template without a stock level.

The model returns a `Failure` value for each of them, and the intake loop
turns it into exit status 1.

Behaviour of the code the model keeps:

- Form values are encoded with `quote_plus`, so a space becomes `+`, which
  the outer `quote` writes as `%2B` in the base string.
- A field's value is the text between its first and its second colon (or
  the end of the field).
- An accepted label with fewer than five fields raises `IndexError`, which
  ends the run with status 1.
- `ApiSignature` goes into the sorted copy that is posted; the caller's
  dict keeps only the `Token` assignment.
- `Case` is the value of the *last* case parameter (ids `35` or `2932`).
- Every `pdf` url gets `https:` in front, whatever its scheme. The
  extension test is `url[-3:] == "pdf"`: case-sensitive, with no dot.
- `upload_attachments([])` gives `None`.
- Quantity is any non-empty ASCII digit run, `0` included.

## Model

| member | source | states |
|---|---|---|
| Text.Strip | parteye.py:93 | the stripped line neither starts nor ends with white space, and is empty exactly when the raw line is all white space |
| Text.StripPadded | parteye.py:93 | any white-space padding around a text with non-space ends is removed, and that text comes back |
| Text.StripIdempotent | parteye.py:93 | stripping a stripped line changes nothing |
| Text.Split | parteye.py:240 | `split(" ")` gives at least one piece, no piece holds the separator, and joining the pieces gives back the line (so empty pieces are kept) |
| Text.SplitJoin | parteye.py:240 | splitting what was joined from separator-free pieces gives back those pieces |
| Text.Utf8OfAscii | parteye.py:48-49 | `bytes(s, 'UTF-8')` of ASCII text is one byte per character, its code |
| Text.Utf8CharRoundTrip | parteye.py:48-49 | every character's UTF-8 bytes decode, through a reference decoder of lead and continuation bytes, back to its code point |
| Text.RStripBytes | parteye.py:49 | `bytes.rstrip()` keeps a prefix of the bytes that does not end in ASCII white space, and everything it drops is ASCII white space |
| ScanLine.MatchesTmeCorrect | parteye.py:238-239 | the matcher accepts a line exactly when it opens with `QTY:`, one or more digits and ` PN:`, and has `tme.eu` later with no line feed before it |
| ScanLine.Classify | parteye.py:238-246 | a line is processed exactly when it has the label shape, ends the run cleanly exactly when it is empty, and is unrecognized exactly when it is neither |
| ScanLine.FieldValue | parteye.py:112-116 | `split(":")[1]` fails exactly when the field has no colon, and its value holds no colon |
| ScanLine.FieldValueBetweenColons | parteye.py:112-116 | a field's value is the text between its first and its second colon (or the end) |
| ScanLine.ExtractFields | parteye.py:111-117 | extraction succeeds exactly when there are five fields and fields 0, 1 and 4 have a colon; PN, Quantity and PO are the values of fields 1, 0 and 4; a failure names the first field Python would fail on, in evaluation order |
| ScanLine.MatchedLineFields | parteye.py:111-117 | on an accepted line, extraction fails exactly when field 4 is missing or has no colon; Quantity is the digit run and PN the word after `PN:` up to a space or colon |
| ScanLine.LabelRoundTrip | parteye.py:96-117 | a line formatted from a well-formed label is accepted and yields that label's PN, Quantity and PO |
| ScanLine.DocumentedSample | parteye.py:99-117 | the documented sample label is accepted and yields PN `HA50151V4`, Quantity `1` and PO `5094268/9` |
| Params.PutLookup | parteye.py:38 | after `params[k] = v`, `k` looks up `v` and every other key looks up what it did |
| Params.PutDistinct | parteye.py:38 | assignment keeps the keys distinct |
| Params.PutTwice | parteye.py:38 | assigning the same `Token` again changes nothing |
| Params.ParamMap.Set | parteye.py:38 | the dict's items become those of the assignment, and stay a dict |
| Params.SortSorts | parteye.py:41 | `sorted(params.items())` is strictly ordered by key and a permutation of the items |
| Params.SortLookup | parteye.py:41 | the sorted copy maps every key as the dict does |
| Params.SortIgnoresInsertionOrder | parteye.py:41 | two dicts with the same mapping give the same sorted items, whatever their insertion order |
| Percent.QuoteRoundTrip | parteye.py:43-44 | `quote(s, '')` is percent-encoded and decodes back to the UTF-8 bytes of `s` |
| Percent.QuotePlusRoundTrip | parteye.py:42 | `quote_plus(s, '')` decodes, reading `+` as a space, back to the UTF-8 bytes of `s` |
| Percent.QuoteEscapesDelimiters | parteye.py:43-44 | `quote(s, '')` writes no `&`, `=` or `+`, only unreserved characters and `%` |
| Percent.QuotePlusEscapesDelimiters | parteye.py:42 | `quote_plus(s, '')` writes no `&` or `=` |
| Percent.QuoteUnreservedIdentity | parteye.py:43-44 | text made only of unreserved characters is quoted to itself |
| Percent.UrlEncodeSplits | parteye.py:42 | the form body splits at `&` into one `key=value` piece per item, in order |
| Percent.UrlEncodeRoundTrip | parteye.py:42 | the form body reads back as the UTF-8 bytes of every key and value, in order |
| Signer.Signature | parteye.py:46-49 | the signature is the Base64 of HMAC-SHA1 keyed with the UTF-8 secret over the UTF-8 base string, with its trailing ASCII white space dropped: a prefix of the Base64 output, not ending in white space, with only white space after it |
| Signer.SignedItemsFacts | parteye.py:38-41 | the signed items are sorted, map `Token` to the configured token, and map every other key as the caller's dict does |
| Signer.BaseShape | parteye.py:42-44 | the base string starts with `POST&` and splits at `&` into exactly `POST`, the quoted url and the quoted form body |
| Signer.BaseEncoded | parteye.py:42-44 | both quoted parts decode back to the url and the form body, and every character of the base string is unreserved, `%` or `&` |
| Signer.BaseIsAscii | parteye.py:43-49 | the base string is ASCII, so the signed message has one byte per character |
| Signer.BaseIgnoresOrderAndToken | parteye.py:38-42 | dicts that agree on every key other than `Token` give the same signed items and the same base string, whatever their order and their own `Token` |
| Signer.SignatureAddedAfterSigning | parteye.py:46-50 | the posted form maps `ApiSignature` to the signature over the signed items, every other key as in the signed items, and without a caller `ApiSignature` it is the signed items followed by `ApiSignature` |
| Signer.SignedRequestForm | parteye.py:37-53 | a request goes to `https://api.tme.eu/<action>.json` with `Token` set to the configured token, an `ApiSignature`, and every other key as in the caller's dict |
| Signer.TmeApiCall | parteye.py:29-59 | the caller's dict gets `Token` and nothing else, the posted request is the signed request for the caller's old dict, and the reply is the server's answer to it |
| Catalog.LastCaseIsLastMatch | parteye.py:131-133 | with a case parameter at `i` and none after it, the case is the value at `i` |
| Catalog.LastCaseCases | parteye.py:131-133 | without a case parameter the case is `''`; otherwise it is the value of a case parameter with none after it |
| Catalog.FootprintCase | parteye.py:131-133 | the loop leaves the case of the last case parameter |
| Catalog.PdfLinksMembers | parteye.py:138-140 | a link is collected exactly when it is `https:` in front of a document url ending in `pdf` |
| Catalog.CollectPdfLinks | parteye.py:138-140 | the loop collects exactly those links, in document order |
| Catalog.Dedup | parteye.py:142 | `list(set(files))` has no duplicates and the same elements as `files` |
| Catalog.QueryItemsLookup | parteye.py:119 | the query dict maps `SymbolList[0]` to the PN, `Country` to `ES`, `Language` to `EN`, and has no `Token` |
| Catalog.RequestsSignSameItems | parteye.py:119-136 | the `Token` the first call leaves in the dict changes nothing: all three requests sign the query dict |
| Catalog.EnrichContents | parteye.py:124-144 | a part is found exactly when every reply lists a product; it carries the scanned fields, product 0's description, the last case value, and each `pdf` link once |
| Catalog.EnrichFailsForNoProduct | parteye.py:125-137 | once the fields are known, a lookup fails only for want of a product: an empty `ProductList` from `GetProducts` fails with that action after one request, from `GetParameters` after two, from `GetProductsFiles` after all three |
| Catalog.LookupPartFields | parteye.py:111-125 | a line fails before any request exactly when PN, Quantity or PO cannot be extracted, and with that extraction error |
| Catalog.EnrichPart | parteye.py:119-144 | filling the part step by step gives the result and the requests of the specification `Enrich` |
| Catalog.ParseTme | parteye.py:96-144 | `parse_tme` gives the result and the requests of the specification `LookupPart` |
| Inventory.NameFilterInjective | parteye.py:194-197 | different part names give different name filters |
| Inventory.GenerateFootprint | parteye.py:147-166 | no query for an empty case; otherwise one footprint query by name, giving the first member exactly when there is one |
| Inventory.UploadTokens | parteye.py:175-182 | one upload token per file, each the server's answer for that file, in order |
| Inventory.UploadCalls | parteye.py:177-179 | one upload call per file, in order, none of which changes the inventory |
| Inventory.UploadAttachments | parteye.py:169-184 | the loop gives `None` for no files and otherwise the upload tokens, and makes one upload call per file |
| Inventory.InsertPart | parteye.py:187-232 | filling the template field by field gives the outcome and the calls of the specification `Reconcile` |
| Inventory.ExactlyOneWrite | parteye.py:198-228 | every insertion starts with the name query; a successful one changes the inventory exactly once, with its last call; a failed one changes nothing |
| Inventory.StockAddedWhenFound | parteye.py:198-212 | stock is added exactly when the name query has a member; then the only other call adds the scanned quantity to the first member, with the order number as comment |
| Inventory.CreatedDocument | parteye.py:214-228 | with no member found, creation fails exactly when the template has no stock level; otherwise the calls are the name query, the footprint query, one upload per file and the post, and the posted document is the template with name, description, first stock level, date, footprint (the first footprint found by name, `None` for no case) and attachments (`None` for no files, otherwise the upload tokens) filled in, everything else unchanged |
| Intake.LineStep | parteye.py:238-248 | one pass stops with 0 exactly on the empty line, with 1 on an unrecognized line or a failed lookup or insertion, and reads on only after a processed label |
| Intake.LabelStep | parteye.py:237-248 | on a label, a failed lookup stops with 1 after its TME requests; a found part records the TME requests then the PartKeepr calls, and the pass reads on exactly when the insertion succeeds, stopping with 1 otherwise |
| Intake.LabelThenEmptyLine | parteye.py:235-248 | a label that is found and inserted followed by an empty line reads two lines, records that label's TME requests and PartKeepr calls, and exits with 0 |
| Intake.HandleLine | parteye.py:236-248 | the loop body for one line gives the pass of `LineStep` |
| Intake.Pass | parteye.py:236-248 | one pass of the loop body either stops the run there, with its status and the calls made so far and in this pass, or puts its calls in front of the run from the next read |
| Intake.Run | parteye.py:235-248 | the loop over standard input gives the run of the specification `Session` |
| Intake.SessionStops | parteye.py:235-248 | every run stops with 0 or 1 at a line it read; it stops with 0 exactly when that line is empty or input has ended, and with 1 on an unrecognized line |
| Intake.SessionReadsLabels | parteye.py:235-248 | every line read before the one that stopped the run was a label that was processed |
| Intake.StopLines | parteye.py:241-246 | an empty line ends the run with 0 and no further call; an unrecognized one with 1 and no call |
| Intake.StepWrites | parteye.py:239-248 | a pass that reads on changed the inventory exactly once; a pass that stops changed nothing |
| Intake.SessionWrites | parteye.py:235-248 | the number of inventory writes in a run is the number of lines read before the one that stopped it |

## Left out

- HTTP transport and status handling (`requests.post`, `pk_api_call`, `raise_for_status`, the `sys.exit(1)` inside both helpers) are not modelled: the servers are total functions of the request, so a run never stops on an HTTP error.
- Intake.Session: the TME and PartKeepr replies are fixed functions of the request for the whole run (`TmeLookup`, `InventoryInsert` over one `InventoryService`), so a part created for one label is not seen by a later label's name query; a PN scanned twice in a run is created again in the model, where the real PartKeepr would list it and the code would add stock to it (parteye.py:198-212). The lemmas about a whole run hold for any fixed replies.
- Loading `config.ini` and `request.json` is not modelled: both are values passed in (`TmeConfig`, `InventoryService.template`).
- The beep (`run(["/usr/bin/play", ...])`, parteye.py:121) is left out on the assumption that `/usr/bin/play` exists: a missing player raises `FileNotFoundError` and ends the run with status 1 before any TME request, which the model does not capture (a non-zero exit status of the player is ignored, as `run` does without `check=True`).
- Every `print` is left out: printing does not change the outcome.
- HMAC-SHA1 and `base64.encodestring` are uninterpreted functions of `Crypto`. Only their inputs are modelled: the UTF-8 secret and the UTF-8 base string.
- Signer.Signature: the `bytes` `rstrip()` gives is stored as the text of its byte values (Latin-1), standing for the ASCII Base64 text the form carries.
- `datetime.now()` and `strftime` are left out: the formatted date is the value `InventoryService.now`.
- JSON decoding is left out. Each reply is modelled by the fields the code reads: `ProductList`, `Description`, `ParameterList`, `DocumentUrl`, `hydra:member`, `@id` and `response`. A reply missing one of those keys (`KeyError`) is not modelled.
- ScanLine.MatchesTme: `\d` matches only the ASCII digits `0`-`9`, while Python 3 matches every Unicode decimal digit.
- Catalog.Dedup: `list(set(...))` has no defined order in Python; the model keeps first-occurrence order and its contract promises only what Python does (no duplicates, same elements).
- Percent.Unreserved: `~` is treated as unreserved, as `quote` does from Python 3.7 on.
- Inventory.NameFilter: the PN is formatted into the JSON filter without escaping, as the code does; a PN containing `"` or `\` gives a malformed filter, which the server function receives as it is.
- Inventory.InsertPart: a template whose `stockLevels` is missing (not just empty), or whose first level is not an object, is not modelled; only the empty list (`IndexError`) is.
- The Python `part` dict is a record (`Catalog.Part`); the `Files` list is built by `CollectPdfLinks` and replaced by its de-duplicated copy, as the code does, rather than appended to in place.
