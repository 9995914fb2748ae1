# Card Vault: card recognition pipeline and stores

Card Vault reads trading cards from photos. The backend runs text
detection on each uploaded image and picks the card's title line. It
normalises the title and looks it up in a public card catalog. It then
ranks the returned records by a word-matching score and keeps the best
record when that record scores well enough. The verified cards of an upload
are stored as a *batch*, keyed by a client-chosen batch group id. A
signed-in user can turn a batch into a named *collection*, then list,
download, rename or delete it. The frontend keeps collections, uploads and
the signed-in session in three Redux slices.

This project models that core in Dafny and proves what it promises.

- `text.dfy` (`Text`): the JavaScript string operations the pipeline uses.
  It covers `\s`, `trim`, one-character `split` and `join`, `includes`,
  `replace` with a string pattern, UTF-16 `length`, ASCII case mapping and
  `toString` of a number.
- `seqs.dfy` (`Seqs`): `filter`, `map` and `findIndex`.
- `stable_sort.dfy` (`StableSort`): the stable sort of `Array.prototype.sort`
  as a function. An in-place array insertion sort is proved to produce
  exactly that function's output.
- `card_name.dfy` (`CardName`): splitting detected text into lines,
  `findCardName` and `cleanCardName`.
- `card_match.dfy` (`CardMatch`): the catalog search term, the score of each
  record and the selection made by `verifyCardName`.
  - Scores are integers in half-points, because every score in the source is
    a multiple of 0.5.
  - `VerifyCardName` scores records into an array, sorts the array in place
    and takes its head. It is proved equal to `Verify`, which picks the first
    record in catalog order with the maximal score.
- `ocr_pipeline.dfy` (`OcrPipeline`): `processImage` of the OCR utilities.
- `upload_controller.dfy` (`UploadController`): the controller's copy of
  `processImage` and `uploadImages`.
- `batch_store.dfy` (`BatchStore`): the batch routes, as a class over the
  stored batches.
- `collection_store.dfy` (`CollectionStore`): both collection routers, as one
  class over the stored collections.
- `collection_slice.dfy`, `upload_slice.dfy`, `auth_slice.dfy`: the three
  slices. Each is a class whose fields are the slice state, with one method
  per reducer case. The request thunks are functions from the HTTP outcome to
  the settled action.

The controller's `cleanCardName`, `findCardName` and `verifyCardName` are the
same code as the OCR utilities' copies, so each is modelled once. The table
cites the OCR utilities' copy; the controller's copies are
`uploadController.js` lines 10-18, 166-182 and 20-80.

The regular expression `/\s+(?<!A|RA|OR|FOR)(?:GE|CE)$/` could be read in two
ways that the code does not bear out:
- as protecting a trailing GE/CE that follows a word ending in A, RA, OR or
  FOR;
- as stripping a suffix glued to a word, so that `CARD XYZGE` becomes
  `CARD XYZ`.

The lookbehind stands after `\s+`, where the preceding character is always
whitespace, so it never rejects a match. The model follows the code:
- a whitespace-separated trailing `GE` or `CE` is always removed;
- a word that merely ends in GE or CE is never shortened.

Both facts are proved (`StandaloneSuffixRemoved`, `GluedSuffixKept`).
`cleanCardName` is also not idempotent: a second pass can remove another
token (`NotIdempotent`).

## Model

| member | source | states |
|---|---|---|
| CardName.Lines | backend/src/utils/ocrUtils.js:112-115 | every line is non-empty, has no whitespace at either end, holds no newline, and is the trimmed form of some newline-separated piece of the text; every piece that is not blank after trimming gives a line |
| CardName.OneLine | backend/src/utils/ocrUtils.js:112-115 | a text without a newline gives its trimmed self as the only line, or no line when it is blank |
| CardName.LinesAppend | backend/src/utils/ocrUtils.js:112-115 | the lines of two texts joined by a newline are the lines of the first followed by those of the second, so the text's order is kept |
| CardName.FindCardName | backend/src/utils/ocrUtils.js:65-81 | the result is the first title line (length over 3, no `[`, `ATK/` or `DEF/`, equal to its upper-casing) and an element of the lines; null exactly when no line qualifies |
| CardName.CollapseSpaces | backend/src/utils/ocrUtils.js:14 | the output has no two adjacent whitespace characters, is no longer than the input, and keeps a non-space first and last character |
| CardName.CollapseRun | backend/src/utils/ocrUtils.js:14 | a whitespace run of two or more characters becomes one space; a single whitespace character is kept as it is |
| CardName.CollapseSplit | backend/src/utils/ocrUtils.js:14 | every non-whitespace character is kept, in place, and the text on either side of it is collapsed separately |
| CardName.CollapseBetween | backend/src/utils/ocrUtils.js:14 | a run of two or more whitespace characters between two words gives the same result as a single space |
| CardName.CollapseIdentity | backend/src/utils/ocrUtils.js:14 | a string with no two adjacent whitespace characters is returned unchanged |
| CardName.CleanCardName | backend/src/utils/ocrUtils.js:10-17 | `""` for null or empty input; the output has no edge whitespace and no double whitespace, and is a prefix of the trimmed, collapsed input |
| CardName.CleanIgnoresEdges | backend/src/utils/ocrUtils.js:10-13 | whitespace before and after a name does not change what it normalises to |
| CardName.CleanCollapsesRun | backend/src/utils/ocrUtils.js:10-14 | a name with a run of two or more whitespace characters between two words normalises like the same name with one space there |
| CardName.PlainNameKept | backend/src/utils/ocrUtils.js:10-17 | a trimmed, collapsed name that ends neither in whitespace and GE/CE nor in whitespace and one CJK character is returned unchanged |
| CardName.StripSuffixToken | backend/src/utils/ocrUtils.js:15 | the result is a prefix of the input; the input is kept exactly when it does not end in whitespace followed by GE or CE; when it does, the token and the whole whitespace run before it are removed, and nothing more |
| CardName.StripTrailingCjk | backend/src/utils/ocrUtils.js:16 | the result is a prefix of the input; the input is kept exactly when it does not end in whitespace followed by one Han, Hiragana or Katakana character; when it does, that character and the whole whitespace run before it are removed, and nothing more |
| Text.Trim | backend/src/utils/ocrUtils.js:13 | the result has no whitespace at either end, and the input is a whitespace prefix, then the result, then a whitespace suffix |
| Text.TrimAround | backend/src/utils/ocrUtils.js:13 | trimming a name with whitespace around it gives exactly the name |
| CardName.CanonicalUnchanged | backend/src/utils/ocrUtils.js:13-14 | trim and collapse leave an already canonical name unchanged |
| CardName.CleanCanonical | backend/src/utils/ocrUtils.js:13-16 | on a canonical non-empty name only the two suffix rules act |
| CardName.StandaloneSuffixRemoved | backend/src/utils/ocrUtils.js:15 | a whitespace-separated trailing GE/CE is always removed with its whitespace, whatever word precedes it (the lookbehind never fires) |
| CardName.GluedSuffixKept | backend/src/utils/ocrUtils.js:15 | a word that merely ends in GE or CE is left unchanged |
| CardName.TrailingCjkRemoved | backend/src/utils/ocrUtils.js:16 | a trailing whitespace plus one Han/Hiragana/Katakana character is removed |
| CardName.CjkAfterSuffix | backend/src/utils/ocrUtils.js:15-16 | the CJK rule runs after the GE/CE rule, so in `P GE 漢` the GE stays |
| CardName.OnePassRemovesOneToken | backend/src/utils/ocrUtils.js:15 | of two trailing standalone tokens one pass removes only the last |
| CardName.NotIdempotent | backend/src/utils/ocrUtils.js:10-17 | applying the normaliser to its own output can change it again |
| CardMatch.SearchTerm | backend/src/utils/ocrUtils.js:22 | the search term is a prefix of the name without spaces, followed in the name by a space or the end |
| CardMatch.MatchCount | backend/src/utils/ocrUtils.js:34 | the word-match count is at most the number of OCR words and equals it when every OCR word occurs among the record's words |
| CardMatch.CardScore | backend/src/utils/ocrUtils.js:30-41 | the score is at most 2 per OCR word plus 30 half-points, at most 2 per word plus 10 without an exact match, and non-negative without extra words |
| CardMatch.ScoreCard | backend/src/controllers/uploadController.js:33-55 | the running total built by the source (matches, +10, +5, −0.5 per extra word) equals `CardScore` |
| CardMatch.PhraseIsLoweredText | backend/src/controllers/uploadController.js:47 | the joined OCR words are the lowered OCR text itself |
| CardMatch.ExactEarnsBothBonuses | backend/src/utils/ocrUtils.js:35-36 | an exact match also earns the phrase bonus: +15 points in all |
| CardMatch.ExactScore | backend/src/utils/ocrUtils.js:28-38 | without a hyphen in the OCR text an exact match scores 2 half-points per word plus 30 |
| CardMatch.BestIndex | backend/src/utils/ocrUtils.js:43-46 | the selected index has the maximal score and every earlier record scores strictly less |
| CardMatch.Verify | backend/src/utils/ocrUtils.js:19-63 | a verified card is the projection of the first maximal record scoring at least 2 points; null exactly when the request failed or no record reaches 2 points |
| CardMatch.ScoreResults | backend/src/controllers/uploadController.js:33-55 | the filled array holds every record with its score, in catalog order |
| CardMatch.VerifyCardName | backend/src/controllers/uploadController.js:20-80 | sorting the scored array in place by descending score and taking its head gives exactly `Verify` |
| CardMatch.ExactMatchWins | backend/src/utils/ocrUtils.js:35-46 | the first exact-name record is the one verified, when the OCR text has no hyphen or the name and the text have fewer than 20 words together |
| CardMatch.ExactBeatsInexact | backend/src/utils/ocrUtils.js:34-38 | under those bounds an exact record scores above every possible score of a record that is not exact, and reaches the threshold |
| CardMatch.SameNameSameScore | backend/src/utils/ocrUtils.js:32-38 | two records whose lowered names are equal score the same |
| StableSort.SortInPlace | backend/src/utils/ocrUtils.js:43 | the array after the in-place sort equals the stable sort of its old contents |
| StableSort.SortPermutes | backend/src/utils/ocrUtils.js:43 | the sort is a permutation |
| StableSort.SortSorted | backend/src/utils/ocrUtils.js:43 | the sort's output is ordered by the key |
| StableSort.SortHead | backend/src/controllers/uploadController.js:58 | the head of the sorted sequence is the first input element with the least key |
| OcrPipeline.OcrName | backend/src/utils/ocrUtils.js:112-118 | the cleaned title has no edge whitespace and no double whitespace |
| OcrPipeline.ProcessImage | backend/src/utils/ocrUtils.js:83-136 | `success` exactly when a card was verified; "No text detected" without annotations; an error outcome exactly when detection gave no text, carrying the failure's message; the file name is "unknown" exactly for a failed detection of an unnamed file and the original name otherwise; with text, the OCR result is the cleaned title and the verified card is `Verify` of the catalog's answer for that title's search term |
| OcrPipeline.NoTitleLine | backend/src/utils/ocrUtils.js:117-119 | when no line qualifies as a title, the cleaned name is empty |
| OcrPipeline.ProcessAll | backend/src/routes/batchRoutes.js:37 | the outcomes are those of each image, in order |
| OcrPipeline.FailureIsolated | backend/src/utils/ocrUtils.js:127-135 | a detection failure on one image yields that image's error outcome and leaves the other outcomes unchanged |
| UploadController.ProcessImage | backend/src/controllers/uploadController.js:82-135 | the outcome keeps the original file name; `success` exactly when a card was verified; an error outcome exactly when detection gave no text |
| UploadController.SameAsUtility | backend/src/controllers/uploadController.js:128-134 | the two copies of `processImage` agree except on the file name of a failed detection of an unnamed file |
| UploadController.ProcessedCards | backend/src/controllers/uploadController.js:147-152 | at most one entry per result |
| UploadController.ProcessedCardsSpec | backend/src/controllers/uploadController.js:147-152 | every entry is the name and type of some verified result, and every verified result contributes its entry |
| UploadController.ProcessedCardsAppend | backend/src/controllers/uploadController.js:147-152 | the cards of concatenated results are the cards of each part, in order |
| UploadController.UploadImages | backend/src/controllers/uploadController.js:137-157 | 400 "No image files uploaded" exactly for a missing or empty file list; otherwise at most one card per file |
| UploadController.Results | backend/src/controllers/uploadController.js:144 | one outcome per uploaded file, in upload order, each that file's `processImage` outcome |
| UploadController.UploadAppend | backend/src/controllers/uploadController.js:144-152 | each image contributes its card independently of the others, in upload order |
| BatchStore.RequestUser | backend/src/routes/batchRoutes.js:25-34 | no user without an Authorization header, with an empty header or with the bare header "Bearer "; a header starting with "Bearer " is decoded without that prefix; a header without "Bearer " is decoded as it is |
| Text.ReplaceFirstAt | backend/src/routes/batchRoutes.js:26 | `replace` with a string pattern replaces the first occurrence and leaves the rest of the string as it is |
| BatchStore.FirstBearerRemoved | backend/src/routes/batchRoutes.js:26-30 | only the first "Bearer " of the header is removed, wherever it stands, and the rest is the token that is decoded |
| BatchStore.AddCards | backend/src/routes/batchRoutes.js:48-64 | find-or-create either keeps the number of batches or adds exactly the new batch at the end |
| BatchStore.AddToExisting | backend/src/routes/batchRoutes.js:48-54 | an existing group's batch gets the new cards after its old ones; group id, owner and creation time and all other batches are unchanged; no batch is added |
| BatchStore.AddToNew | backend/src/routes/batchRoutes.js:55-64 | a group without a batch gets exactly one new batch, with the new cards and the request's user |
| BatchStore.AddCardsUnique | backend/src/routes/batchRoutes.js:48-64 | adding cards keeps group ids unique |
| BatchStore.AddCardsAccumulates | backend/src/routes/batchRoutes.js:50-52 | a group's cards after adding are its old cards followed by the new ones |
| BatchStore.AddCardsOtherGroup | backend/src/routes/batchRoutes.js:48 | adding to one group leaves every other group's cards unchanged |
| BatchStore.DeleteGroupEffect | backend/src/routes/batchRoutes.js:86 | deleting a group removes all its batches and keeps every other batch; a no-op for an absent group |
| BatchStore.DeleteGroupUnique | backend/src/routes/batchRoutes.js:86 | deleting keeps group ids unique |
| BatchStore.Store.Post | backend/src/routes/batchRoutes.js:11-68 | 400 "No images provided" before 400 "No batch group ID provided", both with the store unchanged; a request with files and a group id is always answered 200 or 201; the store becomes `AddCards` of the verified cards, 200 when the group existed and 201 when it did not |
| BatchStore.Store.ListByGroup | backend/src/routes/batchRoutes.js:71-81 | exactly the batches of the group (a permutation of them), ordered by creation time |
| BatchStore.Store.DeleteGroup | backend/src/routes/batchRoutes.js:84-91 | the store keeps exactly the batches of other groups, in order, and stays valid |
| CollectionStore.OrElse | backend/src/routes/collectionRoutes.js:77-78 | an absent or empty new value keeps the old one; a present non-empty new value is taken |
| CollectionStore.CardsFromBatch | backend/src/routes/collectionRoutes.js:13-20 | no cards without a group id or without a batch of the group owned by the caller; otherwise exactly the first such batch's cards, one for one and in order, each with its name, type and quantity 1 |
| CollectionStore.FindOwned | backend/src/routes/collectionRoutes.js:49-52 | the position found holds a collection with that id owned by the caller; "not found" exactly when there is none |
| CollectionStore.FindById | backend/routes/collectionRoutes.js:27 | the position found holds the collection with that id, whoever owns it; "not found" exactly when there is none |
| CollectionStore.RemoveOwnedEffect | backend/src/routes/collectionRoutes.js:90-93 | deleting the caller's collection leaves no collection with that id and keeps every other one; ids stay unique |
| CollectionStore.Store.Create | backend/src/routes/collectionRoutes.js:8-34 | the new collection has a fresh id, the caller as owner, the given title and description (empty when absent) and the batch's cards, and is appended |
| CollectionStore.Store.List | backend/src/routes/collectionRoutes.js:37-44 | exactly the caller's collections, in store order |
| CollectionStore.Store.Download | backend/src/routes/collectionRoutes.js:47-62 | the caller's collection with that id, or 404 exactly when there is none |
| CollectionStore.Store.Update | backend/src/routes/collectionRoutes.js:65-85 | 404 with nothing changed when the caller has no such collection; otherwise only title and description change, each with the `||` fallback |
| CollectionStore.Store.Delete | backend/src/routes/collectionRoutes.js:88-103 | 404 with nothing changed when the caller has no such collection; otherwise exactly that collection is removed |
| CollectionStore.Store.CreateEmpty | backend/routes/collectionRoutes.js:6-21 | the new collection has the given title and description and no cards |
| CollectionStore.Store.AddCards | backend/routes/collectionRoutes.js:24-40 | 404 with nothing changed for an unknown id; otherwise the given cards are appended in order to that collection's cards |
| CollectionSlice.Settle | frontend/src/store/slices/collectionSlice.ts:47-50 | a request fulfils exactly on an ok response; a non-ok response rejects with the request's failure message |
| CollectionSlice.FetchCollections | frontend/src/store/slices/collectionSlice.ts:33-53 | fulfils exactly on an ok response, with the response body; a non-ok response rejects with "Failed to fetch collections" |
| CollectionSlice.DeleteCollection | frontend/src/store/slices/collectionSlice.ts:55-76 | fulfils exactly on an ok response, with the id it was given; a non-ok response rejects with "Failed to delete collection" |
| CollectionSlice.DeleteCard | frontend/src/store/slices/collectionSlice.ts:78-109 | fulfils exactly on an ok response, with the given id and the body's collection; a non-ok response rejects with "Failed to delete card" |
| CollectionSlice.UpdateCollection | frontend/src/store/slices/collectionSlice.ts:111-137 | fulfils exactly on an ok response, with the body's collection; a non-ok response rejects with "Failed to update collection" |
| CollectionSlice.ReplaceByIdEffect | frontend/src/store/slices/collectionSlice.ts:162-177 | replacing by id keeps the length, replaces only the first entry with that id, and is a no-op when no entry has it |
| CollectionSlice.RemoveByIdEffect | frontend/src/store/slices/collectionSlice.ts:157-161 | removing by id drops every entry with that id and keeps every other one |
| CollectionSlice.State.constructor | frontend/src/store/slices/collectionSlice.ts:27-31 | no collections, not loading, no error |
| CollectionSlice.State.FetchPending | frontend/src/store/slices/collectionSlice.ts:145-148 | loading, error cleared, collections unchanged |
| CollectionSlice.State.FetchFulfilled | frontend/src/store/slices/collectionSlice.ts:149-152 | not loading, collections replaced by the payload |
| CollectionSlice.State.FetchRejected | frontend/src/store/slices/collectionSlice.ts:153-156 | not loading, error set to the payload, collections unchanged |
| CollectionSlice.State.DeleteCollectionFulfilled | frontend/src/store/slices/collectionSlice.ts:157-161 | collections filtered to those with a different id |
| CollectionSlice.State.DeleteCardFulfilled | frontend/src/store/slices/collectionSlice.ts:162-169 | the first collection with the id is replaced by the updated one |
| CollectionSlice.State.UpdateFulfilled | frontend/src/store/slices/collectionSlice.ts:170-177 | the first collection with the payload's id is replaced by the payload |
| UploadSlice.FailureMessage | frontend/src/store/slices/uploadSlice.ts:61-62 | the error message when present and non-empty; "Failed to process batch" when it is absent or empty; never empty |
| UploadSlice.RemoveByIdEffect | frontend/src/store/slices/uploadSlice.ts:38-42 | removing by id drops every batch with that id and keeps every other one |
| UploadSlice.RemoveUndoesRecord | frontend/src/store/slices/uploadSlice.ts:38-58 | removing a just-recorded batch under a fresh id gives back the earlier batches |
| UploadSlice.State.constructor | frontend/src/store/slices/uploadSlice.ts:17-22 | no batches, not processing, both errors null |
| UploadSlice.State.ClearBatches | frontend/src/store/slices/uploadSlice.ts:35-37 | batches emptied, other fields unchanged |
| UploadSlice.State.RemoveBatch | frontend/src/store/slices/uploadSlice.ts:38-42 | batches filtered to those with a different id, other fields unchanged |
| UploadSlice.State.ProcessPending | frontend/src/store/slices/uploadSlice.ts:46-49 | processing, current error cleared, batches unchanged |
| UploadSlice.State.ProcessFulfilled | frontend/src/store/slices/uploadSlice.ts:50-58 | not processing; exactly one batch appended, carrying the files, the clock as decimal id and the timestamp |
| UploadSlice.State.ProcessRejected | frontend/src/store/slices/uploadSlice.ts:59-63 | not processing, current error set to the message or its default, batches unchanged |
| AuthSlice.Authenticate | frontend/src/store/slices/authSlice.ts:27-60 | the `login` and `register` thunks, with fallback `LoginFallback` ("Login failed") or `RegisterFallback` ("Registration failed"): fulfils with the API's user and token exactly on success; otherwise rejects with the API message, or with the fallback when the message is absent or empty |
| AuthSlice.State.constructor | frontend/src/store/slices/authSlice.ts:13-25 | authenticated exactly when both the stored token and the stored user are present; login mode; not loading; no error |
| AuthSlice.State.Logout | frontend/src/store/slices/authSlice.ts:66-72 | user and token cleared, not authenticated, mode, loading and error unchanged |
| AuthSlice.State.ToggleAuthMode | frontend/src/store/slices/authSlice.ts:73-76 | mode flipped, error cleared, session unchanged |
| AuthSlice.State.AuthPending | frontend/src/store/slices/authSlice.ts:81-99 | loading, error cleared, session and mode unchanged (the `pending` case of login and of register) |
| AuthSlice.State.AuthFulfilled | frontend/src/store/slices/authSlice.ts:85-105 | not loading, authenticated, user and token from the payload (the `fulfilled` case of login and of register) |
| AuthSlice.State.AuthRejected | frontend/src/store/slices/authSlice.ts:91-109 | not loading, error set, session unchanged (the `rejected` case of login and of register) |
| AuthSlice.State.Settle | frontend/src/store/slices/authSlice.ts:85-94 | a fulfilled request authenticates with its user and token and leaves the error as it was; a rejected one sets the error and leaves the session unchanged |
| AuthSlice.ToggleTwice | frontend/src/store/slices/authSlice.ts:73-76 | toggling twice restores the mode and leaves no error |

## Left out

- Text detection (the Vision client) and the catalog HTTP request are not modelled. An image carries its detection result, and the catalog is a function from search term to response.
- A failed catalog request, a non-success status and a body without `data` all become `RequestFailed`, because the source treats them alike.
- `Promise.all` concurrency is not modelled; the images are processed as an order-preserving map.
- JWT verification is a parameter (`verifyToken`). The `auth` middleware is not modelled; the authenticated routes receive the caller's id.
- Mongoose persistence is replaced by in-memory sequences.
  - `findOne` returns the first match in insertion order.
  - Ids are numbers handed out in order.
- Schema validation is not modelled: the required title, trimming of title and description, and the required `userId`. So a collection created by the older router, which sets no `userId`, is stored with no owner here, although the schema would reject it.
- The 500 and catch-all 400 error paths of the routes are not modelled. These are database failures and JSON errors, and two cases of the older router's add-cards route (backend/routes/collectionRoutes.js:24-39): a body without `cards`, whose spread at line 33 throws, and an id that is not a valid ObjectId, which `findById` at line 27 rejects. `CollectionStore.Store.AddCards` always receives a card list and a well-formed id.
- CardMatch.ExactMatchWins: for an OCR text with a hyphen, the lemma asks that the name and the text have fewer than 20 words together. In the source an exact record wins whenever the text has fewer than 20 hyphens, since each hyphen costs the exact record half a point and a hyphenated OCR word never matches a record's words; that sharper bound is not proved.
- An exception thrown while one image is processed, for example a detection whose first annotation has no `description` (backend/src/utils/ocrUtils.js:112-115), is caught by that image's own handler and becomes that image's error outcome (backend/src/utils/ocrUtils.js:127-135); the request still succeeds. The model represents every such failure as a `DetectionFailed(message)` detection, which `ProcessImage` turns into the same error outcome; an annotation without `description` is not a separate case in the model.
- Browser storage (`localStorage`) reads and writes, and `Date.now()`, are parameters or left out.
- The frontend auth middleware dispatches an action the collection slice does not define, so it is not part of this model.
- The React components, Express wiring and API interceptors are not part of this model.
- Text.Lower: ASCII letters only; JavaScript's full Unicode case mapping is not modelled.
- Text.Upper: ASCII letters only, so `IsTitleLine` treats non-ASCII letters as already upper case.
- BatchStore.Store.Post: requests are handled one at a time. Under concurrent requests for the same new group, the source's look-up and later save can both miss the existing batch and create two, since the group id index is not unique (backend/models/batch/Batch.js:33); two concurrent appends to one batch can likewise lose one of the updates. These interleavings are not modelled, and the uniqueness of group ids that `Valid` keeps holds only for requests handled one at a time.
- BatchStore.Store.ListByGroup: ties in `createdAt` are kept in insertion order; the database does not promise this, and the contract states only sortedness and the permutation for that reason.
- Files in the upload slice are represented by their names; parsing of the stored user JSON is not modelled.
