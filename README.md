# Brand-detection backend: a verified model of its core logic

The backend takes an uploaded PDF and renders each page to a grayscale image.
It asks a generative model which brands each page shows, and it stores a
result slot per page in a Firestore `documents` collection. It also serves the
results, a summary and an Excel export over HTTP.

This project models the deterministic part of that backend in Dafny:

- the OCR adapter's chunk grid, coordinate shift, detection filter, retry loop
  with its doubling back-off delay, and text merging;
- post-processing of the Gemini reply: JSON span, key checks, list coercion,
  cleaning and the "hergon" denylist;
- the per-document run state machine in the processing service;
- the document store as a keyed table with per-page slots and its status view;
- PDF validation, page batching, page-file naming and the temp-directory
  registry;
- the upload validators, the summary fallback and the error policy of the
  document endpoints;
- the Excel report's rows, counters, widths and file name;
- the language-list and per-platform helpers of the settings.

The external parts are parameters of the model. These are the OCR engine
(`readtext`), the Gemini call (a reply or a failure), `json.loads` (an
abstract parser), the PDF reader and rasteriser, the file system and the
clock.

## Modules

One module per source file, plus shared helpers:

| file | module | models |
|---|---|---|
| wrappers.dfy | `Wrappers` | `Option` and `Result` |
| strings.dfy | `Strings` | Python `str` operations: `strip`, `lower`, `split`, `join`, `replace`, decimal rendering, zero padding, code-point order |
| sorting.dfy | `Sorting` | `sorted` (stable, by key), sorting strings and sets of strings, subsequences, sums |
| models.dfy | `Models` | the pydantic records and JSON values |
| config.dfy | `Config` | `backend/app/config.py` |
| ocr_service.dfy | `Ocr` | `backend/app/services/ocr_service.py` (class `OcrService`) |
| brand_detection.dfy | `Brands` | `backend/app/services/brand_detection_service.py` |
| firebase_store.dfy | `FirebaseStore` | `backend/app/services/firebase_service.py` (class `FirebaseService`) |
| processing.dfy | `Processing` | `backend/app/services/processing_service.py` (class `ProcessingService`) |
| pdf_service.dfy | `Pdf` | `backend/app/services/pdf_service.py` (class `PdfService`) |
| documents_api.dfy | `Api` | `backend/app/api/documents.py` (class `DocumentsApi`) |
| excel_report.dfy | `Excel` | `backend/app/services/excel_service.py` (class `ExcelService`) |

Services that keep state are classes: `OcrService.retryDelay`, the store's
`docs` table, `ProcessingService.activeProcesses`, `PdfService.activeTempDirs`,
and the worksheet cells of `ExcelService`. Each method that changes state is
proved equal to a function of the old state. The lemmas then state what the
source promises about that function.

## Model

| member | source | states |
|---|---|---|
| Config.NonBlankStripped | backend/app/config.py:82-84 | every language code in the list is non-empty and already stripped, and a string is in the list exactly when it is the stripped, non-empty form of some comma-separated piece |
| Config.NonBlankStrippedIsNonEmpty | backend/app/config.py:82-84 | the list is the stripped pieces with only the blank ones removed (`Sorting.NonEmpty`, which keeps order and repeats) |
| Config.NonBlankStrippedInOrder | backend/app/config.py:82-84 | the list keeps the order of the pieces it was cut from, and each code appears as often as a piece strips to it, so repeated codes are kept |
| Config.DefaultLanguages | backend/app/config.py:61 | the default setting "es,en" yields the list ["es", "en"] |
| Config.OptimizedSettings | backend/app/config.py:91-108 | on Windows the three pool sizes are capped at 4, the GPU memory fraction is 0.8, and the GPU is used only when the setting and GPU availability are both true; on other platforms the five values pass through unchanged |
| Ocr.RowChunksShape | backend/app/services/ocr_service.py:97-114 | every chunk of a row lies on the 824-pixel grid, is clamped to the image (as large as the image allows, up to 1024) and has both sides at least 200 |
| Ocr.RowChunksLeftToRight | backend/app/services/ocr_service.py:103-114 | within a row the chunks run strictly left to right |
| Ocr.GridChunksShape | backend/app/services/ocr_service.py:97-114 | every chunk of the grid has its origin on the 824-pixel grid along both axes, lies inside the image and is kept only when both sides are at least 200 |
| Ocr.GridRowMajor | backend/app/services/ocr_service.py:101-114 | chunks are produced row by row, top to bottom, and left to right within a row |
| Ocr.ChunksCoverImage | backend/app/services/ocr_service.py:97-114 | when both sides are at least 200 pixels, every pixel lies in some kept chunk, although small edge chunks are dropped |
| Ocr.OcrService.SplitImageIntoChunks | backend/app/services/ocr_service.py:79-121 | the nested loops produce exactly the grid's chunks in row-major order |
| Ocr.OcrService.SplitRow | backend/app/services/ocr_service.py:103-114 | the inner loop produces exactly the kept chunks of one row |
| Ocr.AdjustCoordinates | backend/app/services/ocr_service.py:123-145 | the box keeps its number of points and every point moves by exactly (chunk_x, chunk_y) |
| Ocr.AdjustCoordinatesInverse | backend/app/services/ocr_service.py:123-145 | shifting back by the opposite offset restores the chunk-space box |
| Ocr.FilterDetections | backend/app/services/ocr_service.py:182-197 | no more detections than replies; every kept text is non-empty, stripped and at or above the threshold |
| Ocr.FilterDetectionsKeeps | backend/app/services/ocr_service.py:182-197 | a detection is kept exactly when its confidence reaches the threshold and its stripped text is non-empty; the kept text is the stripped text and the box is moved into page space |
| Ocr.OcrService.FilterReply | backend/app/services/ocr_service.py:182-197 | the filtering loop over one reply yields the filtered detections in reply order |
| Ocr.FirstSuccess | backend/app/services/ocr_service.py:165-216 | the attempt that answers is the first answering one among the allowed attempts; when none answers, every allowed attempt failed |
| Ocr.AnsweredAt | backend/app/services/ocr_service.py:165-216 | when attempt k is the first to answer, the call returns that reply filtered, after k doublings of the delay |
| Ocr.NeverAnswered | backend/app/services/ocr_service.py:207-218 | when every attempt fails, the call returns no detections and doubles the delay once per failed attempt except the last |
| Ocr.NoAttemptsNoDetections | backend/app/services/ocr_service.py:165-218 | with a retry limit of 0 or less, no attempt is made: no detections and no doubling |
| Ocr.DoubledTwice | backend/app/services/ocr_service.py:209-213 | doubling the stored delay a times and then b times is doubling it a + b times, so the delay is never reset between calls |
| Ocr.OcrService.ExtractTextFromChunk | backend/app/services/ocr_service.py:147-218 | the retry loop returns the filtered reply of the first answering attempt (none if every attempt fails) and leaves the stored delay doubled once per failed non-final attempt |
| Ocr.OcrService.constructor | backend/app/services/ocr_service.py:34-77 | the service starts with the configured retry limit, confidence threshold and initial delay |
| Ocr.CollectedSkipsFailures | backend/app/services/ocr_service.py:272-279 | a chunk call that raised contributes nothing, and the other chunks' detections keep their order |
| Ocr.OcrService.CollectChunkResults | backend/app/services/ocr_service.py:272-279 | the collection loop concatenates the detections of the successful chunk calls in chunk order |
| Ocr.OcrService.GatherChunkResults | backend/app/services/ocr_service.py:258-269 | one result per chunk; together they hold every chunk's detections in chunk order, and the delay ends doubled by the total over all chunks |
| Ocr.AllDetectionsClean | backend/app/services/ocr_service.py:182-197 | every detection collected for a page has a non-empty, stripped text |
| Ocr.OcrService.ExtractTextFromImage | backend/app/services/ocr_service.py:220-303 | no chunks gives empty text and no detections; otherwise the text is the merge of all chunks' detections, which are returned in chunk order |
| Ocr.OcrService.CombineTextDetections | backend/app/services/ocr_service.py:305-341 | no detections gives ""; otherwise the result is the stripped output of the merging loop over the detections stably sorted by the top of their first point |
| Ocr.OcrService.AppendText | backend/app/services/ocr_service.py:326-339 | one pass of the merging loop adds a line break when the vertical jump exceeds 50, a space when the text does not end a line, and then the detection's text |
| Ocr.AssembleJoined | backend/app/services/ocr_service.py:322-339 | for non-blank stripped texts, the merging loop yields the texts in order, each consecutive pair separated by "\n" when their tops differ by more than 50 and by " " otherwise; an earlier top of exactly -1 is the loop's "no previous line" mark and also gives " " |
| Ocr.JoinedStripped | backend/app/services/ocr_service.py:341 | the joined texts are already stripped, so the final strip changes nothing |
| Ocr.MergedText | backend/app/services/ocr_service.py:322-341 | merging clean detections and stripping gives the joined texts |
| Ocr.SortedBoxes | backend/app/services/ocr_service.py:319 | sorting keeps every detection's box, so the sort key stays defined |
| Ocr.CombinedIsJoined | backend/app/services/ocr_service.py:315-341 | the merged text of clean detections is the joined texts of the detections sorted by vertical position, and that order is ascending |
| Sorting.SortByStable | backend/app/services/ocr_service.py:319 | the sort is stable: detections with equal keys keep their relative order |
| Brands.ErrorTextMessages | backend/app/services/brand_detection_service.py:203-251 | a decode error raises under "Failed to parse AI response as JSON: ", every other error under "Brand detection failed: "; the three format checks give their full messages ("Invalid response format: expected dictionary", "... missing 'brands_detected' field", "... missing 'page_number' field") |
| Brands.JsonCandidate | backend/app/services/brand_detection_service.py:192-200 | with an opening brace before a closing one, the text decoded is the greedy span from the first "{" to the last "}"; with no such span, the whole reply is decoded |
| Brands.BrandEntries | backend/app/services/brand_detection_service.py:203-218 | a value that is not an object, or lacks "brands_detected" or "page_number", is rejected with its own error; a list is taken as it is, and another value becomes a one-element list when truthy and an empty list otherwise |
| Brands.EntryTexts | backend/app/services/brand_detection_service.py:221-224 | each entry maps to its stripped text, position by position |
| Brands.CleanEntries | backend/app/services/brand_detection_service.py:221-224 | the cleaning fails exactly when a truthy entry is not a string; otherwise every output brand is non-empty and stripped |
| Brands.CleanEntriesKept | backend/app/services/brand_detection_service.py:219-224 | when cleaning succeeds, its result is exactly the non-blank stripped texts of the entries, in order and with their repeats |
| Brands.CleanEntriesInOrder | backend/app/services/brand_detection_service.py:221-224 | the cleaned brands are a subsequence of the stripped entries, in input order, and each non-blank text appears as often as it occurs among the entries |
| Brands.FilterExcluded | backend/app/services/brand_detection_service.py:227-231 | a brand survives exactly when it names none of the excluded variants, and the survivors keep their order |
| Brands.FilterExcludedCounts | backend/app/services/brand_detection_service.py:227-231 | every occurrence of an excluded brand is removed and every occurrence of any other brand is kept, so the denylist removes no duplicates |
| Brands.VariantContainsHergon | backend/app/services/brand_detection_service.py:227 | every denylist entry, lowered, contains "hergon" |
| Brands.ExcludedIffHergon | backend/app/services/brand_detection_service.py:227-231 | the denylist drops a brand exactly when its lowered form contains "hergon" |
| Brands.NormalizedBrands | backend/app/services/brand_detection_service.py:216-231 | every reported brand is stripped, non-empty and free of "hergon" in any casing; the brands are a subsequence of the stripped entries; the result is the denylist applied to the non-blank stripped texts; and every text that is non-blank and free of "hergon" is reported as often as the reply lists it (no deduplication) |
| Brands.CleanEntriesOfClean | backend/app/services/brand_detection_service.py:221-224 | cleaning a list of already clean brands returns it unchanged |
| Brands.FilterExcludedOfKept | backend/app/services/brand_detection_service.py:227-231 | the denylist keeps a list none of whose brands is excluded |
| Brands.NormalizeIdempotent | backend/app/services/brand_detection_service.py:216-231 | running the cleaning and the denylist a second time changes nothing |
| Brands.NoDeduplication | backend/app/services/brand_detection_service.py:221-231 | "Samsung", "SAMSUNG" and "Bosch" all survive: brands differing only in case are not merged |
| Brands.DetectBrandsInImage | backend/app/services/brand_detection_service.py:186-251 | a failed call, a decode failure and a validation failure each raise with their own error rather than giving an empty list; a success carries the requested page number and the normalised brands |
| Brands.PageResult | backend/app/services/brand_detection_service.py:295-305 | a page whose detection succeeded contributes that detection, and a page whose detection raised contributes an empty brand list under its own page number |
| Brands.DetectBrandsInMultipleImages | backend/app/services/brand_detection_service.py:253-312 | exactly one result per image, numbered 1..n in image order, each the page's detection or its empty fallback |
| FirebaseStore.FirebaseService.constructor | backend/app/services/firebase_service.py:22-26 | the store starts with an empty table |
| FirebaseStore.FirebaseService.CreateDocument | backend/app/services/firebase_service.py:60-85 | the new id maps to a record with the given filename and page count, status "processing" and no results; the document reads back as it was returned; no other record changes |
| FirebaseStore.CreatedReadsBack | backend/app/services/firebase_service.py:60-114 | a created document reads back with no results and status "processing" |
| FirebaseStore.FirebaseService.ReadRecord | backend/app/services/firebase_service.py:96-111 | the loop over the result slots reads a record back as its view |
| FirebaseStore.FirebaseService.GetDocument | backend/app/services/firebase_service.py:87-114 | an absent id gives None; otherwise the record's view, which fails when a slot lacks a field that a page result requires |
| FirebaseStore.DetectionsReadable | backend/app/services/firebase_service.py:100-103 | a record's results read back exactly when every slot is complete, and then there is one result per slot |
| FirebaseStore.DetectionOfSlot | backend/app/services/firebase_service.py:100-103 | a readable record shows the result of each of its slots |
| FirebaseStore.FirebaseService.GetAllDocuments | backend/app/services/firebase_service.py:116-143 | the listing succeeds exactly when every record is readable, and then it holds one document per id, each the view of its record |
| FirebaseStore.Applied | backend/app/services/firebase_service.py:151-158 | only the fields given are replaced; every other field of the record stays |
| FirebaseStore.FirebaseService.UpdateDocument | backend/app/services/firebase_service.py:145-162 | an update with no field given writes nothing; an update of a missing id fails with nothing written; otherwise only the given fields of that record change, and the result is the re-read document |
| FirebaseStore.UpdateReadsBack | backend/app/services/firebase_service.py:145-162 | an update is visible when the document is read back, and nothing else of the document changes |
| FirebaseStore.FirebaseService.DeleteDocument | backend/app/services/firebase_service.py:164-176 | the result is true exactly when the id existed; the record is gone afterwards, and nothing else changes |
| FirebaseStore.FirebaseService.SaveBrandDetectionResult | backend/app/services/firebase_service.py:178-209 | a missing document fails with nothing written; otherwise only the page's slot is replaced, by a complete slot with status "completed" |
| FirebaseStore.SavedResultVisible | backend/app/services/firebase_service.py:178-209 | a saved page result is visible when the document is read back, and the document stays readable |
| FirebaseStore.StatusSlot | backend/app/services/firebase_service.py:222-229 | the slot's status is set; an error message is written only when a non-empty one is given; every other field of an existing slot is kept; a new slot has only these fields |
| FirebaseStore.FirebaseService.UpdatePageStatus | backend/app/services/firebase_service.py:211-231 | a missing document fails with nothing written; otherwise only the page's slot changes, as the status slot says |
| FirebaseStore.StatusOnlySlotUnreadable | backend/app/services/firebase_service.py:96-103 | a status written for a page without a saved result makes the document unreadable |
| FirebaseStore.StatusOverSavedResult | backend/app/services/firebase_service.py:211-231 | a status written over a saved result keeps the document readable and changes only that result's status |
| FirebaseStore.Count | backend/app/services/firebase_service.py:245-251 | a counter never exceeds the number of results |
| FirebaseStore.CountsBounded | backend/app/services/firebase_service.py:245-251 | completed and failed pages together are at most the number of results |
| FirebaseStore.AllCounted | backend/app/services/firebase_service.py:245-251 | when every result has a status, all of them are counted under it |
| FirebaseStore.PageStatuses | backend/app/services/firebase_service.py:245-248 | every result's page has an entry in the page-status map, and every entry comes from some result |
| FirebaseStore.PageStatusesLast | backend/app/services/firebase_service.py:245-248 | a later result for the same page overrides an earlier one in the page-status map |
| FirebaseStore.PercentageBounds | backend/app/services/firebase_service.py:254 | the percentage is 0 for a document without pages; otherwise it lies between 0 and 100 when no more pages are processed than exist, and is 100 when all are processed |
| FirebaseStore.OverallStatusMeaning | backend/app/services/firebase_service.py:257-262 | the overall status is "completed" exactly when the processed count equals the page count; "failed" exactly when it does not, some page failed and processed plus failed equals the page count; "processing" in every other case, and nothing else; a document whose every result is completed, one per page, shows "completed" |
| FirebaseStore.FirebaseService.GetProcessingStatus | backend/app/services/firebase_service.py:233-274 | the counting loop gives the status view of the stored document: counts, page map, percentage and overall status; None for an absent id |
| Processing.FailureTextMessages | backend/app/services/processing_service.py:140-151 | the error stored for a failed page is `str(e)` of what it raised: "Failed to update page status: " or "Failed to save brand detection result: " for the store calls, the detection's own text, and the document id in quotes for the `KeyError` of a removed tracking entry. The store wraps only Firebase errors (firebase_service.py:208-209, 230-231); the update on a missing document raises the client library's own not-found error instead, so the two store prefixes would not appear there, and that text is never stored, because the document is gone |
| Processing.Outcomes | backend/app/services/processing_service.py:109-124 | page i of the run (counting from 0) is detected as page number i + 1 |
| Processing.FinalStatus | backend/app/services/processing_service.py:153-161 | "completed" exactly when no page failed, "failed" exactly when every page failed, and "completed_with_errors" exactly when some but not all failed |
| Processing.Cancel | backend/app/services/processing_service.py:220-248 | a successful cancel leaves status "cancelled" and removes the tracking entry; it succeeds exactly when the document exists and reads back after the write; on failure the tracking map is unchanged |
| Processing.CancelReadBack | backend/app/services/processing_service.py:220-248 | cancelling an existing document writes "cancelled"; it returns true and removes the entry when the document is readable, and returns false with the entry left when it is not |
| Processing.ProcessingService.constructor | backend/app/services/processing_service.py:26-29 | the service starts with no tracked runs |
| Processing.ProcessingService.GetActiveProcesses | backend/app/services/processing_service.py:210-218 | the snapshot equals the tracking map |
| Processing.ProcessingService.CancelProcessing | backend/app/services/processing_service.py:220-248 | the new store table, tracking map and result are those of the cancel operation on the old state |
| Processing.ProcessingService.HandlePageFailure | backend/app/services/processing_service.py:140-151 | the page handler writes status "failed" with the error text and then counts a failed page; a store error or a missing tracking entry raises out of the handler |
| Processing.ProcessingService.ProcessPage | backend/app/services/processing_service.py:109-151 | a page first gets status "processing", then (after the optional cancel request) its detection is saved or handed to the failure handler |
| Processing.ProcessingService.SaveDetection | backend/app/services/processing_service.py:124-151 | a successful detection is saved with its processing time and counted as processed; a failed detection, a missing tracking entry or a failed save goes to the failure handler |
| Processing.ProcessingService.AbortRun | backend/app/services/processing_service.py:177-190 | the top-level handler writes status "failed" and removes the tracking entry; when that write raises, the entry stays |
| Processing.ProcessingService.FinishRun | backend/app/services/processing_service.py:153-175 | after the loop the final status is written and the entry removed; a missing entry or a failed write goes to the top-level handler |
| Processing.ProcessingService.ProcessDocumentAsync | backend/app/services/processing_service.py:80-190 | the run stores a tracking entry with both counters 0, visits the pages in order until one raises out of its handler, then finishes or aborts |
| Processing.ProcessingService.GetProcessingStatus | backend/app/services/processing_service.py:192-208 | the status is the store's status view of the document |
| Processing.CountsPartition | backend/app/services/processing_service.py:109-151 | every detection outcome is either a success or a failure, so the two counts add up to the number of pages |
| Processing.PagesCounted | backend/app/services/processing_service.py:109-151 | without a cancel request, no page of an existing document raises, and the entry's processed and failed counters grow by the numbers of successful and failed detections |
| Processing.RunCounts | backend/app/services/processing_service.py:99-151 | after the loop of a run without cancellation, processed plus failed equals the number of images |
| Processing.PagesAllSucceed | backend/app/services/processing_service.py:109-151 | when every detection succeeds, every slot is complete after the loop |
| Processing.CompletedRun | backend/app/services/processing_service.py:80-175 | a readable document whose detections all succeed ends "completed" and its tracking entry is removed |
| Processing.PagesKeepFailedSlot | backend/app/services/processing_service.py:109-151 | a failed detection on a page with no saved result leaves a status-only slot that the rest of the loop never completes |
| Processing.FailedPageLeaks | backend/app/services/processing_service.py:153-190 | a failed page on a fresh document makes the document unreadable, so the final write raises, the top-level handler's write of "failed" raises too, and the tracking entry is left behind |
| Processing.PageOverComplete | backend/app/services/processing_service.py:109-151 | on a document whose pages all have complete slots, a page goes through without raising and keeps every slot complete |
| Processing.PageCancelled | backend/app/services/processing_service.py:127-151 | only on a document whose every page already has a saved result, a state the service's own runs never start from: a cancel during a page's detection removes the entry, so that page's counter update raises a key error out of its handler |
| Processing.PagesUntilCancel | backend/app/services/processing_service.py:109-151 | only when every page already has a saved result (never so in the service's own runs): the pages before the cancelled one go through, and the cancelled page raises |
| Processing.CancelledPageStops | backend/app/services/processing_service.py:109-151 | only when every page already has a saved result (never so in the service's own runs): the loop stops at the cancelled page |
| Processing.CancelledRunEndsFailed | backend/app/services/processing_service.py:177-190 | a cancelled run of a document whose pages all have saved results, which the service's own runs never start from, ends with status "failed", overwriting "cancelled", and no tracking entry |
| Processing.CancelOnFreshPage | backend/app/services/processing_service.py:220-248 | a cancel while a page with no saved result is being detected writes "cancelled", but that page's slot holds only the status "processing", so the read-back raises: the call returns false, keeps the tracking entry and changes nothing but the document's status |
| Processing.FreshCancelledPage | backend/app/services/processing_service.py:113-151 | with no saved result for the page, the page during which the cancel comes raises exactly when it would without the cancel, and leaves the same store and tracking entries but for the document's status |
| Processing.PagesIgnoreStatus | backend/app/services/processing_service.py:109-151 | the pages never read the document's status: from states differing only there, the loop raises alike and leaves states differing only there |
| Processing.PagesToFreshCancel | backend/app/services/processing_service.py:109-151 | on a document with no saved result for the cancelled page, the pages before it keep that slot absent, and the loop with the cancel raises exactly when the loop without it does, differing only in the document's status |
| Processing.AbortIgnoresStatus | backend/app/services/processing_service.py:177-190 | the top-level handler overwrites the status, so it ends states differing only there identically |
| Processing.FinishIgnoresStatus | backend/app/services/processing_service.py:153-172 | the final status write overwrites the status, so it ends states differing only there identically |
| Processing.FreshCancelIgnored | backend/app/services/processing_service.py:99-190 | when the document has no saved result for the cancelled page, the whole run with the cancel ends in exactly the step the run without it ends in: same escape, same store, same tracking entries |
| Processing.NewRecordCancelIgnored | backend/app/services/processing_service.py:58-70 | on the record `create_document` has just made, the only start the service gives a run, a cancel during any page is ignored: the run ends "completed" with its entry removed when every detection succeeds, and "failed" with a read-back error and its entry left behind when one fails, as it would without the cancel |
| Processing.MissingDocumentRun | backend/app/services/processing_service.py:99-190 | a run for an id the store does not have writes nothing and leaves its fresh tracking entry behind |
| Pdf.PathJoin | backend/app/services/pdf_service.py:64 | an absolute second component replaces the first; otherwise the result is the two joined by one "/" |
| Pdf.ValidatePdf | backend/app/services/pdf_service.py:162-190 | valid exactly when the PDF opens, is not encrypted and has at least one page, and then it returns ("", n) with n >= 1; encryption is checked before emptiness; every failure returns page count 0 and its own message |
| Pdf.PdfService.ValidatePdfFile | backend/app/services/pdf_service.py:135-190 | the service's validation returns the validation of the reading |
| Pdf.PageFileName | backend/app/services/pdf_service.py:272 | a page file name starts with "page_", ends with ".png" and has at least four digits |
| Pdf.PageFileNameInjective | backend/app/services/pdf_service.py:272 | distinct page numbers get distinct file names, also past 9999 |
| Pdf.PageFileNameWidth | backend/app/services/pdf_service.py:272 | pages below 10000 get exactly four digits |
| Pdf.SavedPages | backend/app/services/pdf_service.py:269-282 | no more saved pages than images, all numbered from the batch's first page on |
| Pdf.SavedPagesOrdered | backend/app/services/pdf_service.py:269-282 | saved page numbers are strictly increasing, and page start + i is there exactly when the i-th image was saved |
| Pdf.SavedPagesAll | backend/app/services/pdf_service.py:269-282 | when every image is saved, the pages are start, start + 1, … in order |
| Pdf.PageRange | backend/app/services/pdf_service.py:363-364 | the pages lo..hi in order, empty when hi < lo |
| Pdf.Paths | backend/app/services/pdf_service.py:272-273 | one path per page, each the page's file name in the directory |
| Pdf.PathsDistinct | backend/app/services/pdf_service.py:272-273 | distinct pages in one directory get distinct paths |
| Pdf.Extraction | backend/app/services/pdf_service.py:192-241 | the extraction succeeds exactly when the conversion does; a conversion error is re-raised with the "Failed to extract pages as grayscale files: " prefix |
| Pdf.PdfService.ExtractPagesAsGrayscaleFiles | backend/app/services/pdf_service.py:243-292 | the conversion loop returns the paths of the saved pages of the batch, in page order |
| Pdf.BatchesFrom | backend/app/services/pdf_service.py:363-364 | every batch range lies within the pages still to do and is non-empty |
| Pdf.BatchesCover | backend/app/services/pdf_service.py:363-364 | the batch ranges are contiguous and disjoint, and concatenated in order they are exactly pages 1..N |
| Pdf.BatchSizes | backend/app/services/pdf_service.py:363-364 | every batch holds at least one page and at most batch_size pages |
| Pdf.FilesArePages | backend/app/services/pdf_service.py:361-372 | the files are the per-batch lists concatenated in batch order, that is, the paths of the saved pages; the first failed batch's error is the run's error |
| Pdf.PagesOrdered | backend/app/services/pdf_service.py:363-372 | when no conversion returns more images than pages asked, the saved pages are strictly increasing and within 1..N |
| Pdf.AllPagesSaved | backend/app/services/pdf_service.py:363-372 | when every page converts, the run saves exactly pages 1..N in order |
| Pdf.ProcessPdf | backend/app/services/pdf_service.py:323-383 | an invalid PDF fails with the validation message; a success reports the validated page count and the document's directory |
| Pdf.ProcessPdfAllPages | backend/app/services/pdf_service.py:323-383 | a valid PDF of n pages, every page converted, yields the files of pages 1..n in order |
| Pdf.PdfService.constructor | backend/app/services/pdf_service.py:33-52 | the base directory is "buscador_marca_images" in the temporary directory, and the registry starts empty |
| Pdf.PdfService.CreateTempDirectory | backend/app/services/pdf_service.py:54-68 | the registry maps the document to base/doc_<id>, and no other entry changes |
| Pdf.PdfService.CleanupTempDirectory | backend/app/services/pdf_service.py:70-91 | true and the key removed unless removing the directory fails; an absent key also gives true, so the cleanup is idempotent |
| Pdf.PdfService.ExtractBatches | backend/app/services/pdf_service.py:360-372 | the batch loop returns the concatenated files of all batches, or the first failed batch's error |
| Pdf.PdfService.ProcessPdfWithTempFiles | backend/app/services/pdf_service.py:323-383 | the result is the processing outcome; on success the registry holds the document's directory; on any error the entry is removed before the error is re-raised, unless removing the directory fails |
| Api.ValidateFileSize | backend/app/api/documents.py:25-36 | rejects with 413 exactly when a positive limit is exceeded; the message gives the limit in whole megabytes by integer division |
| Api.FileSizeMonotone | backend/app/api/documents.py:28-36 | a size that is rejected makes every larger size rejected too, and with a limit of 0 every size passes |
| Api.MbFigureRoundsDown | backend/app/api/documents.py:35 | the megabyte figure rounds the limit down and never overstates it |
| Api.SplitExt | backend/app/api/documents.py:43 | the two parts concatenate back to the name; a non-empty extension starts with its only dot and has no "/" |
| Api.ValidateFileExtension | backend/app/api/documents.py:40-49 | passes exactly when the lowered extension is in the allowed list; otherwise 400 with the list of allowed types |
| Api.PassingNameEndsInPdf | backend/app/api/documents.py:43-49 | under the default settings a name that passes ends in ".pdf" in any casing, after something that is not a "/" |
| Api.PdfNamePasses | backend/app/api/documents.py:43-49 | under the default settings a name ending in ".pdf" in any casing passes when the suffix follows something other than a dot or a "/" |
| Api.ExtensionExamples | backend/app/api/documents.py:43-49 | "a.PDF" passes; "a.pdf.exe", "pdf" and ".pdf" are rejected |
| Api.DocumentsApi.constructor | backend/app/api/documents.py:14-15 | the handlers share the module's store |
| Api.DocumentsApi.UploadDocument | backend/app/api/documents.py:82-152 | the extension is checked before the size, and either rejection writes nothing; otherwise a new record is created with 0 pages and status "processing" |
| Api.DocumentsApi.ProcessDocumentSafely | backend/app/api/documents.py:53-78 | never raises; when processing raised, the document is marked "failed" if it exists, and a failed write is swallowed |
| Api.DocumentsApi.GetDocuments | backend/app/api/documents.py:156-172 | any store error gives an empty list; otherwise one document per record, each returned document is a record's view, and every record's view is returned |
| Api.BrandUnion | backend/app/api/documents.py:281-283 | a brand is in the union exactly when some page lists it, compared in exact case |
| Api.DocumentsApi.CollectBrands | backend/app/api/documents.py:281-283 | the loop collects the union of all pages' brands |
| Api.Summarize | backend/app/api/documents.py:254-303 | a store error gives 500 with the summary prefix, a missing document 404; otherwise the reply carries the id and the status; the saved summary is returned exactly when one is present and truthy |
| Api.GeneratedSummaryMeaning | backend/app/api/documents.py:285-290 | the fallback lists every brand of every page once, in ascending order, and counts them |
| Api.CaseSensitiveUnion | backend/app/api/documents.py:281-290 | "Bosch" and "BOSCH" count as two brands |
| Api.DocumentsApi.GetDocumentSummary | backend/app/api/documents.py:254-303 | the endpoint returns the summary reply for what the store reads back |
| Api.SummarizeAsWritten | backend/app/api/documents.py:266-272 | as written, a missing document still gives 404 |
| Api.SummaryAttributeMissing | backend/app/api/documents.py:272 | as written, every existing document gets a 500, where the corrected endpoint answers with a summary |
| Api.DocumentsApi.UpdateBrandReviewStatus | backend/app/api/documents.py:355-394 | a store error gives 500; a missing document or a brand the store reports as unmatched gives 404; a success echoes the requested review flag |
| Excel.PageRows | backend/app/services/excel_service.py:137-147 | one row per brand of the page, in ascending brand order, each labelled "Revisado" or "Por Revisar" by the brand's review flag |
| Excel.PageRowsSorted | backend/app/services/excel_service.py:139-141 | within a page the brands are in ascending order, and every detected brand has its row, duplicates included |
| Excel.RowsOfLength | backend/app/services/excel_service.py:136-168 | there is one row per brand of every page |
| Excel.RowsOfOrdered | backend/app/services/excel_service.py:134-168 | results sorted by page give rows in ascending page order |
| Excel.RowsMeaning | backend/app/services/excel_service.py:132-168 | the table lists pages in ascending order, with one row per detected brand; pages without brands give no row |
| Excel.StatsOf | backend/app/services/excel_service.py:178-192 | reviewed brands are at most total brands; pages with results are at most the number of results; there are no brands exactly when no page has results |
| Excel.StatsTotal | backend/app/services/excel_service.py:184-187 | the total is the sum of the brand-list lengths |
| Excel.StatsReviewed | backend/app/services/excel_service.py:188-192 | the reviewed count is the sum over the pages of their reviewed brands |
| Excel.ReviewedInCount | backend/app/services/excel_service.py:188-192 | a page's reviewed count is the number of its brands whose flag is present and true |
| Excel.PageRevisados | backend/app/services/excel_service.py:143-144 | a page's "Revisado" rows are as many as its reviewed brands |
| Excel.RowsOfRevisados | backend/app/services/excel_service.py:136-192 | the "Revisado" rows of the table are as many as the reviewed brands |
| Excel.StatsMatchTable | backend/app/services/excel_service.py:136-192 | the statistics agree with the table: the total is its row count and the reviewed count is its number of "Revisado" rows |
| Excel.PercentText | backend/app/services/excel_service.py:214-217 | "0%" when there are no brands, and always ending in "%" |
| Excel.ReviewShare | backend/app/services/excel_service.py:215 | the review share lies between 0 and 100, and is 100 when every brand is reviewed |
| Excel.ColumnWidth | backend/app/services/excel_service.py:243 | every width lies in [12, 50]: length + 2 between those bounds, clamped outside them |
| Excel.ColumnMax | backend/app/services/excel_service.py:235-240 | no cell of the column (an empty one reading "None") is longer than the maximum, and some cell has exactly that length; with no rows it is 0 |
| Excel.GenerateFilename | backend/app/services/excel_service.py:246-251 | the file name is the cleaned name followed by "_resultados_<timestamp>.xlsx" |
| Excel.CleanNameMeaning | backend/app/services/excel_service.py:249 | the cleaned name has no spaces, and a name without ".pdf" and without spaces is kept |
| Excel.CleanNameSinglePass | backend/app/services/excel_service.py:249 | the removal is one pass from the left: "a..pdfpdf" becomes "a.pdf" |
| Excel.StatisticsBelowTable | backend/app/services/excel_service.py:195-226 | the statistics section leaves every row above its title unchanged |
| Excel.ReportSheetDetails | backend/app/services/excel_service.py:85-98 | rows 2 to 6 hold the document's details in columns A and B |
| Excel.ReportSheetTitles | backend/app/services/excel_service.py:119-127 | row 10 holds the three column titles |
| Excel.ReportSheetTable | backend/app/services/excel_service.py:130-168 | row 11 + k holds the k-th table row: page, brand, review label |
| Excel.ReportSheetStatistics | backend/app/services/excel_service.py:195-226 | the five statistics sit in rows 15 + n to 19 + n, where n is the number of table rows |
| Excel.ExcelService.constructor | backend/app/services/excel_service.py:19-21 | a new service has no workbook and an empty sheet |
| Excel.ExcelService.WriteRow | backend/app/services/excel_service.py:149-152 | the row's cells are written from column A on, and the sheet's extent grows to cover them |
| Excel.ExcelService.WriteRows | backend/app/services/excel_service.py:221-226 | consecutive rows are written one below the other |
| Excel.ExcelService.AddDocumentInfo | backend/app/services/excel_service.py:69-98 | the section title goes in row 1 and the five details in rows 2 to 6 |
| Excel.ExcelService.AddPageRows | backend/app/services/excel_service.py:136-168 | one page's rows are written from the current row on, and the next row follows them |
| Excel.ExcelService.AddBrandRow | backend/app/services/excel_service.py:141-168 | one brand's row holds its page, name and review label |
| Excel.ExcelService.AddResultsTable | backend/app/services/excel_service.py:100-168 | the title goes in row 8, the column titles in row 10 and the table rows from row 11 |
| Excel.ExcelService.CountStatistics | backend/app/services/excel_service.py:178-192 | the counting loop gives the statistics of the results |
| Excel.ExcelService.CountReviewed | backend/app/services/excel_service.py:188-192 | the inner count gives the page's reviewed brands |
| Excel.ExcelService.AddStatisticsSection | backend/app/services/excel_service.py:170-226 | the title goes three rows below the last used row, and the five statistics two rows below the title |
| Excel.ExcelService.AdjustColumnWidths | backend/app/services/excel_service.py:228-244 | every used column gets the clamped width of its longest cell, and no other width changes |
| Excel.ExcelService.LongestInColumn | backend/app/services/excel_service.py:235-240 | the loop finds the longest cell text of the column |
| Excel.ExcelService.GenerateDocumentResultsExcel | backend/app/services/excel_service.py:23-67 | the sheet "Análisis de Marcas" holds the details, the table and the statistics at their rows; three columns are used, each with its clamped width |

## Left out

- I/O, the network and clocks. These are the OCR engine, the Gemini call,
  Firestore, the PDF reader and rasteriser, PNG saving, cv2 image loading,
  disk operations on temp directories, `time.time()`, `datetime.now()` and
  `asyncio.sleep`. Each is a parameter of the operation that uses it: a reply
  or failure per attempt, a reading, a conversion outcome, a clock value or an
  already formatted date.
- Concurrency. The semaphore-bounded `asyncio.gather` over chunks and the
  thread pools run one after the other in the model. Chunk results are still
  concatenated in chunk order. The final back-off delay depends only on how
  many times it doubled, so it does not depend on order.
- Cancellation is a cancel request injected at one point of one page: while
  that page's detection is awaited. Interleavings at other await points are
  not modelled.
- Map iteration order in the store. Results are read in ascending page order,
  and the listing's order is a ghost sequence of ids.
- `load_grayscale_image_from_file` and `_convert_to_grayscale_and_save` are
  image-library work. Each image's save outcome is an input.
- `PdfService.__del__` (pdf_service.py:407-423) is a finaliser that removes
  directories on disk.
- `validate_pdf` and `process_pdf` are thin async wrappers.
  `ProcessPdfWithTempFiles` and `ValidatePdfFile` stand for both.
- `ProcessingService.process_document` (processing_service.py:31-78) calls
  `process_pdf` with one argument fewer than it takes, and it unpacks two
  values from a result of three. The model starts each run at
  `_process_document_async` with the page images given.
- `Api.DocumentsApi.ProcessDocumentSafely` takes the processing call's outcome
  as a parameter. The function it awaits (documents.py:64) is not defined by
  the processing service.
- `Api.DocumentsApi.UpdateBrandReviewStatus` takes the store's answer as a
  parameter. The store method it calls (documents.py:375) does not exist in
  firebase_service.py.
- The other document endpoints are not part of this model: get one document,
  delete, results, status, cancel and active processes
  (documents.py:176-250, 307-350, 398-411). Each only forwards one store or
  processing-service call, and maps a falsy result to 404 and any error to
  500.
- `backend/app/api/documents.py:13` imports `BrandReviewUpdate` from
  `models/brand_detection.py`, which defines no such class. As written, importing
  the router fails, and with it the application (main.py:11). The endpoints
  of `Api.DocumentsApi` are modelled as if that import succeeded; the review
  update's fields are parameters of `UpdateBrandReviewStatus`.
- The upload endpoint's background task and the DTO conversion after
  `create_document` are not modelled. `Api.DocumentsApi.UploadDocument` stops
  at the record's creation.
- The Excel report reads a per-brand review map
  (`brands_review_status`, excel_service.py:143) that the `BrandDetection`
  record does not declare. The model gives each report result such a map,
  with absent brands counting as not reviewed.
- Excel styling: fonts, fills, borders, alignment and merged cells. The
  workbook's byte serialisation is also left out.
- `Excel.PercentText` does not model the one-decimal rendering of the review
  percentage. The formatter is a parameter, and only its "%" suffix and the
  "0%" case are fixed.
- `Strings.Lower` lowers ASCII and Latin-1 letters only. The full Unicode
  case mapping of Python's `str.lower` is not modelled.
- Floating-point arithmetic. Percentages, delays, confidences and
  processing times are `real`.
- The settings are a record of the values the services read, with their
  defaults. Loading them from the environment and the GPU probe
  (`_check_gpu_availability`) are left out; GPU availability is a parameter of
  `Config.OptimizedSettings`.

### Where the model follows the code rather than its description

- Brands are not deduplicated, neither case-sensitively nor
  case-insensitively (`Brands.NormalizedBrands`, `Brands.NoDeduplication`).
- `detect_brands_in_image` re-raises a failed call, a decode error or a
  validation error. It does not fail open to an empty list. Only
  `detect_brands_in_multiple_images` turns a failed page into an empty result
  (`Brands.PageResult`).
- `update_page_status` on a page with no saved result creates a slot without
  the fields a stored page result requires. `get_document` then fails to
  build the document. The model follows this through:
  - `FirebaseStore.StatusOnlySlotUnreadable`: the document can no longer be
    read;
  - `Processing.FailedPageLeaks`: a run with a failed page on a fresh document
    ends "failed", not "completed_with_errors", and its tracking entry is left
    behind;
  - `Processing.CancelReadBack`: a cancel on such a document returns false.
- A cancel during a run never takes effect in the service's own runs. The run
  starts on the record `create_document` has just made, so the page being
  detected has a slot with only a status, the cancel's read-back raises, and
  the cancel returns false and keeps the tracking entry. Its "cancelled" is then
  overwritten by the final status, and the run ends exactly as without the
  cancel (`Processing.CancelOnFreshPage`, `Processing.FreshCancelIgnored`,
  `Processing.NewRecordCancelIgnored`). Only on a document whose every page
  already had a saved result would the cancel remove the entry; the next
  tracking-entry access would then raise, and the top-level handler would
  write "failed" (`Processing.CancelledRunEndsFailed`).

## Findings

| source | as written | input that shows it | evidently intended | confidence | as-written member | corrected member |
|---|---|---|---|---|---|---|
| backend/app/api/documents.py:272 | reads `document.summary`, an attribute the `Document` model does not have, so the handler raises and answers 500 | any existing document, e.g. one with no results | return the saved summary when there is one, else the summary generated from the page results | high (not executed) | Api.SummaryAttributeMissing | Api.Summarize |
