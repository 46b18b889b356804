# Atino Lark table jobs in Dafny

This project models the decision logic of three batch jobs that maintain a Lark Bitable table
of shop ("depot") records. In the model every network call is replaced by an input value:
a page of records, a download/upload outcome, or the reply to a batch write.

- **QR code job** (`QRcode_CK_v2.py`):
  - selects the records that have a "Link QR" cell and a record id;
  - derives a sanitised PNG file name for each one;
  - downloads the QR image and re-uploads it with up to three attempts and linear backoff, on a pool of worker threads;
  - counts processed, successful and failed items under a lock;
  - writes the file tokens back into the "QR code" cell in batches of 500. A failed batch is skipped.
- **Earlier QR code job** (`QRcode_CK.py`):
  - runs the same pipeline sequentially, with one attempt per record;
  - also skips records whose "QR code" cell is already filled;
  - has no exception handler around a record.
- **Revenue job** (`revenue_offline.py`):
  - splits one day's bill rows by type and outer-joins the type-2 and type-1 rows on the depot id;
  - computes `revenue = money_type2 - money_type1 + returnfee_type1`;
  - builds the map from depot id to record id for the day's partition of the table;
  - splits the joined rows into updates and creates;
  - writes both lists in batches of 500, stopping at the first failed batch.

Modules:

- `LarkData`:
  - decoded JSON values with Python truthiness, `dict.get` and `str()`;
  - records and payloads, and the table's field names.
- `LarkTable`:
  - paginated listing over a sequence of page replies;
  - the slicing into batches of 500;
  - the two batch-failure policies.
- `QrNaming`: link extraction, the file name, and the per-record decision to skip, raise or prepare a work item.
- `QrRetry`: the bounded retry loop over a sequence of attempt outcomes.
- `QrPipeline`:
  - the progress counters as a class;
  - the per-record step;
  - the concurrent pass, modelled as a sequential pass over the order in which the workers complete.
- `QrLegacy`: the earlier QR job.
- `RevenueCalc`: the revenue join.
- `RevenueUpsert`: the existing-record map, the update/create split and the upsert.

Points of behaviour the model keeps as the code has them:

- Unlike the QR jobs, the revenue job's batch writers return at the first failed batch; later batches are never sent.
- `processed` can be smaller than the number of eligible records. A record whose link cell yields no link, or whose preparation raises, never reaches the counters.
- A failed request on any page, not only the first, makes the listing return nothing: `[]` in the QR jobs and `{}` in the revenue job.
- The earlier QR job does not isolate failures per item. An exception while parsing the link or building the file name escapes `update_qr_code_for_records`, and no batch is sent.

## Model

| member | source | states |
|---|---|---|
| LarkData.NatToStringParses | QRcode_CK_v2.py:155 | the decimal text `str()` gives a non-negative integer reads back as that integer |
| LarkTable.ListFailsOnAnyPage | revenue_offline.py:88-104 | a failed request on any page that is fetched (all earlier pages having `has_more`) fails the whole listing |
| LarkTable.ListCollectsEveryPage | revenue_offline.py:98-101 | a listing that ends on a page without `has_more` succeeds and is exactly the items of every page fetched, concatenated in page order |
| LarkTable.ChunksAreSlices | QRcode_CK_v2.py:240-245 | there are ceil(n/500) batches, and batch k is the slice `[500k, min(500(k+1), n))` |
| LarkTable.ChunksCount | QRcode_CK_v2.py:240 | the number of batches is `(n + 500 - 1) // 500`, the `total_batches` the script reports |
| LarkTable.ChunkAt | QRcode_CK_v2.py:244-245 | batch k starts at `500k`, inside the list, and is the slice `records[500k:500k+500]` |
| LarkTable.ChunkSizes | QRcode_CK_v2.py:244-245 | every batch is non-empty and holds at most 500 records, and all but the last hold exactly 500 |
| LarkTable.ChunksCover | QRcode_CK_v2.py:244-245 | the batches concatenated in order are the input list |
| LarkTable.FirstRejected | revenue_offline.py:128-141 | the index of the first failed batch: every earlier reply is a success, and the reply there is a failure |
| LarkTable.WriteSkippingFailures | QRcode_CK_v2.py:230-262 | sends exactly the 500-slices in order (none for an empty list) and returns the sum of the accepted counts, a failed batch adding 0 |
| LarkTable.WriteStoppingAtFailure | revenue_offline.py:120-143 | sends the 500-slices in order up to and including the first failed one, and returns the accepted counts before it |
| LarkTable.StopAtMostSkip | revenue_offline.py:128-141 | the stop-at-first-failure total never exceeds the total over more batches |
| LarkTable.PoliciesAgreeWithoutFailure | revenue_offline.py:128-143 | with no failed batch, stopping sends and counts every batch, as skipping does |
| LarkTable.StopIgnoresLaterReplies | revenue_offline.py:134-141 | the replies after the first failed batch change neither the stopping point nor the total |
| LarkTable.SkipTotalPositive | revenue_offline.py:134-135 | a total is positive exactly when some counted batch returned at least one record |
| LarkTable.TwelveHundredRecords | QRcode_CK_v2.py:244-262 | 1200 records give batches of 500, 500 and 200; with the second failing, skipping counts 700 and stopping sends two batches and counts 500 |
| QrNaming.Replace | QRcode_CK_v2.py:154 | `str.replace` of one character keeps the length and maps each character |
| QrNaming.SafeName | QRcode_CK_v2.py:154 | the safe name has length min(30, len), holds the mapped character at each position, and contains no '/', '\\' or ' ' |
| QrNaming.SafeNameIdempotent | QRcode_CK_v2.py:154 | sanitising a safe name changes nothing |
| QrNaming.ReadyLink | QRcode_CK_v2.py:132-146 | a prepared item's link is the string cell itself or the `text` of the first element of a non-empty list, and it is truthy; a cell that is neither a string nor a list is skipped |
| QrNaming.ReadyFileName | QRcode_CK_v2.py:148-155 | a prepared item's file name is `{depot_id}_{safe name}_{date}.png`, where the id and name default to "unknown" and the date is "unknown" for a missing or zero timestamp; the record id is carried over |
| QrNaming.SafeNameOfUnknown | QRcode_CK_v2.py:150-154 | the default depot name is unchanged by sanitising |
| QrNaming.SafeNameOfPlain | QRcode_CK_v2.py:154 | a name of at most 30 characters with no '/', '\\' or ' ' is its own safe name |
| QrNaming.ParseLinkCases | QRcode_CK_v2.py:139-143 | a string cell is the link; a non-empty list gives the `text` of its first element, or raises when that element is not a dict; any other cell gives no link |
| QrNaming.PrepareOutcome | QRcode_CK_v2.py:128-155 | a record is skipped exactly when it is not eligible or its link is falsy; preparation raises exactly when an eligible record's link parse raises, or its link is truthy and the date or the depot name cannot be formatted; otherwise it is ready, with its record id, its link and the file name built from its three cells |
| QrNaming.DefaultFileNameOf | QRcode_CK_v2.py:149-155 | with no depot id and no depot name cell, and a missing or zero date, the file name is built from three "unknown" parts |
| QrNaming.DefaultFileName | QRcode_CK_v2.py:128-155 | an eligible record with a string link and no depot id, depot name or (non-zero) date is ready, with its record id, that link and the name `unknown_unknown_unknown.png` |
| QrNaming.UnknownFileName | QRcode_CK_v2.py:155 | the three defaults format to `unknown_unknown_unknown.png` |
| QrNaming.FileNameDependsOnThreeCells | QRcode_CK_v2.py:149-155 | two prepared records that agree on depot id, depot name and date get the same file name |
| QrRetry.RetryFromFirstSuccess | QRcode_CK_v2.py:76-107 | the retry loop returns the token of the first attempt with status 200 and upload code 0 |
| QrRetry.RetryFromNoSuccess | QRcode_CK_v2.py:76-125 | when no attempt within the bound succeeds, the loop returns None |
| QrRetry.RetryTokenIsFirstSuccess | QRcode_CK_v2.py:74-125 | the result is the first successful attempt's token, or None when none of the `max_retries` attempts succeeds |
| QrRetry.DownloadAndUploadWithRetry | QRcode_CK_v2.py:74-125 | at most `max_retries` attempts are made, every attempt before the last one made failed, the loop stops early only on a success, and the sleeps are 1, 2, … with none after the last attempt |
| QrRetry.SucceedOnLastAttempt | QRcode_CK_v2.py:76-107 | failing twice and succeeding on the third attempt makes three attempts, sleeps 1 and 2, and returns the third token |
| QrRetry.FailEveryAttempt | QRcode_CK_v2.py:76-125 | failing all three attempts makes three attempts, sleeps 1 and 2, and returns None |
| QrPipeline.EligibleRecordsExact | QRcode_CK_v2.py:186-193 | the selection keeps every record whose link cell and record id are truthy, as often as it occurs, and no other |
| QrPipeline.EligibleRecordsAppend | QRcode_CK_v2.py:186-193 | selecting from two lists one after the other gives the first list's selection followed by the second's, so the kept records stay in input order |
| QrPipeline.SelectEligible | QRcode_CK_v2.py:185-193 | the selection loop keeps the eligible records in input order |
| QrPipeline.ProgressCounters.constructor | QRcode_CK_v2.py:22 | the counters start at zero, with `processed == success + failed` |
| QrPipeline.ProgressCounters.Reset | QRcode_CK_v2.py:202-203 | resetting sets the three counters to zero |
| QrPipeline.ProgressCounters.Complete | QRcode_CK_v2.py:161-168 | one completion adds 1 to `processed` and 1 to exactly one of `success` or `failed`, keeping `processed == success + failed` |
| QrPipeline.TallyBalanced | QRcode_CK_v2.py:161-168 | over any set of records, `processed == success + failed` and `processed` is at most their number |
| QrPipeline.QrEntryShape | QRcode_CK_v2.py:173-177 | a write-back entry is `{record_id, fields: {"QR code": [{file_token}]}}` with a truthy id and token |
| QrPipeline.EntryOfSuccess | QRcode_CK_v2.py:161-177 | a record yields a write-back entry exactly when it counts as a success, and that entry is the write-back shape with its record's id and its retries' token |
| QrPipeline.EntriesAreSuccesses | QRcode_CK_v2.py:173-177 | the number of entries equals `success`, and each entry has the write-back shape and the id of one of the records |
| QrPipeline.OrderIrrelevant | QRcode_CK_v2.py:207-219 | the counters and the multiset of entries do not depend on the order in which the items complete |
| QrPipeline.ProcessSingleRecord | QRcode_CK_v2.py:128-179 | the per-record step returns that record's outcome and adds exactly that record's contribution to the counters |
| QrPipeline.CollectOne | QRcode_CK_v2.py:216-221 | one completed item adds its record's tally to the counters and appends its entry, if any, to `records_to_update` |
| QrPipeline.CollectResults | QRcode_CK_v2.py:214-221 | collecting the items in completion order adds the tally of all of them to the counters and yields their entries in that order |
| QrPipeline.ProcessRecordsConcurrently | QRcode_CK_v2.py:182-227 | with nothing eligible it returns [] and leaves the counters alone; otherwise it resets them, and the counters end as the tally of the eligible records and the result is a permutation of their entries, whatever the completion order |
| QrPipeline.RunAndReport | QRcode_CK_v2.py:182-227 | after a run, `processed == success + failed`, `processed` is at most the number of eligible records, and there are `success` entries, each of the write-back shape |
| QrLegacy.SingleAttemptIsOneRetry | QRcode_CK.py:56-79 | the single download-and-upload attempt returns what the retry loop returns with a bound of one: the token when status is 200 and the upload code is 0, otherwise None |
| QrLegacy.SelectionsDiffer | QRcode_CK.py:92-93 | the earlier selection differs from the later one exactly on records whose "QR code" cell is filled and that the later one would not skip |
| QrLegacy.RerunAfterWriteBack | QRcode_CK.py:92-93 | after a record's token is written back, the earlier job skips it on a re-run, while the later job prepares the same work item again |
| QrLegacy.SameCellsSamePreparation | QRcode_CK.py:104-110 | preparation reads only the record id and the link, depot id, depot name and date cells |
| QrLegacy.RaiseIsFinal | QRcode_CK.py:87-114 | once one record raises, the whole pass raises |
| QrLegacy.LegacyEntriesShape | QRcode_CK.py:87-120 | there are at most as many entries as records, each of the write-back shape, carrying the id of a record whose "QR code" cell was empty |
| QrLegacy.LegacyEntryOfSuccess | QRcode_CK.py:87-120 | one record raises exactly when its preparation raises; otherwise it yields at most one entry, and exactly one, `{record_id, {"QR code": [{token}]}}`, when it is prepared and its single attempt returns a truthy token |
| QrLegacy.LegacyRaisesExactly | QRcode_CK.py:87-114 | the pass raises exactly when some record's preparation raises |
| QrLegacy.LegacyEntriesWritten | QRcode_CK.py:87-120 | when the pass does not raise, `records_to_update` is, in input order, the entry of every record that is prepared and gets a truthy token, and nothing else |
| QrLegacy.WrittenCount | QRcode_CK.py:116-120 | the number of those entries is the number of positions whose record is prepared and gets a truthy token |
| QrLegacy.UpdateQrCodeForRecords | QRcode_CK.py:81-142 | an exception in any record ends the call with nothing sent; otherwise the entries in input order are written in 500-slices skipping failures, and no entries means a return of 0 with no batch sent |
| RevenueCalc.SideOfKeys | revenue_offline.py:43-47 | the subset of one type holds exactly the depots that have a row of that type |
| RevenueCalc.SideOfUnique | revenue_offline.py:43-47 | a depot's only row of a type is the one its subset holds |
| RevenueCalc.DailyRevenueKeys | revenue_offline.py:43-54 | the outer join has a row for a depot exactly when the depot has a type-1 or a type-2 bill |
| RevenueCalc.DailyRevenueFormula | revenue_offline.py:56-60 | every joined row has `revenue == money_type2 - money_type1 + returnfee_type1` and carries its depot id |
| RevenueCalc.TypeTwoSide | revenue_offline.py:49-54 | the name and `money_type2` come from the depot's type-2 row (a missing name becomes 0); with no type-2 row both are 0 |
| RevenueCalc.TypeOneSide | revenue_offline.py:49-54 | `money_type1` and `returnfee_type1` come from the depot's type-1 row; with no type-1 row both are 0 |
| RevenueCalc.OtherKindsDropped | revenue_offline.py:43-47 | rows of any type other than 1 or 2 do not change the result |
| RevenueCalc.ReturnfeeTypeTwoUnused | revenue_offline.py:49-60 | changing the returnfee of rows that are not of type 1 leaves the result unchanged |
| RevenueCalc.SixtyExample | revenue_offline.py:56-60 | type-1 money 100 with returnfee 10 and type-2 money 150 give a revenue of 60 |
| RevenueCalc.TypeOneOnlyExample | revenue_offline.py:49-60 | a depot with only a type-1 row gets name 0, `money_type2` 0 and revenue `returnfee - money` |
| RevenueUpsert.RecordDictRaises | revenue_offline.py:106-118 | building the map raises exactly when a keyed record has a list or dict as its depot id |
| RevenueUpsert.RecordDictRaiseIsFinal | revenue_offline.py:106-118 | once storing a key raises, the whole build raises |
| RevenueUpsert.RecordDictKeys | revenue_offline.py:106-113 | the keys are exactly the depot ids of the records that have the target date and a truthy depot id and record id, and every value is a truthy record id |
| RevenueUpsert.RecordDictLastWins | revenue_offline.py:113 | for a repeated depot id the last such record's id is kept |
| RevenueUpsert.PageFailureGivesEmpty | revenue_offline.py:98-104 | a failed request on any page that is fetched gives the empty map |
| RevenueUpsert.FetchAllPages | revenue_offline.py:88-104 | the paging loop collects the pages up to the first page without `has_more`, or gives nothing on a failed request |
| RevenueUpsert.BuildRecordDict | revenue_offline.py:106-115 | the loop builds the depot-id map, or raises on an unhashable depot id |
| RevenueUpsert.GetExistingRecords | revenue_offline.py:80-118 | the result is the map of the listed records, or `{}` when a page fails or a key raises |
| RevenueUpsert.SplitRows | revenue_offline.py:176-194 | the loop fills the update and create lists in row order |
| RevenueUpsert.SplitCounts | revenue_offline.py:179-194 | the update and create lists together have one entry per row |
| RevenueUpsert.SplitRouting | revenue_offline.py:191-194 | a row is an update, carrying the record id found for its depot id, exactly when its depot id is in the map; otherwise it is a create, carrying no record id |
| RevenueUpsert.FieldsOfDailyRevenue | revenue_offline.py:180-189 | the written fields hold the target date, the depot id as text, and a revenue equal to `money_type2 - money_type1 + returnfee_type1` of the written money cells |
| RevenueUpsert.ReconcileExample | revenue_offline.py:179-194 | existing {A: id1, B: id2} and rows A and C give exactly one update (A with id1) and one create (C) |
| RevenueUpsert.UpsertDataForDate | revenue_offline.py:170-208 | each list is written in 500-slices stopping at the first failed batch, and the result is true exactly when a batch counted before the stop returned a record |

## Left out

- HTTP, token acquisition, JSON decoding, BigQuery and pandas are not modelled. Each network reply is an input: a page reply, an attempt outcome, or a batch reply with its accepted count (`len(data.records)`).
- The QR jobs' listing (`get_all_records_from_lark`) is not modelled separately. Its records are an input, and the paging loop is modelled once, for the revenue job.
- Page tokens are not modelled: page i+1 is the page fetched after page i. A page with `has_more` but no `page_token` refetches the first page in the source, which the model does not capture.
- A request made past the end of an input list of replies reads as a failed request.
- QrNaming.DateText: `datetime.fromtimestamp(...).strftime` depends on the timezone. It is an input function from milliseconds to a date text. That function is total, so the error `fromtimestamp` raises on a timestamp outside the platform's range is not modelled.
- RevenueUpsert.UpsertDataForDate: the partition timestamp from `strptime(...).timestamp()` is an input.
- The rows of the outer join are an input list. pandas' row order is not modelled.
- QrPipeline.ProcessRecordsConcurrently: the thread pool, the lock and `as_completed` become a sequential pass over an input completion order that is a permutation of the eligible records. Interleavings within one item are not modelled.
- QrRetry.DownloadAndUploadWithRetry: `time.sleep` is not modelled; the delays are returned as a list. Timeouts and other exceptions are one failed attempt, since they differ only in what is printed.
- The network input gives one list of attempt outcomes per record value, so two identical records see the same outcomes.
- An upload reply without a `code` counts as a non-zero code. A missing `file_token` is `None`.
- LarkData.Display: `str()` of a list or dict cell is a placeholder, not Python's `repr`.
- RevenueCalc.DailyRevenue: several rows of one type for a depot keep the last one. pandas would produce their cartesian product. The lemmas about the sides assume at most one row per depot and type.
- Money is integral. `to_numeric(errors='coerce')`, the float arithmetic and `round(0).astype(int)` are not modelled.
- A null or NaN depot id in the bill rows is not modelled. The depot id is compared as a value, and written as its `str()`.
- RevenueUpsert.RecordDict: Python's `True == 1` key equality is not modelled. A bool and an int depot id are different keys.
- `fields` is always a dict in the model. A record whose `fields` is present but null makes `fields.get` raise (QRcode_CK_v2.py:187, QRcode_CK.py:89), which the model does not capture.
- JSON floats are not modelled: a decoded number is an integer.
- Printing, progress lines, `main`, the date loop and the hard-coded configuration are not modelled.
