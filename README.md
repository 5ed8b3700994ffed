# MoMo SMS transactions — a Dafny model of the core

The MoMo SMS system turns an export of mobile-money SMS notifications into
transaction records and serves them over a small REST API. This project
models its three core components and proves properties of them:

- **Extraction and processing** (`etl/parse_xml.py`). `SMSTransactionParser`
  takes the ingested `<sms>` records in document order. It classifies every
  message from the `M-Money` channel with four regular-expression rules, tried
  in a fixed order: money received, payment, transfer, bank deposit. Amounts
  are converted with `float(capture.replace(',', ''))` and party names with
  `strip()`. The first rule that matches fills in the record. Messages no rule
  matches are dropped. Every emitted record gets the next id of a counter that
  starts at 1, a timestamp derived from the message date, and status
  `completed`. Modules: `PyText` (`text.dfy`), `Extraction`
  (`extraction.dfy`) and `Pipeline` (`pipeline.dfy`).
- **Lookup strategies** (`dsa/algorithms.py`). `DSAPerformanceAnalyzer`
  finds a transaction by id in four ways:
  - a linear scan;
  - an id → record dictionary;
  - binary search over a copy sorted by id;
  - linear probing that starts at `id mod n`.

  It then benchmarks the four over a list of test ids and writes a report:
  per-algorithm times, total, average, minimum and maximum, the fastest
  algorithm, speedup ratios against the linear scan, and recommendations.
  Modules: `Dsa` (`algorithms.dfy`), `Lookup` (`lookup.dfy`, the shared
  specifications of "first record with id k", "the map a loop over the list
  builds" and "sorted by key") and `Stats` (`stats.dfy`).
- **Transaction store** (`api/rest_api.py`). `SMSDataProcessor` keeps a list
  of records and an id → record dictionary, and keeps the two in step through
  add, update and delete. `POST /transactions` checks the required fields
  before adding. Module: `Store` (`store.dfy`).

`Wrappers` (`wrappers.dfy`) holds the `Option` and `Result` types. A raised
Python exception (`ValueError`, `ZeroDivisionError`) is a `Failure`.

Two points where the code behaves differently from what one would expect:

- **Ids are reused.** `add_transaction` (api/rest_api.py:111) generates a
  new id as `max(ids, default=0) + 1`. After the record with the largest id
  is deleted (api/rest_api.py:138-141), that id is handed out again, to a
  different transaction. The model follows the code and proves the reuse
  (`Store.IdReusedAfterDeletingMax`).
- **Timestamp fallback.** The code's fallback for a message without a usable
  date is not what its `else` branches spell out. See "Findings".

## Model

| member | source | states |
|---|---|---|
| PyText.ParseFloat | etl/parse_xml.py:93 | `float(s)` on a digit capture: it succeeds exactly on non-empty all-digit strings, with a value in `[0, 10^len)`. Otherwise it fails with `could not convert` naming the string. |
| PyText.DigitsValue | etl/parse_xml.py:73 | The value `float` gives on a string of ASCII digits, read left to right. It is below 10 to the string's length. `PyText.DigitsValueConcat` shows how it splits at a comma. |
| PyText.DigitsValueConcat | etl/parse_xml.py:73 | The value of `a + b` is the value of `a` shifted by the length of `b`, plus the value of `b`. |
| PyText.StripCommas | etl/parse_xml.py:73 | `replace(',', '')` leaves no comma and never lengthens the string. |
| PyText.StripCommasConcat | etl/parse_xml.py:73 | Removing commas distributes over concatenation. |
| PyText.StripCommasDigits | etl/parse_xml.py:89 | On a `[\d,]+` capture, removing commas leaves only digits. The result is empty iff the capture is all commas. |
| PyText.ParseAmount | etl/parse_xml.py:73 | `float(c.replace(',', ''))`, the conversion every amount capture goes through. Its properties are proved in the next three rows. |
| PyText.ParseAmountFailsIffNoDigit | etl/parse_xml.py:89-92 | `float(c.replace(',', ''))` on a `[\d,]+` capture raises iff the capture has no digit. A value it produces is never negative. |
| PyText.ParseAmountThousands | etl/parse_xml.py:73-76 | A thousands separator is ignored: `a,b` converts to the value of the digit string `ab`, which is `value(a) * 10^len(b) + value(b)`. |
| PyText.ParseAmountExample | etl/parse_xml.py:73 | `"1,234"` converts to `1234.0`. |
| PyText.TrimStart | etl/parse_xml.py:75 | `lstrip`: a suffix of the input, preceded only by whitespace and not starting with whitespace. |
| PyText.TrimEnd | etl/parse_xml.py:75 | `rstrip`: a prefix of the input, followed only by whitespace and not ending with whitespace. |
| PyText.Strip | etl/parse_xml.py:75 | `s.strip()` as `rstrip(lstrip(s))`. Partners: `PyText.StripIsTrimmedSlice` and `PyText.StripIdempotent`. |
| PyText.StripIsTrimmedSlice | etl/parse_xml.py:75 | `strip()` returns the slice of the input between its leading and trailing whitespace. The slice neither starts nor ends with whitespace. |
| PyText.StripUntrimmed | etl/parse_xml.py:91 | Stripping a string with no whitespace at either end changes nothing. |
| PyText.StripIdempotent | etl/parse_xml.py:106 | `strip(strip(s)) == strip(s)`. |
| Extraction.DefaultInfo | etl/parse_xml.py:54-64 | The record every extraction starts from: type `unknown`, amounts 0, currency `RWF`, empty parties and reference, and the message body. `Extraction.ExtractTransactionInfo` returns it as is when no rule matches. |
| Extraction.WellFormed | etl/parse_xml.py:67-113 | The capture shapes the four patterns admit: `\d+(?:,\d+)*`, `[\d,]+` and `\d+` for the numeric groups. `Extraction.ConversionFailsOnlyOnCommaCaptures` assumes it. |
| Extraction.ApplyReceive | etl/parse_xml.py:70-79 | The receive rule keeps the message and sets type `receive`. Its amounts are never negative. |
| Extraction.ApplyPayment | etl/parse_xml.py:85-95 | The payment rule keeps the message and sets type `payment`. Amount, balance and fee are never negative. |
| Extraction.ApplyTransfer | etl/parse_xml.py:100-110 | The transfer rule keeps the message and sets type `transfer`. Amount, balance and fee are never negative. |
| Extraction.ApplyDeposit | etl/parse_xml.py:115-125 | The deposit rule keeps the message and sets type `deposit`, sender `Bank` and receiver `Self`. Its amounts are never negative. |
| Extraction.ExtractTransactionInfo | etl/parse_xml.py:49-127 | The result is None iff the body is missing or empty. A body no rule matches gives the default `unknown` record. A raised error needs a matching rule. An extracted record keeps the body, has non-negative amounts, and is `unknown` iff no rule fired; a deposit names `Bank` and `Self`. |
| Extraction.FirstFiring | etl/parse_xml.py:66-125 | Finds the first rule in priority order whose pattern matches: none iff no rule matches. |
| Extraction.ExtractFollowsRuleOrder | etl/parse_xml.py:66-127 | The if-ladder equals the reference "apply the first rule of the priority list received, payment, transfer, deposit that matches, else the default". |
| Extraction.LaterRulesNeverConsulted | etl/parse_xml.py:66-125 | First match wins. Once rule i matches, matcher sets that agree on rules 0..i give the same result, whatever the later patterns match. |
| Extraction.ExtractedParties | etl/parse_xml.py:70-125 | The record's type names the rule that fired. Its sender or receiver is that rule's capture with `strip()` applied; for a deposit they are `Bank` and `Self`. |
| Extraction.ConversionFailsOnlyOnCommaCaptures | etl/parse_xml.py:82-121 | With captures of the shapes the patterns admit, extraction raises iff the winning rule is not the receive rule and one of its `[\d,]+` captures is all commas. The error then names the empty string. |
| Extraction.ReceivedExampleExtraction | etl/parse_xml.py:66-79 | A concrete money-received message yields amount 1000.0 and balance 5000.0, the stripped sender name and the reference number. |
| Pipeline.TimestampAsWritten | etl/parse_xml.py:141-150 | The timestamp as the code computes it: the ISO form of a convertible date, else the stored `readable_date`, which is null when that attribute is missing. |
| Pipeline.FormatTimestamp | etl/parse_xml.py:141-150 | The fallback chain the branches spell out: ISO date, else readable date, else the raw date after a failed conversion, else `''`. |
| Pipeline.TimestampFallbackAgreement | etl/parse_xml.py:141-150 | The timestamp as written agrees with the spelled-out fallback chain whenever a readable date exists or the date converts. |
| Pipeline.TimestampAsWrittenCanBeNull | etl/parse_xml.py:150 | A message with neither `date` nor `readable_date` gets a null timestamp. |
| Pipeline.TimestampAsWrittenDropsRawDate | etl/parse_xml.py:147 | An unconvertible date with no readable date gives null, not the raw date. |
| Pipeline.ExtractCarriesBody | etl/parse_xml.py:54-64 | Every record the extractor returns carries the body it came from. |
| Pipeline.Build | etl/parse_xml.py:152-165 | The transaction record: the counter's id, the extracted fields, the timestamp, status `completed` and the message body. |
| Pipeline.Classify | etl/parse_xml.py:136-139 | A message raises iff it is from `M-Money` and its extraction raises. It produces a record iff it is from `M-Money` and extraction gives a non-`unknown` record, which is then the record used. |
| Pipeline.Emit | etl/parse_xml.py:129-170 | The reference run: messages in order, each kept one built with the next id, and the first extraction error ends the run. Partners: `Pipeline.EmitFailsIff`, `Pipeline.EmitBuilds` and `Pipeline.EmittedIds`. |
| Pipeline.EmitFailsIff | etl/parse_xml.py:134-139 | The run fails iff extracting some `M-Money` message raises. |
| Pipeline.KeepFlags | etl/parse_xml.py:134-139 | One flag per message: set iff the message produces a record. |
| Pipeline.KeptFrom | etl/parse_xml.py:134-139 | The positions it lists are in range and each produces a record. |
| Pipeline.KeptFromComplete | etl/parse_xml.py:134-139 | The kept positions ascend, and every message that produces a record is among them. |
| Pipeline.EmitBuilds | etl/parse_xml.py:129-168 | A successful run emits exactly one record per kept message, in document order. The i-th record has id `first + i` and is built from its message's extraction. |
| Pipeline.EmitExact | etl/parse_xml.py:152-168 | Each emitted record has id `firstId + i` (the counter starts at 1), status `completed` and a known type. It comes from an `M-Money` message and carries that message's body. |
| Pipeline.EmittedIds | etl/parse_xml.py:132-168 | The emitted ids are 1, 2, …, k, so they are unique and ascending. |
| Pipeline.SMSTransactionParser.constructor | etl/parse_xml.py:12-18 | The parser holds the ingested records in document order and no transactions. |
| Pipeline.SMSTransactionParser.ProcessSmsToTransactions | etl/parse_xml.py:129-172 | The loop returns exactly the reference run `Emit` over the records. `transactions` is updated only when the run succeeds. Timestamps follow the corrected fallback (see "Left out"). |
| Stats.Sum | dsa/algorithms.py:145 | The running total `total_time += t` over the times, left to right. `Stats.SumAppend` and `Stats.MeanBetweenMinAndMax` state its properties. |
| Stats.Min | dsa/algorithms.py:174 | `min(times)` is a member of the list and no larger than any element. |
| Stats.Max | dsa/algorithms.py:175 | `max(times)` is a member of the list and no smaller than any element. |
| Stats.SumAppend | dsa/algorithms.py:145 | Appending a time adds it to the running total. |
| Stats.MeanBetweenMinAndMax | dsa/algorithms.py:173-175 | The average of a non-empty list lies between its minimum and maximum. |
| Lookup.FirstIndex | dsa/algorithms.py:65-67 | The first position holding the key: none iff no record has it, and no earlier record has it. |
| Lookup.FirstWith | dsa/algorithms.py:58-71 | The first record in list order with the key, as the linear scan returns it (defined through `Lookup.FirstIndex`). |
| Lookup.LastIndex | api/rest_api.py:51-52 | The last position with the key: None iff no record has it, otherwise a position with the key and no later one. |
| Lookup.LastWith | api/rest_api.py:51-52 | The last record with the key, the one a dictionary filled from the list keeps. `Lookup.IndexByIsLast` is the connection. |
| Lookup.IndexBy | dsa/algorithms.py:44-45 | The dictionary `for tx in list: d[tx['id']] = tx` builds. Partners: `Lookup.IndexByKeys` and `Lookup.IndexBySnoc`. |
| Lookup.IndexByKeys | dsa/algorithms.py:44-45 | The dictionary the loop builds has the list's ids as keys. Each id maps to the last record with that id. |
| Lookup.IndexBySnoc | dsa/algorithms.py:44-45 | Each loop step overwrites its id's entry. |
| Lookup.IndexByIsLast | api/rest_api.py:51-52 | For every list, repeated keys included, looking a key up in the built dictionary gives the last record with it. |
| Lookup.IndexAgreesWithScan | dsa/algorithms.py:73-83 | With unique ids, a dictionary lookup returns what the linear scan returns. |
| Lookup.UniqueMemberIsFirst | dsa/algorithms.py:121-123 | With unique ids, a record found anywhere with id k is the one the scan finds. |
| Lookup.InsertBy | dsa/algorithms.py:48 | Inserting adds exactly one element, as a multiset. |
| Lookup.SortBy | dsa/algorithms.py:48 | The sorted copy has the original's length. |
| Lookup.SortByCorrect | dsa/algorithms.py:48 | `sorted(key=id)` is ascending by id and a permutation of the list. |
| Lookup.SortBySortedIsIdentity | dsa/algorithms.py:48 | Sorting a list already sorted by id leaves it unchanged. |
| Lookup.SortedCopyAgrees | dsa/algorithms.py:92-108 | With unique ids, a record found in the sorted copy is the one the scan finds. An id absent from the sorted copy is absent from the list. |
| Lookup.Without | api/rest_api.py:138 | `[tx for tx in list if tx['id'] != id]`. Partners: the `Lookup.Without…` rows below. |
| Lookup.WithoutMembers | api/rest_api.py:138 | The filtered list holds exactly the records whose id differs. |
| Lookup.WithoutConcat | api/rest_api.py:138 | Filtering distributes over concatenation, so order is kept. |
| Lookup.WithoutAbsent | api/rest_api.py:138 | Filtering out an absent id changes nothing. |
| Lookup.IndexByWithout | api/rest_api.py:138-141 | Filtering an id out of the list removes exactly that key from the dictionary built from it. |
| Lookup.WithoutUnique | api/rest_api.py:138 | Filtering keeps ids unique. |
| Lookup.WithoutIndices | api/rest_api.py:138 | Two records of the filtered list appear in the original in the same order. |
| Lookup.ReplaceKeepsUnique | api/rest_api.py:123-126 | Replacing a record by one with the same id keeps ids unique. |
| Lookup.IndexByReplace | api/rest_api.py:123-129 | Replacing a record by one with the same id changes the dictionary only at that id. |
| Lookup.IndexByReplaceAt | api/rest_api.py:123-129 | For every list: replacing the last record with a key rewrites that key's entry, and replacing an earlier one leaves the dictionary unchanged. |
| Dsa.Rank | dsa/algorithms.py:134-139 | Each algorithm's position among the results keys. |
| Dsa.Probe | dsa/algorithms.py:118-122 | Every probe slot is in `[0, n)`. |
| Dsa.ProbeReaches | dsa/algorithms.py:118-122 | Probing from any start reaches every slot within n probes. |
| Dsa.ProbesDistinct | dsa/algorithms.py:118-122 | The first n probes visit n different slots. |
| Dsa.Times | dsa/algorithms.py:141-144 | The recorded times are the elapsed time of each test id, in test-id order. |
| Dsa.CountFound | dsa/algorithms.py:146-147 | The success count never exceeds the number of test ids. |
| Dsa.CountFoundAll | dsa/algorithms.py:146-147 | When every test id is present, the success count is the number of test ids. |
| Dsa.Tally.Add | dsa/algorithms.py:141-168 | One pass of the benchmark loop for one algorithm: append the time, add it to the total, and count a success if found. `Dsa.GatheredStep` ties it to `Dsa.Gathered`. |
| Dsa.Gathered | dsa/algorithms.py:134-168 | The per-algorithm accumulators after the loop: the times in test-id order, their sum and the success count. `Dsa.GatheredStep` and `Dsa.ComparedFigures` state its properties. |
| Dsa.GatheredStep | dsa/algorithms.py:141-168 | Each test id appends its time, adds it to the total, and counts a success iff the id is present. |
| Dsa.Summarize | dsa/algorithms.py:170-179 | Adds average, minimum and maximum to an algorithm's figures, all 0 when there are no times. Partner: `Dsa.SummarizeFigures`. |
| Dsa.SummarizeFigures | dsa/algorithms.py:170-179 | With no times, average, minimum and maximum are 0. Otherwise average × count is the total, min and max are members bounding every time, and min ≤ average ≤ max. |
| Dsa.Compared | dsa/algorithms.py:130-181 | The reference comparison: each algorithm's gathered figures, summarized. Partner: `Dsa.ComparedFigures`. |
| Dsa.ComparedFigures | dsa/algorithms.py:141-179 | Each algorithm's figures: one time per test id, total = sum, successes = ids present, min ≤ average ≤ max. |
| Dsa.Fastest | dsa/algorithms.py:190 | The algorithm with the least average. Ties go to the first in declaration order. |
| Dsa.SpeedupRatios | dsa/algorithms.py:193-200 | Fails iff some algorithm's average is 0 while the linear average is positive. Otherwise ratio = linear average / own average, and all ratios are 1 when the linear average is not positive. The linear ratio is always 1. |
| Dsa.Fired | dsa/algorithms.py:226-254 | The messages of the four advice rules that fire, checked in source order. Partners: `Dsa.FiredMembers` and `Dsa.FiredInOrder`. |
| Dsa.FiredMembers | dsa/algorithms.py:226-254 | A rule's message is among the fired ones iff its threshold is exceeded. The default message never is. |
| Dsa.FiredInOrder | dsa/algorithms.py:226-254 | The fired messages come in the order the rules are checked. |
| Dsa.Recommendations | dsa/algorithms.py:224-259 | Never empty. Each message appears iff its threshold is exceeded (dictionary > 10, binary > 2, hash > 5, more than 1000 transactions). The messages come in rule order. The default message appears only alone, and it does iff no rule fires. These clauses fix the list uniquely. |
| Dsa.DefaultTestIds | dsa/algorithms.py:274-276 | The ids of the first ten transactions (fewer if there are fewer), in list order. |
| Dsa.DefaultIdsAllFound | dsa/algorithms.py:274-276 | Every default test id is found. |
| Dsa.IndexById | dsa/algorithms.py:44-45 | The loop builds exactly the dictionary `IndexBy` specifies. |
| Dsa.Loaded | dsa/algorithms.py:34-56 | The transactions `load_data` ends with: the parser's output, or none when processing raised. |
| Dsa.DSAPerformanceAnalyzer.constructor | dsa/algorithms.py:26-56 | Holds the parser's output (none when processing raised), with unique ids, the dictionary built from it and the sorted copy. |
| Dsa.DSAPerformanceAnalyzer.LinearSearch | dsa/algorithms.py:58-71 | Returns the first transaction in list order with the id. |
| Dsa.DSAPerformanceAnalyzer.DictionaryLookup | dsa/algorithms.py:73-83 | Finds something iff the id is a key. In a loaded analyzer it returns what the scan finds. |
| Dsa.DSAPerformanceAnalyzer.BinarySearch | dsa/algorithms.py:85-108 | A returned record is in the sorted copy with the id. On a sorted copy, None means no record has the id. In a loaded analyzer it returns what the scan finds. |
| Dsa.DSAPerformanceAnalyzer.HashTableSearch | dsa/algorithms.py:110-128 | A returned record is in the list with the id, and None iff no record has the id. With unique ids it returns what the scan finds. |
| Dsa.DSAPerformanceAnalyzer.CompareAlgorithms | dsa/algorithms.py:130-181 | The benchmark loop's figures equal the reference comparison `Compared` (see `ComparedFigures`). |
| Dsa.DSAPerformanceAnalyzer.GenerateRecommendations | dsa/algorithms.py:224-259 | The messages equal `Recommendations` for the ratios and the transaction count. |
| Dsa.DSAPerformanceAnalyzer.GeneratePerformanceReport | dsa/algorithms.py:183-222 | Fails iff the speedup ratios divide by zero. Otherwise the report holds the count, the ids, the comparison, the fastest algorithm, the ratios and the recommendations. |
| Dsa.RunDsaAnalysis | dsa/algorithms.py:261-278 | Reports on the given ids, or on the first ten when none or an empty list are given. It fails iff the speedup ratios divide by zero. Otherwise the whole report is fixed: count, ids, comparison, fastest algorithm, ratios and recommendations. With the default ids every algorithm finds every id. |
| Store.MaxId | api/rest_api.py:111 | `max(ids, default=0)`: 0 on an empty list, otherwise an id of the list no smaller than any other. |
| Store.NextId | api/rest_api.py:111 | `max(ids, default=0) + 1`. Partners: `Store.MaxId`, `Store.NextIdAfterDeletingMax` and `Store.IdReusedAfterDeletingMax`. |
| Store.Merge | api/rest_api.py:125 | `tx.update(data)`: the given keys overwrite the record's, the others are kept. |
| Store.FromTransaction | etl/parse_xml.py:152-165 | The JSON object written for one transaction, with its id and the other keys. |
| Store.Snapshot | etl/parse_xml.py:152-165 | One JSON object per transaction, in order. |
| Store.ParsedSnapshotIsUnique | api/rest_api.py:44-52 | A store loaded from the parser's output has unique ids. |
| Store.UpdateFirst | api/rest_api.py:123-126 | The list after the update loop: the first record with the id merged with the data, every other record unchanged. Partners: `Store.MergeFirst` (the loop) and `Store.UpdateSharedUnique` (with unique ids it is the whole update). |
| Store.MergeFirst | api/rest_api.py:123-126 | The list loop merges `data` into the first record with the id and leaves the others. |
| Store.UpdateShared | api/rest_api.py:119-129 | The list after an update: the loop merges the first record with the id, and the dictionary's record, which is the list's last one with the id, is merged too. Partners: `Store.UpdateSharedIndex`, `Store.UpdateSharedUnique`, `Store.UpdateSharedRepeated` and `Store.UpdateWithNothing`. |
| Store.UpdateSharedIndex | api/rest_api.py:119-129 | For every list, repeated ids included: the dictionary built from the updated list is the old one with that id's record merged. |
| Store.UpdateSharedUnique | api/rest_api.py:123-126 | With unique ids only the first record with the id changes, and ids stay unique. |
| Store.UpdateSharedRepeated | api/rest_api.py:51-52 | When a loaded list repeats an id, both the first and the last record with it take the update, and a record between them does not. |
| Store.UpdateSharedKeeps | api/rest_api.py:119-129 | An update keeps the dictionary in step with the list and keeps ids unique. An empty update changes nothing. |
| Store.UpdateWithNothing | api/rest_api.py:125 | An empty update leaves the list unchanged. |
| Store.FirstMissing | api/rest_api.py:304-308 | None iff every required field is present. Otherwise the first absent field in check order. |
| Store.NextIdAfterDeletingMax | api/rest_api.py:111-141 | After the largest id is deleted, the next id is at most the deleted one. |
| Store.IdReusedAfterDeletingMax | api/rest_api.py:111-141 | On ids 1..n, deleting n and adding hands out n again. |
| Store.SMSDataProcessor.constructor | api/rest_api.py:27-59 | Holds the loaded snapshot (empty when loading raised), with the dictionary built from it. |
| Store.SMSDataProcessor.KeysAreListIds | api/rest_api.py:51-52 | In a valid store the dictionary's keys are the list's ids, each mapped to a list record with that id. |
| Store.SMSDataProcessor.LinearSearch | api/rest_api.py:61-71 | Returns the first record in list order with the id. |
| Store.SMSDataProcessor.DictionaryLookup | api/rest_api.py:73-80 | In a valid store: None iff no record has the id, and otherwise the last list record with the id, which is what `transaction_dict.get(id)` holds. With unique ids that is what the scan finds. |
| Store.SMSDataProcessor.GetAllTransactions | api/rest_api.py:82-84 | Returns the list in its order. |
| Store.SMSDataProcessor.GetTransactionById | api/rest_api.py:86-106 | The two searches' found flags agree in a valid store. The returned record is the last list record with the id, and with unique ids the one the scan finds. |
| Store.SMSDataProcessor.AddTransaction | api/rest_api.py:108-117 | The new id is larger than every existing id. The record is appended and entered in the dictionary, and validity and uniqueness are kept. |
| Store.SMSDataProcessor.UpdateTransaction | api/rest_api.py:119-132 | An unknown id gives None and changes nothing. Otherwise the merged dictionary record is returned and the list becomes `Store.UpdateShared`: the first and the last record with the id are merged, which is just the first when ids are unique. Validity is kept whether ids repeat or not, and uniqueness is kept. |
| Store.SMSDataProcessor.DeleteTransaction | api/rest_api.py:134-144 | An unknown id gives None and changes nothing. Otherwise every record with the id leaves the list (order kept) and the dictionary, and validity and uniqueness are kept. |
| Store.SMSDataProcessor.CreateTransaction | api/rest_api.py:296-327 | A body lacking a required field is rejected with the first missing one and the store is unchanged. Any other body is added. |

## Left out

- XML parsing (`parse_xml`), JSON reading and writing (`save_to_json`, the snapshot load in `load_data`): the ingested records and the loaded snapshot are parameters (`Option<seq<Record>>`, None when loading raised).
- The regular-expression engine: each pattern is a field of `Matchers` mapping a body to its capture groups. `Extraction.WellFormed` states the capture shapes the patterns admit.
- `datetime.fromtimestamp(int(d) / 1000).isoformat()`: a caller-supplied `toIso` function, None when conversion raises.
- `time.time()`: the elapsed time of each algorithm on each test id is a caller-supplied function.
- The HTTP server, request routing, Basic authentication, JSON encoding of responses, `print` output and `main`.
- Floating point: amounts, times, averages and ratios are exact reals, so rounding and overflow to `inf` are not modelled.
- Unicode: only ASCII digits are modelled, and only the whitespace up to U+00FF (`\t`–`\r`, U+001C–U+001F, space, U+0085, U+00A0). Python's `\d` and `float` also accept other Unicode digits, and `strip` removes the Unicode spaces above U+00FF as well.
- PyText.ParseFloat: models `float` only on strings of ASCII digits. Signs, decimal points, exponents, surrounding whitespace and `inf`/`nan` are treated as errors. The patterns capture only `\d` and `,`, so this matters only for matchers outside `Extraction.WellFormed`.
- Aliasing of Python dicts: the list and the dictionary hold record values, not shared objects. The one sharing the store relies on is modelled: the dictionary's record is the list's last record with its id (api/rest_api.py:51-52, 114-115). So an update writes the merged record into both places (`Store.UpdateShared`).
- The `algorithm_complexity` strings of the report and the timing fields of `get_transaction_by_id`.
- Broad `except` clauses beyond their effect: a load that raises leaves the structures empty.
- Pipeline.SMSTransactionParser.ProcessSmsToTransactions: the emitted timestamp is the corrected fallback `Pipeline.FormatTimestamp`, not the code's `Pipeline.TimestampAsWritten`. The two differ only for a message without a readable date whose date is missing, empty or does not convert. There the code stores null (etl/parse_xml.py:148 and 150), while the model stores the raw date or `''` (see "Findings"). The same holds for `Pipeline.Build`, `Pipeline.Emit` and `Store.Snapshot`, which are built on it.
- Pipeline.SMSTransactionParser.ProcessSmsToTransactions: the extractor enters the run as a function value (`Pipeline.Extract(m)`). The reference run `Emit` and its lemmas are stated for any extractor.
- Store.SMSDataProcessor.UpdateTransaction: requires that `data` has no `id` key. With one, `tx.update(data)` would rename the record while the dictionary keeps the old key.
- Dsa.DSAPerformanceAnalyzer.CompareAlgorithms: requires the analyzer invariant `Valid()`. The constructor establishes it and no method changes the analyzer afterwards.
- Dsa.DSAPerformanceAnalyzer.GeneratePerformanceReport: requires `Valid()` for the same reason.
- Dsa.DSAPerformanceAnalyzer.BinarySearch: "None means absent" is stated for a sorted copy, which the analyzer always holds.
- Dsa.DSAPerformanceAnalyzer.CompareAlgorithms: the success tests `if result:` (dsa/algorithms.py:146, 153, 160, 167) are modelled as "a record was found" (`Dsa.CountFound`). A found record is a non-empty dict and so is truthy.

## Findings

| source | as written | input that shows it | evidently intended | confidence | as-written member | corrected member |
|---|---|---|---|---|---|---|
| etl/parse_xml.py:141-150 | The record always has the key `readable_date` (None when the attribute is missing). So `sms.get('readable_date', default)` never returns its default. | An `M-Money` message with neither `date` nor `readable_date` gets a null timestamp instead of `''`. An unconvertible `date` with no `readable_date` gets null instead of the raw date. | Fall back to the readable date, else the raw date (after a failed conversion), else `''`. | medium, not executed | Pipeline.TimestampAsWritten (shown by Pipeline.TimestampAsWrittenCanBeNull and Pipeline.TimestampAsWrittenDropsRawDate) | Pipeline.FormatTimestamp (agreement proved in Pipeline.TimestampFallbackAgreement; used by Pipeline.Build) |
