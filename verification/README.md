# AP payment recommender — a verified Dafny model

This project models the decision logic of an accounts-payable recommender.

1. It flattens a QuickBooks "Aged Payable Detail" report into a ledger of bills.
2. It filters the ledger to candidate bills: vendors not excluded, type "Bill", an amount present, dated after 2024-01-01.
3. It ranks the candidates: bills 45 or more days past due first, then by vendor priority, then by due date.
4. It allocates a weekly budget and a per-vendor budget greedily over those candidates.
5. It summarises the payments per vendor.
6. It repeats this for each budget period of the configuration workbook, never recommending a document twice.
7. It also models the `.env` rewrite used to store a refreshed access token.

Modules follow the program's structure:

- `Report`: report flattening.
- `Ledger`: coercion, normalisation, filters and the priority merge.
- `Ordering`: the three-column stable sort.
- `Grouping`: the vendor keys of `groupby`.
- `Allocation` and `Totals`: the greedy allocation loop and what its running totals mean.
- `Summary`: the per-vendor summary.
- `Recommend`: `filter_and_recommend` end to end.
- `Config`: the workbook checks and row selection.
- `Periods`: the per-period loop of `main.py`.
- `EnvFile`: `update_env_file`.
- `Wrappers`, `Seqs` and `Text`: small shared helpers.

Where the code and its comments or documentation disagree, the model follows the code:

- `groupby("Vendor")` sorts its keys. Vendors are therefore visited in ascending order of normalised name, not in priority order. Rows with no vendor are dropped.
- `filtered_df.get("priority", 0)` returns the merged column whenever the Vendors sheet has a "priority" column. A vendor absent from that sheet therefore gets a *missing* priority, which sorts last; it does not get 0. Only a sheet with no "priority" column gives every row 0.
- A payment of zero or less ends that vendor's pass. The vendor's later bills are skipped.
- The left merge keeps one row per matching Vendors-sheet row. A vendor listed twice therefore duplicates its bills, and a missing vendor matches a missing vendor.

Dates are day numbers, counted as days since 1970-01-01; 2024-01-01 is day 19723. Money is an exact `real`, and so is a vendor priority, which the Vendors sheet may give as a fractional number. The text-to-date and text-to-number parsers are a parameter (`Ledger.Parsers`) that returns a missing value for text it cannot parse.

## Model

| member | source | states |
|---|---|---|
| Report.Flatten | AP_Calc.py:49-70 | Fails with the IndexError case exactly when some section's `Header.ColData` is an empty list; otherwise its result is the frame of the collected lines. |
| Report.LinesMember | AP_Calc.py:56-63 | A collected line is exactly a section's category followed by the values of one of that section's rows typed exactly "Data". The category is the first header value, or "No Category". |
| Report.LinesAppend | AP_Calc.py:56-63 | Lines follow section order: the lines of two concatenated section lists are the first list's lines followed by the second's. |
| Report.RowLinesAppend | AP_Calc.py:58-63 | Within a section, lines follow row order. |
| Report.LinesCount | AP_Calc.py:58-63 | Exactly one line per "Data" row nested in a section. |
| Report.Frame | AP_Calc.py:65-70 | The DataFrame is built exactly when there are no lines or the widest line holds nine values. It has one record per line, keeping the category. Column k of a record (Date, Transaction Type, Doc Num, Vendor, Due Date, Past Due, Amount, Open Balance) holds value k of its line, or a missing value past the line's end. Otherwise the error reports the width. |
| Text.Strip | AP_Calc.py:85 | The result is a contiguous slice of the input; everything cut on either side is whitespace; the result neither starts nor ends with whitespace. |
| Text.StripIdempotent | AP_Calc.py:85 | Stripping twice is stripping once. |
| Text.LowerStripCommute | AP_Calc.py:84-85 | Lower-casing and stripping commute. |
| Text.LexLessTransitive | AP_Calc.py:140 | The string order used for the group keys is transitive. |
| Text.LexLessTotal | AP_Calc.py:140 | Any two different names are ordered one way or the other. |
| Text.LexLessAsymmetric | AP_Calc.py:140 | The name order is asymmetric. |
| Ledger.Coerce | AP_Calc.py:93-97 | Coercion keeps the vendor, type and document number; a missing amount or date stays missing. |
| Ledger.NormalizeNameIdempotent | AP_Calc.py:84-85 | Normalising a vendor name twice is normalising it once. |
| Ledger.FilteredMember | AP_Calc.py:83-101 | A bill survives the filters iff it is the coerced, normalised form of a ledger row that passes every test: vendor not excluded, type "Bill", amount present, date after 2024-01-01. |
| Ledger.PassedMember | AP_Calc.py:84-92 | The rows reaching coercion are exactly the normalised ledger rows of type "Bill" whose vendor is not excluded. |
| Ledger.Filtered | AP_Calc.py:83-101 | Every surviving bill has a vendor not excluded, type "Bill", an amount, and a date after the cutoff; there are no more bills than ledger rows. |
| Ledger.FilteredNormalized | AP_Calc.py:85 | Filtering a ledger whose vendors were already normalised in place gives the same bills. |
| Ledger.MergeRow | AP_Calc.py:103-109 | One candidate per matching Vendors row, or one when none matches, each with the urgency flag of `Past Due >= 45`. Priority is 0 everywhere when the sheet has no priority column, missing for an unmatched vendor, else the matching row's value. |
| Ledger.AbsentVendorHasNoPriority | AP_Calc.py:107-109 | A vendor missing from a sheet with a priority column gets a missing priority, not 0. |
| Ledger.Merge | AP_Calc.py:103-107 | Every merged candidate carries one of the filtered bills and its correct urgency flag. |
| Ledger.MergeCovers | AP_Calc.py:107 | The left merge loses no bill. |
| Ledger.MergeUnique | AP_Calc.py:107 | When each vendor is listed at most once, the merge pairs each bill with exactly one candidate, position for position. |
| Ledger.MergeNormalized | AP_Calc.py:106 | Normalising the vendor sheet in place does not change the merge. |
| Ordering.Before | AP_Calc.py:110-114 | The sort-key order is strict: an urgent key comes before a non-urgent one; at equal urgency a present, higher priority comes first; at equal urgency and priority a present, earlier due date comes first. |
| Ordering.BeforeTransitive | AP_Calc.py:110-114 | The sort-key order is transitive. |
| Ordering.BeforeTotal | AP_Calc.py:110-114 | Any two sort keys are equal or ordered one way or the other. |
| Ordering.Sort | AP_Calc.py:110-114 | The sort is a permutation of its input and leaves no later row ranked strictly before an earlier one. |
| Ordering.SortStable | AP_Calc.py:110-114 | Rows tying on all three columns keep their input order. |
| Ordering.UrgentFirst | AP_Calc.py:110-114 | Urgent rows precede non-urgent ones. |
| Ordering.HigherPriorityFirst | AP_Calc.py:110-114 | At equal urgency, a higher priority, or a present one over a missing one, comes first. |
| Ordering.EarlierDueFirst | AP_Calc.py:110-114 | At equal urgency and priority, an earlier due date, or a present one over a missing one, comes first. |
| Grouping.SortedDistinct | AP_Calc.py:140-141 | The group keys are exactly the present vendor names, strictly ascending, so each appears once. |
| Allocation.Min3 | AP_Calc.py:157 | The payment is at most each of its three bounds and equals one of them. |
| Allocation.WalkVendor | AP_Calc.py:142-172 | One vendor's pass pays a prefix of its bills in order. Each payment is the least of the invoice amount, the vendor budget less the vendor's total before it, and the weekly budget less the week's total before it, and is positive. Both running totals are kept. The pass stops early only when the last record reached a cap or the next bill's payment would be 0 or less. |
| Allocation.WalkVendors | AP_Calc.py:139-172 | Vendors are visited in ascending name order. Each payment is the least of the amount, the vendor budget less that vendor's earlier payments, and the weekly budget less all earlier payments. Each vendor's running total restarts at 0 while the week's total carries over. Once the weekly budget is reached, no later record follows. |
| Allocation.Allocate | AP_Calc.py:135-172 | Every recommendation pays a candidate with the greedy payment: the least of its amount and the two remaining budgets. Payments are positive, within both budgets, with consistent running totals. It is empty when the weekly budget is 0 or less. |
| Allocation.WalkVendorIsPass | AP_Calc.py:142-172 | The inner loop's result meets the description of a pass: greedy payments, running totals, and stopping only at a cap or a non-positive payment. |
| Allocation.PassIffWalk | AP_Calc.py:142-172 | A record list meets that description if and only if it is the inner loop's result, so the description determines the pass. |
| Totals.AllocatePass | AP_Calc.py:139-172 | A vendor's records in the allocation are exactly one pass over that vendor's candidates, started from a zero vendor total and the week's total after the vendors before it. |
| Totals.AbsentVendor | AP_Calc.py:139-141 | A vendor with no name among the group keys has no candidates and no records. |
| Totals.CumulativeIsPaid | AP_Calc.py:161-169 | Each record's `Cumulative` is the sum of the period's payments up to and including it. |
| Totals.CumulativeVendorIsPaid | AP_Calc.py:142-169 | Each record's `CumulativeVendor` is the sum of that vendor's payments up to and including it. |
| Totals.VendorPaidWithinBudget | AP_Calc.py:146-172 | The total paid to any vendor in a period is at most the vendor budget. |
| Totals.PeriodPaidWithinBudget | AP_Calc.py:147-172 | The total paid in a period is at most the weekly budget. |
| Totals.AllocatePrefix | AP_Calc.py:144-172 | A vendor's recommendations are a prefix of its candidates in sort order, all but the last paid in full. |
| Summary.Summarize | AP_Calc.py:175-183 | No summary exactly when nothing was recommended. Otherwise one entry per recommended vendor, in ascending name order. |
| Summary.SummaryEntries | AP_Calc.py:180-183 | Each entry's total is its vendor's payments summed. Its document field is their document numbers joined by ", " in recommendation order, a missing number printing as "None". |
| Summary.SummaryConserves | AP_Calc.py:180-183 | The entries' totals add up to the sum of all payments. |
| Summary.SummaryWithinVendorBudget | AP_Calc.py:180-183 | No entry's total exceeds the vendor budget. |
| Recommend.VendorBudgetFor | AP_Calc.py:125-133 | The vendor budget is that of the first row whose week ending matches; there is none exactly when no row matches. |
| Recommend.Candidates | AP_Calc.py:83-118 | Every candidate has an amount. |
| Recommend.CandidateEligible | AP_Calc.py:83-118 | Every candidate comes from an eligible ledger row, has a document number not already recommended, and carries the right urgency flag. |
| Recommend.EligibleBecomesCandidate | AP_Calc.py:83-118 | Every eligible ledger row whose document is not already recommended reaches the candidates. |
| Recommend.CandidateIff | AP_Calc.py:83-118 | A bill is a candidate if and only if it comes from an eligible ledger row and its document is not already recommended. |
| Recommend.CandidatesSorted | AP_Calc.py:110-118 | Dropping already-recommended documents keeps the candidates in sort order. |
| Recommend.FilterAndRecommend | AP_Calc.py:75-186 | With no vendor budget for the week, the result is empty with no summary. Otherwise the records are the allocation of the candidates under the week's vendor budget and the weekly budget, each paid greedily and within both budgets. The summary is the per-vendor summary of the records, present exactly when there are any. |
| Recommend.RecommendedEligible | AP_Calc.py:83-118 | No recommendation pays an already-recommended document; every one pays a bill from an eligible ledger row. |
| Recommend.RenormalizingChangesNothing | AP_Calc.py:84-107 | Calling again on the ledger and vendor sheet as a previous call left them, with vendor names normalised in place, gives the same result. |
| Recommend.OneVendorAllocate | AP_Calc.py:139-172 | When every candidate has the same vendor, the allocation is that vendor's single pass. |
| Recommend.AcmeExample | AP_Calc.py:110-172 | Worked example: two "acme" bills of 100 (due later) and 200 (due first) under budgets of 250 sort with the earlier due date first, and are paid 200 and then 50, with running totals 200 and 250. |
| Config.ValidateConfig | main.py:14-21 | Passes iff both the "Config" and "Vendors" sheets are present; otherwise the error names exactly the missing ones. |
| Config.NormalizeType | main.py:50 | The type becomes the stripped, lower-cased text; a missing type stays missing; no other column changes. |
| Config.NormalizeTypeIdempotent | main.py:50 | Normalising the type twice is normalising it once. |
| Config.Exclusions | main.py:57-60 | The exclusions are exactly the lower-cased names of the rows typed "exclusion" that have a vendor name. |
| Config.ExclusionsAppend | main.py:57-60 | Exclusions keep sheet order. |
| Config.ExcludedIff | main.py:57-60 | A ledger vendor is excluded iff some exclusion row names it, up to case and surrounding whitespace. |
| Config.Periods | main.py:64-67 | The periods are exactly the "budget" rows with a weekly budget, each with its weekly budget present. |
| Config.PeriodsAppend | main.py:64-67 | Periods keep sheet order. |
| Config.VendorBudgets | main.py:71-74 | The vendor-budget rows are exactly the "budget" rows that have a vendor budget, each with its week ending and budget. |
| Config.FirstVendorBudget | main.py:71-74 | The first "budget" row with a vendor budget for the week, and none exactly when no such row exists. |
| Config.VendorBudgetLookup | main.py:71-74 | The vendor-budget lookup over the selected rows agrees with the first matching row of the sheet. |
| Periods.Step | main.py:82-100 | A period with no week ending or weekly budget, or with no recommendations, leaves the state as it is. Otherwise its document numbers join the already-recommended set, and its rows, tagged with its week ending, are appended as a new batch. |
| Periods.Run | main.py:82-100 | The batch list never shrinks, and each period adds at most one batch. |
| Periods.Tag | main.py:99 | Every row of a period's output carries that period's week ending. |
| Periods.DocNums | main.py:97 | The added set is exactly the document numbers of the period's recommendations. |
| Periods.PeriodRecsFresh | AP_Calc.py:118 | A period never recommends a document already recommended. |
| Periods.RunValid | main.py:78-100 | After any number of periods, each batch is non-empty with one week ending, and its documents are in the already-recommended set. No document appears in two batches. |
| Periods.RunAppend | main.py:82-100 | Running two lists of periods is running the first, then the second from where it left off. |
| Periods.RunExtends | main.py:95-100 | The loop only adds: earlier batches and recommended documents are kept. |
| Seqs.FlattenSnoc | main.py:100 | The output is the batches concatenated in processing order: appending a batch appends its rows. |
| Periods.RunOutputFacts | main.py:77-100 | From the empty start, no document is output for two periods. Every output row carries the week ending of a configured period. |
| Periods.OutputFresh | main.py:95-100 | In the concatenated output, rows of different week endings never share a document number. |
| Periods.Process | main.py:40-100 | The run fails exactly when the workbook check fails, with the same missing sheets. Otherwise the output is the run of the selected periods. Rows of different week endings never share a document number, and every row's week ending is that of a "budget" row with a weekly budget. |
| EnvFile.FirstMatch | api_qbo.py:58-62 | Finds the first line starting with the prefix, or reports that none does. |
| EnvFile.UpdateLines | api_qbo.py:57-66 | With no `key=` line, the entry is appended after the unchanged lines. Otherwise the first `key=` line becomes the entry, the count is kept, and every other line is unchanged. |
| EnvFile.UpdateLinesLoop | api_qbo.py:57-66 | The loop with its early `break` computes the same lines. |
| EnvFile.UpdateEnvFile | api_qbo.py:48-66 | A missing file gives the single entry line; otherwise the line count is kept or grows by one. |
| EnvFile.UpdateIdempotent | api_qbo.py:57-66 | Applying the same update twice gives the lines it gives once. |
| EnvFile.ReadLines | api_qbo.py:50-51 | The lines joined give back the text. Each line is non-empty with '\n' only at its end, and every line but the last ends in '\n'. |
| EnvFile.ReadWrite | api_qbo.py:48-70 | Reading back what was written gives the same lines when every line ends in its only '\n'. |
| EnvFile.UpdateTextAsWritten | api_qbo.py:48-70 | A missing file becomes the single entry line. When no line starts with `key=`, the new text is the old text followed directly by the entry, whether or not the old text ended in '\n'. |
| EnvFile.GluedEntry | api_qbo.py:64-70 | For the text "A=1", the update writes "A=1K=v\n", which reads back with no `K=` line. |
| EnvFile.AsWrittenNotIdempotent | api_qbo.py:64-70 | For that text, a second identical update changes the file again. |
| EnvFile.UpdateText | api_qbo.py:48-70 | The corrected update: a missing file becomes the single entry line. When no line starts with `key=`, the new text is the old text, ended with '\n' if it was not, followed by the entry. |
| EnvFile.UpdateTextSetsKey | api_qbo.py:57-70 | With the last line terminated first, the first `key=` line read back is the new entry. |
| EnvFile.UpdateTextIdempotent | api_qbo.py:57-70 | With the last line terminated first, the file-level update is idempotent. |

## Left out

- The QuickBooks HTTP fetch and the token refresh (AP_Calc.py:12-44, api_qbo.py:11-39): network I/O.
- SharePoint download and upload, Excel reading and writing, `validate_and_process_report` and `save_recommendations`: file and network I/O. The model takes the report tree, the ledger rows, the workbook's sheet names and the Config and Vendors rows as values.
- settings.py, logging.py and every `logger` call: environment lookups and logging.
- pandas' `to_datetime` and `to_numeric`: library parsers, passed in as `Ledger.Parsers`.
- Column-name normalisation of the workbook sheets (main.py:48-49), and the KeyError of a missing column: rows are taken with their columns already named.
- Ledger.IsRecent: does not model the time of day of a parsed `Date`. A bill dated 2024-01-01 with a time after midnight passes the pandas comparison but not the day-number one.
- Report.Category: a header cell whose "value" key is present but null gives a null category in the source. The model reads a null value and an absent key alike as missing, so both give "No Category". The column is only carried through to the output.
- Text.Lower: maps only ASCII A-Z, because Python's full Unicode case mapping has no counterpart here.
- Recommend.VendorBudgetFor: vendor budgets are exact numbers. A budget cell that `to_numeric` turns into NaN, NaN comparisons in `min`, and float rounding in the running totals are floating-point behaviour.
- Recommend.FilterAndRecommend: `float(weekly_budget)` raising on non-numeric text, which aborts the whole loop (main.py:114), is not modelled; weekly budgets are numbers.
- Vendor names, types and document numbers are text or missing. Cells of other types, and `.str.lower()` turning them into NaN, are not modelled.
- EnvFile: the file is taken to use '\n' line endings. The universal-newline translation of text-mode files is not modelled.
- The in-place mutation of the caller's frames is not modelled as mutation. Ledger.FilteredNormalized, Ledger.MergeNormalized and Recommend.RenormalizingChangesNothing show that it does not change later calls.
- The summary that main.py computes and then discards is modelled (Summary), but nothing uses it.

## Findings

| source | as written | input that shows it | evidently intended | confidence | as-written member | corrected member |
|---|---|---|---|---|---|---|
| api_qbo.py:64-70 | When no line starts with `key=`, `key=value\n` is appended as a new list element even if the last line read has no '\n'; `writelines` then glues it onto that line. | A `.env` file whose text is "A=1" with no trailing newline, key "K", value "v": the file becomes "A=1K=v\n", which has no line starting with "K=". A second identical update appends again. | The file sets `key` to `value`: terminate the last line before appending. | high; not executed | EnvFile.GluedEntry | EnvFile.UpdateTextSetsKey |
