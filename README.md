# Vouchers and validation of the Nedarim Plus dashboard

The Nedarim Plus dashboard records donations ("transactions"). Each transaction's paid amount
gets two subsidies, one from the operator and one from the institution. The resulting net amount
is turned into shopping vouchers of 200, 150, 100 and 50 shekels, following its group's four
voucher percentages.

This project models the voucher arithmetic and the validation and list-building code around it,
and proves what that code promises. The model follows the TypeScript source, module by module:

- `Calculations` (`calculations.dfy`): the two-phase voucher allocator `calculateVouchers`, the
  subsidy calculator, the percentage check and the voucher-list text.
- `Vouchers` (`vouchers.dfy`): voucher codes and their validity check, and the expansion of a
  transaction's four counts into numbered voucher records.
- `ExcelImport` (`excel_import.dfy`): the row validators for order and payment sheets, and the
  counters of the import loops.
- `Upload` (`upload.dfy`): the checks on an uploaded Excel file, the percentage gate on group
  forms, the row preparation of the upload, and the transaction search.
- `ExportExcel` (`export_excel.dfy`):
  - the column widths;
  - the export filter cascade;
  - the vouchers column text;
  - the download's file name.
- `Debt` (`debt.dfy`): the debt and payment totals and the rule for recording a payment.
- `PrintVouchers` (`print_modal.dfy`): the group selection of the print-vouchers dialog.
- `Sync` (`sync.dfy`):
  - the sync switch and its interval;
  - the server address dialog;
  - the duration text.

Shared pieces are in separate modules:

- `Sheet` (`sheet.dfy`): spreadsheet cells. Each cell carries what JavaScript's `toString` and
  `parseFloat` make of it.
- `Text` (`text.dfy`): decimal rendering, trimming, lower-casing and substring search.
- `Seqs` (`seqs.dfy`): sums and filters.
- `Wrappers` (`wrappers.dfy`): `Option` and `Result`.

## How the source is modelled

The code that changes things step by step is modelled as methods with loops, proved against
specification functions:

- the allocator's phases;
- the voucher-code loop;
- the voucher-record loops;
- the validators' row loops;
- the import counters;
- the column-width loops.

Page state that handlers update is modelled as classes with `modifies` clauses:
`Upload.UploadPage`, `PrintVouchers.PrintVouchersModal` and `Sync.SyncPage`.

Pure rules are functions, with lemmas that state their meaning:

- the percentage gates;
- the subsidy calculator;
- the filters;
- the file name;
- the debt rules.

Amounts and percentages are exact rationals. `Math.floor` is `.Floor`, and `Math.round` rounds
to the nearest whole number, with halves rounding up.

With equal 25% shares, 425 is not covered exactly: phase 1 gives 2×50 and 1×100, then the
greedy fill takes one 200 and leaves 25 unused. `Calculations.Example425` proves this.

## Model

| member | source | states |
|---|---|---|
| Calculations.CalculateVouchers | frontend/src/utils/calculations.ts:24-94 | The method's result is the allocation `Distribute`: the phase-1 counts from the original amount, then the greedy fill by the available denominations, largest face first, with the remainder rounded to the cent |
| Calculations.Distribute | frontend/src/utils/calculations.ts:24-94 | `calculateVouchers`'s result as a value: the counts of the two phases and the remainder rounded to the cent; its meaning is stated by AllocationConservesAmount, FaceValuePlusUnused and RemainderBelowAvailableFaces |
| Calculations.ProportionalPhase | frontend/src/utils/calculations.ts:35-53 | Each denomination's phase-1 count is the floor of its percentage share of the original amount divided by its face value, and 0 when its percentage is not positive |
| Calculations.TakeWhole | frontend/src/utils/calculations.ts:59-85 | One greedy loop adds exactly the number of whole faces that fit in a non-negative remainder, and takes their value off the remainder; the loop terminates |
| Calculations.FillRemainder | frontend/src/utils/calculations.ts:59-85 | A phase-2 step runs its loop only for an available denomination and leaves every other count unchanged |
| Calculations.AddVouchers | frontend/src/utils/calculations.ts:61-62 | Adding vouchers of one face changes only that count, and moves their value from the remainder into the vouchers, so value plus remainder is unchanged |
| Calculations.Phase1 | frontend/src/utils/calculations.ts:35-56 | After phase 1 the counts are the proportional counts and the remainder is the original amount minus their face value |
| Calculations.AllocationConservesAmount | frontend/src/utils/calculations.ts:56-85 | Conservation: the face value of all vouchers plus the exact remainder equals the net amount |
| Calculations.UnusedIsRemainderToTheCent | frontend/src/utils/calculations.ts:92 | `unused_amount` lies within half an agora of the exact remainder |
| Calculations.FaceValuePlusUnused | frontend/src/utils/calculations.ts:56-93 | The vouchers' face value plus `unused_amount` is within half an agora of the net amount |
| Calculations.WholeCentsConserve | frontend/src/utils/calculations.ts:56-93 | For a net amount in whole agorot, 50·v50 + 100·v100 + 150·v150 + 200·v200 + unused equals the net amount exactly |
| Calculations.UnavailableGetsNothing | frontend/src/utils/calculations.ts:35-53 | A denomination whose percentage is not positive ends with count 0, because neither phase adds to it |
| Calculations.GreedyStage | frontend/src/utils/calculations.ts:59-85 | A greedy stage never raises the remainder or lowers its count; a non-negative remainder stays non-negative; after an available denomination's loop the remainder is below its face |
| Calculations.RemainderBelowAvailableFaces | frontend/src/utils/calculations.ts:59-85 | The final remainder is below the face of every available denomination, so below the smallest of them |
| Calculations.ProportionalWithinShare | frontend/src/utils/calculations.ts:35-53 | A phase-1 count is non-negative and its face value fits in the denomination's share of the amount |
| Calculations.Phase1Budgets | frontend/src/utils/calculations.ts:35-56 | With non-negative percentages adding up to at most 100, each phase-1 count's value fits in a share, and the shares fit in the net amount |
| Calculations.Phase1WithinNet | frontend/src/utils/calculations.ts:35-56 | With non-negative percentages adding up to at most 100 and a non-negative amount, phase 1 leaves a non-negative remainder and non-negative counts |
| Calculations.RemainderNonNegative | frontend/src/utils/calculations.ts:56-85 | Under the same conditions, the final remainder and all four counts are non-negative |
| Calculations.NoDenominationAvailable | frontend/src/utils/calculations.ts:35-93 | With no positive percentage every count is 0 and the unused amount is the net amount rounded to the cent |
| Calculations.SingleDenomination | frontend/src/utils/calculations.ts:35-85 | With one denomination at 100% and the rest at 0, it gets the whole number of faces that fit in the amount, and the remainder is below one face |
| Calculations.SinglePhase1 | frontend/src/utils/calculations.ts:35-53 | With one denomination at 100%, phase 1 alone takes the whole faces that fit and leaves less than one face |
| Calculations.GreedyIdle | frontend/src/utils/calculations.ts:59-85 | A phase-2 loop adds nothing for an unavailable denomination, or for the single one once the remainder is below its face |
| Calculations.ZeroAmount | frontend/src/utils/calculations.ts:24-94 | A zero amount gives no vouchers and nothing unused, whatever the percentages |
| Calculations.Example425 | frontend/src/utils/calculations.ts:24-94 | 425 split 25/25/25/25 gives 2×50, 1×100, 1×200 and leaves 25 unused |
| Calculations.Example100 | frontend/src/utils/calculations.ts:24-94 | 100 at 100% for the 100s gives one 100 voucher and nothing unused |
| Calculations.Example30 | frontend/src/utils/calculations.ts:24-94 | 30 at 100% for the 50s gives no voucher and leaves 30 unused |
| Calculations.Round | frontend/src/utils/calculations.ts:92 | `Math.round` lands within half of its argument, halves going up |
| Calculations.RoundCents | frontend/src/utils/calculations.ts:92 | Rounding to the cent moves the value by at most half an agora and gives a whole number of agorot |
| Calculations.CalculateSubsidy | frontend/src/utils/calculations.ts:122-141 | `calculateSubsidy`: both shares to the agora, their sum and the net amount; its meaning is stated by SubsidyMeaning |
| Calculations.ShareToTheAgora | frontend/src/utils/calculations.ts:132-133 | A subsidy is the percent share of the amount paid to within half an agora, and a whole number of agorot, because rounding comes before the division by 100 |
| Calculations.SubsidyMeaning | frontend/src/utils/calculations.ts:122-141 | Both subsidies are their shares to the agora; the total subsidy is their sum and the net amount is the amount paid plus the total |
| Calculations.SubsidyNonNegative | frontend/src/utils/calculations.ts:132-133 | A non-negative amount and percentage give a non-negative subsidy |
| Calculations.SubsidyExactOnWholeAgorot | frontend/src/utils/calculations.ts:132-133 | When amount times percent is whole, the subsidy is exactly the share |
| Calculations.SubsidyExample | frontend/src/utils/calculations.ts:122-141 | 100 paid at 20% and 10% gives subsidies 20 and 10, total 30 and net 130 |
| Calculations.ValidateVoucherPercentages | frontend/src/utils/calculations.ts:146-154 | The four percentages are accepted exactly when their sum is less than 0.01 away from 100; stated by SumOfShares, ValidateBoundary and ValidateIgnoresAssignment |
| Calculations.ValidateIgnoresAssignment | frontend/src/utils/calculations.ts:146-154 | The percentage check's verdict does not change when the four values are permuted among the denominations |
| Calculations.SumOfShares | frontend/src/utils/calculations.ts:147-151 | The checked sum is the sum of the four percentages as a list |
| Calculations.ValidateBoundary | frontend/src/utils/calculations.ts:153 | The tolerance is strict: sums of 99.99 and 100.01 are refused; 99.995 and 100.005 are accepted |
| Calculations.FormatVouchersList | frontend/src/utils/calculations.ts:100-117 | `formatVouchersList`: the positive counts as `n×D₪` from 200 down, joined by " + ", or "אין תלושים"; its meaning is stated by FormatVouchersListRoundTrip and ListEntriesShape |
| Calculations.FormatVouchersListRoundTrip | frontend/src/utils/calculations.ts:100-117 | The voucher list text reads back as exactly its items, with "אין תלושים" reading back as no items |
| Calculations.ListEntriesShape | frontend/src/utils/calculations.ts:103-116 | The list holds one `n×D` item for each positive count, with that count, in strictly descending face order from 200 to 50; it is empty exactly when no count is positive |
| Calculations.RenderEntriesRoundTrip | frontend/src/utils/calculations.ts:103-116 | Any non-empty list of `count×face` items joined by a separator reads back as that list |
| Vouchers.GenerateVoucherId | frontend/src/utils/vouchers.ts:13-23 | The 11 draws give the code of 11 characters picked by `floor(random·36)` from the alphabet, and `isValidVoucherId` accepts it |
| Vouchers.PickChar | frontend/src/utils/vouchers.ts:17-19 | A draw in [0, 1) picks the alphabet character at `floor(draw·36)` |
| Vouchers.CodeFromDrawsIsValid | frontend/src/utils/vouchers.ts:13-30 | Every generated code is accepted by `isValidVoucherId` |
| Vouchers.EveryValidIdIsGenerated | frontend/src/utils/vouchers.ts:13-30 | Every code `isValidVoucherId` accepts is generated by some 11 draws, so the check and the generator agree exactly |
| Vouchers.ValidVoucherIdMeaning | frontend/src/utils/vouchers.ts:28-30 | A code is valid exactly when it has 11 characters, each in the 36-character alphabet |
| Vouchers.IsValidVoucherId | frontend/src/utils/vouchers.ts:28-30 | `/^[A-Z0-9]{11}$/`; stated by ValidVoucherIdMeaning, CodeFromDrawsIsValid and EveryValidIdIsGenerated |
| Vouchers.CodeCharInAlphabet | frontend/src/utils/vouchers.ts:14 | A character is an upper-case letter or digit exactly when the alphabet contains it |
| Vouchers.AlphabetChar | frontend/src/utils/vouchers.ts:14 | The alphabet is A to Z at positions 0 to 25, then 0 to 9 |
| Vouchers.CharsSpelledOut | frontend/src/utils/vouchers.ts:14 | The alphabet has 36 characters, A to Z then 0 to 9 |
| Vouchers.DrawIndex | frontend/src/utils/vouchers.ts:18 | The index `floor(draw·36)` is within the alphabet |
| Vouchers.DrawSelects | frontend/src/utils/vouchers.ts:18-19 | The source's index expression is in range and selects the modelled character |
| Vouchers.CreateVouchersForTransaction | frontend/src/utils/vouchers.ts:39-96 | The records built are exactly `Expected`: the 200s, then the 150s, 100s and 50s, numbered from 0 and each with its own code |
| Vouchers.PushVouchers | frontend/src/utils/vouchers.ts:45-91 | One denomination's loop appends `count` records of that amount, numbered on from the current `sortOrder`, and leaves the earlier records unchanged |
| Vouchers.VoucherCount | frontend/src/utils/vouchers.ts:45-91 | For non-negative counts there are exactly `vouchers_200 + vouchers_150 + vouchers_100 + vouchers_50` records |
| Vouchers.AmountAt | frontend/src/utils/vouchers.ts:45-91 | Record `k` has amount 200, 150, 100 or 50, by which of the four consecutive blocks it falls in |
| Vouchers.AmountsNonIncreasing | frontend/src/utils/vouchers.ts:45-91 | Record amounts never increase along the list |
| Vouchers.FaceMultiplicities | frontend/src/utils/vouchers.ts:45-91 | Each amount occurs exactly as often as its count says, and nothing else occurs |
| Vouchers.AmountsMultiset | frontend/src/utils/vouchers.ts:45-91 | The amounts are, as a multiset, the four counts' repetitions of their faces |
| Vouchers.RecordsAreNumberedAndCopied | frontend/src/utils/vouchers.ts:43-90 | Record `k` has `sort_order` k and a valid code, copies the transaction id, client name and phone, and has one of the four amounts |
| Vouchers.EmptyIffNoVouchers | frontend/src/utils/vouchers.ts:94-96 | The list is empty exactly when no count is positive, the case in which nothing is inserted |
| Vouchers.Amounts | frontend/src/utils/vouchers.ts:45-91 | The amount sequence has one entry per record |
| ExcelImport.ValidateOrdersData | frontend/src/utils/excelImport.ts:72-138 | The loop's result is `ValidateOrders`: refuse a short sheet, otherwise skip blank rows, report each refused row by number and collect the accepted ones |
| ExcelImport.ValidatePaymentsData | frontend/src/utils/excelImport.ts:144-227 | The loop's result is `ValidatePayments`, with a failed client query reported as one error |
| ExcelImport.ValidateOrders | frontend/src/utils/excelImport.ts:72-138 | What `validateOrdersData` returns; its meaning is stated by ShortSheetRefused, OrderRowsReported and OrdersValidIff |
| ExcelImport.ValidatePayments | frontend/src/utils/excelImport.ts:144-227 | What `validatePaymentsData` returns, a failed client query being one error; its meaning is stated by PaymentRowsReported and PaymentsValidIff |
| ExcelImport.OrderVerdict | frontend/src/utils/excelImport.ts:89-130 | The order checks on one row, in the source's order; stated by OrderAcceptedIff |
| ExcelImport.PaymentVerdict | frontend/src/utils/excelImport.ts:176-219 | The payment checks on one row, in the source's order; stated by PaymentAcceptedIff and UnknownClientBeforeAmount |
| ExcelImport.ShortSheetRefused | frontend/src/utils/excelImport.ts:76-82 | A sheet of fewer than 2 rows is invalid, with exactly one error and no data |
| ExcelImport.HeaderIgnored | frontend/src/utils/excelImport.ts:84-85 | The header row never affects the result |
| ExcelImport.OrderAcceptedIff | frontend/src/utils/excelImport.ts:89-130 | An order row is accepted, with given values, exactly when it is not skipped, has a non-empty trimmed name, a 9-digit trimmed ID and an amount above 0; the phone is optional |
| ExcelImport.PaymentAcceptedIff | frontend/src/utils/excelImport.ts:176-219 | A payment row is accepted exactly when it is not skipped, its ID has 9 digits and is a known client, and its amount is above 0; date and notes are optional |
| ExcelImport.UnknownClientBeforeAmount | frontend/src/utils/excelImport.ts:194-205 | An unknown client is reported as such, whatever the amount cell holds |
| ExcelImport.OrderRowsReported | frontend/src/utils/excelImport.ts:85-131 | Row i is reported as row i+1 exactly with its own problem, and an accepted row's order is in the data |
| ExcelImport.PaymentRowsReported | frontend/src/utils/excelImport.ts:161-220 | The same for payments, and a failed client query gives one error and no data |
| ExcelImport.OrdersValidIff | frontend/src/utils/excelImport.ts:133-137 | The orders are valid exactly when the sheet has data rows, no row is refused and at least one is accepted |
| ExcelImport.PaymentsValidIff | frontend/src/utils/excelImport.ts:222-226 | The payments are valid exactly when the sheet has data rows, no row is refused and at least one is accepted |
| ExcelImport.RowsValidIff | frontend/src/utils/excelImport.ts:133-137 | For any row verdict, the result is valid exactly when no data row is refused and one is accepted |
| ExcelImport.RowReported | frontend/src/utils/excelImport.ts:85-131 | For any row verdict, row i appears in the errors as row i+1 exactly with its problem, and its value in the data when accepted |
| ExcelImport.ErrorsInRowOrder | frontend/src/utils/excelImport.ts:85-122 | Errors are reported in increasing row order, each with a data row's number |
| ExcelImport.ErrorsAreRejects | frontend/src/utils/excelImport.ts:95-122 | Every error belongs to a refused row, with that row's problem |
| ExcelImport.RejectsAreReported | frontend/src/utils/excelImport.ts:95-122 | Every refused row is reported |
| ExcelImport.EachRowCountedOnce | frontend/src/utils/excelImport.ts:85-131 | Each data row is exactly one of skipped, reported or accepted |
| ExcelImport.NoErrorsIffNoRejects | frontend/src/utils/excelImport.ts:133-134 | There are no errors exactly when no row is refused |
| ExcelImport.AcceptedOfMeaning | frontend/src/utils/excelImport.ts:125-130 | The data holds exactly the values of the accepted rows |
| ExcelImport.AcceptedOfConcat | frontend/src/utils/excelImport.ts:125-130 | Accepted values keep their input order |
| ExcelImport.SomeAcceptedIff | frontend/src/utils/excelImport.ts:134 | The data is non-empty exactly when some row is accepted |
| ExcelImport.SummaryValidIff | frontend/src/utils/excelImport.ts:133-137 | A summary is valid exactly when no row is refused and one is accepted |
| ExcelImport.VerdictReported | frontend/src/utils/excelImport.ts:85-131 | One row's verdict is reported under its own number and no other problem |
| ExcelImport.SameDataRows | frontend/src/utils/excelImport.ts:85-87 | Only the data rows decide the verdicts |
| ExcelImport.OptionalText | frontend/src/utils/excelImport.ts:115 | An optional field is its non-empty trimmed text, or absent when that text is empty |
| ExcelImport.ImportOrders | frontend/src/utils/excelImport.ts:233-307 | Every order counts as exactly one success or failure, the successes are the imported outcomes, and each failure adds its message in order |
| ExcelImport.ImportPayments | frontend/src/utils/excelImport.ts:313-360 | Every payment counts as exactly one success or failure, and each failure adds its message in order |
| ExcelImport.OneMessagePerFailedOrder | frontend/src/utils/excelImport.ts:242-304 | There is exactly one message per failed order |
| ExcelImport.OneMessagePerFailedPayment | frontend/src/utils/excelImport.ts:320-357 | There is exactly one message per failed payment |
| Upload.UploadPage.HandleFileUpload | frontend/src/App.tsx:140-227 | No file changes nothing; a refused file sets its error message and leaves the rows and dialogs; an accepted one stores its rows, clears the error and opens the upload dialog; stored rows always pass the row checks |
| Upload.UploadPage.constructor | frontend/src/App.tsx:140-227 | The page starts with no rows, no error and both dialogs closed |
| Upload.CheckFile | frontend/src/App.tsx:145-213 | The checks run in the source's order and their result is `UploadCheck` |
| Upload.CheckRows | frontend/src/App.tsx:183-213 | The row loop finds the first failing row and its first failing check |
| Upload.UploadCheck | frontend/src/App.tsx:145-219 | The file checks of `handleFileUpload` as a value: type, sheets, emptiness, columns, then the rows; stated by TypeCheckedFirst, FileLevelChecks, UploadRowFailureIff and UploadAcceptedIff |
| Upload.RowFault | frontend/src/App.tsx:187-212 | The first failing check of one row, or none; stated by RowPassesIff and NameCheckedFirst |
| Upload.TypeCheckedFirst | frontend/src/App.tsx:145-148 | A file is refused as of the wrong type exactly when its name ends in neither `.xlsx` nor `.xls`, whatever its content |
| Upload.FileLevelChecks | frontend/src/App.tsx:145-180 | Type, sheets, emptiness and columns come before any row check, and none of them is reported as a row failure |
| Upload.MissingColumnsMeaning | frontend/src/App.tsx:172-180 | The reported columns are exactly the required ones the first row lacks, in the required order |
| Upload.ColumnsCheckedOnFirstRowOnly | frontend/src/App.tsx:172-191 | A later row lacking the name column is not a column error; it fails its own name check |
| Upload.UploadRowFailureIff | frontend/src/App.tsx:183-213 | The upload reports row n with check k exactly when the file checks pass, row n−2 fails k and every earlier row passes |
| Upload.RowsFailureIff | frontend/src/App.tsx:183-213 | Row n is reported exactly when it is the first failing row, numbered from 2 |
| Upload.UploadAcceptedIff | frontend/src/App.tsx:183-219 | The rows are stored exactly when the file checks pass and every row passes, and then they are stored unchanged |
| Upload.RowPassesIff | frontend/src/App.tsx:187-212 | A row passes exactly when its name and group are non-blank and its amount is present, numeric and above 0 |
| Upload.NameCheckedFirst | frontend/src/App.tsx:187-191 | A blank name is reported as such whatever the amount and group hold |
| Upload.VerdictOfIff | frontend/src/App.tsx:183-219 | The first fault's 0-based index i is reported as row i+2, and no fault accepts the rows |
| Upload.FirstFaultMeaning | frontend/src/App.tsx:183-213 | The first fault is at j with check k exactly when row j fails k and every row before it passes |
| Upload.FaultFreeRows | frontend/src/App.tsx:183-213 | No fault is found exactly when every row passes |
| Upload.GateLooserThanValidation | frontend/src/App.tsx:250-253 | The forms' gate accepts everything `validateVoucherPercentages` accepts, and more exactly when the sum is 0.01 away from 100 |
| Upload.GateBoundary | frontend/src/App.tsx:251 | A sum of 100.01 passes the gate but not `validateVoucherPercentages`; 100.02 fails the gate |
| Upload.PassesGroupGate | frontend/src/App.tsx:250-253 | The forms' gate: the sum is at most 0.01 away from 100; stated by GateLooserThanValidation and GateBoundary |
| Upload.SubmitGroupForm | frontend/src/App.tsx:2296-2328 | A form is refused, with its sum, exactly when the gate fails; otherwise the edited group is updated or a new one created, with the parsed data and a passing sum |
| Upload.GateStopsBeforeGroupInsert | frontend/src/App.tsx:234-253 | A failing new-group gate stops the upload before the group is written, but after a new institution has been |
| Upload.UploadExcel | frontend/src/App.tsx:230-323 | `uploadExcelMutation` up to the transaction insert: the records written and the prepared rows or the error thrown; stated by GateStopsBeforeGroupInsert, UploadNeedsGroupAndInstitution and NoInstitutionThrows |
| Upload.UploadNeedsGroupAndInstitution | frontend/src/App.tsx:242-275 | A completed upload has a group id and an institution id on every row, and any group written passes the gate |
| Upload.NoInstitutionThrows | frontend/src/App.tsx:273-275 | Without a selected or new institution the upload fails, with the missing-selection error once the group step succeeded |
| Upload.PrepareRows | frontend/src/App.tsx:282-324 | One prepared transaction per stored row |
| Upload.PrepareRow | frontend/src/App.tsx:282-321 | One prepared transaction; stated by AmountPaidPositive, SubsidiesToTheAgora, PreparedVouchers and PreparedRowsCopyClients |
| Upload.AmountsFor | frontend/src/App.tsx:283-286 | The paid amount, both subsidies to the agora and the net; stated by SubsidiesToTheAgora |
| Upload.AmountPaidPositive | frontend/src/App.tsx:283 | A stored row's amount paid is its parsed amount, above 0 |
| Upload.SubsidiesToTheAgora | frontend/src/App.tsx:283-286 | Each subsidy is its percent share to within half an agora, and the net amount is the paid amount plus both subsidies |
| Upload.PreparedVouchers | frontend/src/App.tsx:282-321 | The counts and unused amount are the allocation of the net amount by the group's percentages, whose face value plus unused is within half an agora of the net; the warning is set exactly when more than one agora is unused |
| Upload.PreparedRowsCopyClients | frontend/src/App.tsx:302-312 | Each prepared row copies the client name and group cell, a phone or ID only when present, and the chosen group and institution ids |
| Upload.EmptySearchKeepsAll | frontend/src/App.tsx:1876-1877 | An empty search term keeps every transaction |
| Upload.SearchMatches | frontend/src/App.tsx:1876-1885 | The search test on one transaction; stated by EmptySearchKeepsAll, SearchIgnoresTermCase, NameMatchIgnoresCase and AccentedNameFound |
| Upload.FilteredTransactions | frontend/src/App.tsx:1876-1885 | The filtered list, nothing while the list is not loaded; stated by SearchKeepsMatches |
| Upload.SearchKeepsMatches | frontend/src/App.tsx:1876-1885 | The search keeps, in order, exactly the transactions it matches |
| Upload.SearchIgnoresTermCase | frontend/src/App.tsx:1878 | The term's case never matters, because it is lower-cased first, for phone and ID too |
| Upload.NameMatchIgnoresCase | frontend/src/App.tsx:1880 | A name that contains the term once both are lower-cased matches, whatever the case of either |
| Upload.AccentedNameFound | frontend/src/App.tsx:1878-1880 | "Élodie" is found by "élodie" and by "ÉLODIE": accented capitals are lower-cased too |
| ExportExcel.CalculateColumnWidth | frontend/src/utils/exportExcel.ts:9-26 | One width per column up to the longest row, each `min(longest cell length + 2, 50)`, lengths in UTF-16 code units as JavaScript's `length` counts them |
| ExportExcel.WidenColumns | frontend/src/utils/exportExcel.ts:13-20 | Scanning one more row keeps each width equal to the longest cell so far in its column, in UTF-16 code units |
| ExportExcel.MaxLengthMeaning | frontend/src/utils/exportExcel.ts:12-21 | The number of columns is the length of the longest row |
| ExportExcel.ColumnMaxMeaning | frontend/src/utils/exportExcel.ts:13-19 | A column's width is at least every cell's text length in it and, when positive, equals one of them |
| ExportExcel.ColumnMaxBeyond | frontend/src/utils/exportExcel.ts:12-21 | A column beyond every row has width 0 |
| ExportExcel.WidthBounds | frontend/src/utils/exportExcel.ts:25 | Each width is between 2 and 50, and the longest text plus 2 when that is at most 50 |
| ExportExcel.TextCellLength | frontend/src/utils/exportExcel.ts:14-15 | A cell with non-empty text is as long as its text in UTF-16 code units |
| ExportExcel.DebtsHeadingLength | frontend/src/utils/exportExcel.ts:248 | The debts sheet's heading "📋 פירוט חובות לפי מוסד:" has 23 characters and 24 code units |
| ExportExcel.DebtsHeadingWidth | frontend/src/utils/exportExcel.ts:9-26 | Alone in its column, that heading makes the column 26 wide |
| ExportExcel.FilterExport | frontend/src/utils/exportExcel.ts:67-92 | The export filter cascade; stated by ExportKeepsOrder, UnfilteredExport, InstitutionExport, GroupExport and DateExport |
| ExportExcel.ExportKeepsOrder | frontend/src/utils/exportExcel.ts:67-92 | Every exported list is an order-preserving subsequence of its input |
| ExportExcel.UnfilteredExport | frontend/src/utils/exportExcel.ts:67-92 | Type 'all', or an empty selection for 'institutions' or 'groups', exports everything |
| ExportExcel.InstitutionExport | frontend/src/utils/exportExcel.ts:72-75 | Selecting institutions keeps exactly the selected institutions, their groups and their transactions |
| ExportExcel.GroupExport | frontend/src/utils/exportExcel.ts:76-80 | Selecting groups keeps exactly those groups, their transactions and the institutions owning a kept group |
| ExportExcel.DateExport | frontend/src/utils/exportExcel.ts:81-91 | Dates keep exactly the transactions in range, then the groups they reference, then those groups' institutions |
| ExportExcel.FilterMembers | frontend/src/utils/exportExcel.ts:73-91 | A filter keeps exactly the elements that pass |
| ExportExcel.VouchersTextRendersEntries | frontend/src/utils/exportExcel.ts:194-199 | The column text is the positive counts as `n×D`, from 50 up to 200, joined by ", " |
| ExportExcel.ColumnReversesList | frontend/src/utils/exportExcel.ts:194-199 | The column lists the same items as `formatVouchersList`, in reverse order |
| ExportExcel.VouchersTextRoundTrip | frontend/src/utils/exportExcel.ts:194-199 | The column text is empty exactly when there are no vouchers, and otherwise reads back as its items |
| ExportExcel.FilterFour | frontend/src/utils/exportExcel.ts:194-199 | Dropping the empty parts keeps the others in their order |
| ExportExcel.VouchersText | frontend/src/utils/exportExcel.ts:194-199 | The vouchers column; stated by VouchersTextRendersEntries, ColumnReversesList and VouchersTextRoundTrip |
| ExportExcel.SingleInstitutionNamesFile | frontend/src/utils/exportExcel.ts:308-311 | A single selected institution names the file after the first listed institution with that id, then the date with dashes |
| ExportExcel.MissingInstitutionBreaksName | frontend/src/utils/exportExcel.ts:308-311 | A single selected institution that is not listed leaves no name: the source reads the name of an absent entry and throws |
| ExportExcel.FileNameShape | frontend/src/utils/exportExcel.ts:305-318 | Every file name ends with the date, dots turned into dashes, and `.xlsx` |
| ExportExcel.FirstKept | frontend/src/utils/exportExcel.ts:309 | The first kept element is the first element that passes |
| ExportExcel.FileName | frontend/src/utils/exportExcel.ts:305-318 | The download's name, none when the source throws; stated by SingleInstitutionNamesFile, MissingInstitutionBreaksName and FileNameShape |
| Sheet.DisplayText | frontend/src/utils/exportExcel.ts:14 | A cell shows nothing exactly when it is falsy (null, empty text, 0, false) or its text is empty, and any text it shows is its own |
| Text.ReplaceDots | frontend/src/utils/exportExcel.ts:306 | Every dot becomes a dash and every other character stays |
| Text.LowerChar | frontend/src/App.tsx:1878 | A lower-cased character is never a capital, and only capitals change |
| Text.ToLowerMeaning | frontend/src/App.tsx:1878-1883 | A lower-cased string has no capital, and lower-casing leaves a string unchanged exactly when it has none |
| Text.ToLowerIdempotent | frontend/src/App.tsx:1878-1883 | Lower-casing twice is lower-casing once |
| Text.Utf16LengthConcat | frontend/src/utils/exportExcel.ts:15 | JavaScript's `length` of a concatenation is the sum of the parts' lengths |
| Text.Utf16LengthBounds | frontend/src/utils/exportExcel.ts:15 | `length` is between the number of characters and twice it, and equals it exactly when no character lies beyond U+FFFF |
| Text.Includes | frontend/src/App.tsx:1880-1883 | `includes` holds exactly when the needle occurs at some position |
| Text.TrimShape | frontend/src/utils/api-test.ts:115-117 | The trimmed text is the middle of the input, with only white space cut from either end |
| Text.TrimIdempotent | frontend/src/utils/api-test.ts:115-117 | Trimming twice is trimming once |
| Text.NatToStringRoundTrip | frontend/src/utils/calculations.ts:104 | A count rendered in decimal reads back as that count |
| Debt.InstitutionPaymentsIff | frontend/src/pages/DebtManagement.tsx:103 | An institution's card lists exactly the payments whose institution id is its own |
| Debt.PaidSplitsByInstitution | frontend/src/pages/DebtManagement.tsx:44 | The total paid is one institution's payments plus everybody else's |
| Debt.InstitutionPaidAtMostTotal | frontend/src/pages/DebtManagement.tsx:103-104 | With no negative amounts, an institution's paid amount is between 0 and the total paid |
| Debt.TotalsBeforeLoading | frontend/src/pages/DebtManagement.tsx:43-44 | Before the lists load, both totals are 0 |
| Debt.ActiveDebtAppend | frontend/src/pages/DebtManagement.tsx:43 | Active debt adds each institution's `total_debt`, a missing one as 0 |
| Debt.TotalActiveDebt | frontend/src/pages/DebtManagement.tsx:43 | The sum of `total_debt`, a missing one as 0, and 0 before loading; stated by TotalsBeforeLoading and ActiveDebtAppend |
| Debt.TotalPaid | frontend/src/pages/DebtManagement.tsx:44 | The sum of the payments' amounts, 0 before loading; stated by TotalsBeforeLoading and PaidSplitsByInstitution |
| Debt.PaidForInstitution | frontend/src/pages/DebtManagement.tsx:103-104 | The sum of one institution's payments; stated by InstitutionPaymentsIff, PaidSplitsByInstitution and InstitutionPaidAtMostTotal |
| Debt.AddPaymentIff | frontend/src/pages/DebtManagement.tsx:222-237 | A payment is submitted, with the amount and the notes as typed, exactly when the amount is a number with 0 < amount ≤ current debt (missing debt as 0); above the debt it is refused as such, otherwise as invalid |
| Debt.HandleAddPayment | frontend/src/pages/DebtManagement.tsx:222-237 | `handleAddPayment`'s decision; stated by AddPaymentIff |
| Debt.SubmitDisabled | frontend/src/pages/DebtManagement.tsx:392-397 | The record button's `disabled` expression; stated by ButtonMatchesHandler and NonNumberEnablesButton |
| Debt.ButtonMatchesHandler | frontend/src/pages/DebtManagement.tsx:392-397 | For a numeric amount, the button is enabled exactly when nothing is pending and the handler would submit |
| Debt.EnabledSubmitsWithinDebt | frontend/src/pages/DebtManagement.tsx:222-237 | An enabled button that submits always submits an amount within the debt |
| Debt.NonNumberEnablesButton | frontend/src/pages/DebtManagement.tsx:392-397 | Non-numeric text leaves the button enabled, and the handler refuses it |
| PrintVouchers.InstitutionGroupsIff | frontend/src/components/Vouchers.tsx:248 | The dialog offers exactly the groups of its institution |
| PrintVouchers.SelectAllSelectsOffered | frontend/src/components/Vouchers.tsx:250-256 | When "select all" selects, it selects exactly the offered groups' ids |
| PrintVouchers.FullSelectionIff | frontend/src/components/Vouchers.tsx:250-256 | A repeat-free selection of offered groups is as long as the offered list exactly when every offered group is selected |
| PrintVouchers.ToggleFlips | frontend/src/components/Vouchers.tsx:303-309 | A checkbox flips its own group's membership and leaves every other id as it was |
| PrintVouchers.ToggleTwice | frontend/src/components/Vouchers.tsx:303-309 | Ticking an unticked box twice restores the selection |
| PrintVouchers.ToggleKeepsDistinct | frontend/src/components/Vouchers.tsx:303-309 | Ticking keeps the selection free of repeats |
| PrintVouchers.FilterKeepsDistinct | frontend/src/components/Vouchers.tsx:305 | Removing ids keeps a selection free of repeats |
| PrintVouchers.DistinctCardinality | frontend/src/components/Vouchers.tsx:251 | A repeat-free selection has as many distinct ids as it is long |
| PrintVouchers.SelectAll | frontend/src/components/Vouchers.tsx:250-256 | "Select all" as a value; stated by SelectAllSelectsOffered and FullSelectionIff |
| PrintVouchers.Toggle | frontend/src/components/Vouchers.tsx:303-309 | A checkbox as a value; stated by ToggleFlips, ToggleTwice and ToggleKeepsDistinct |
| PrintVouchers.PrintVouchersModal.constructor | frontend/src/components/Vouchers.tsx:233-248 | The dialog starts with nothing selected and no calls made |
| PrintVouchers.PrintVouchersModal.HandleSelectAll | frontend/src/components/Vouchers.tsx:250-256 | The selection becomes empty when it is as long as the offered list, and every offered id otherwise; it stays repeat-free and offered |
| PrintVouchers.PrintVouchersModal.ToggleGroup | frontend/src/components/Vouchers.tsx:303-309 | The checkbox removes the id when selected, else appends it, keeping the selection repeat-free and offered |
| PrintVouchers.PrintVouchersModal.HandlePrint | frontend/src/components/Vouchers.tsx:258-264 | An empty selection calls nothing; otherwise it prints the selection and then closes the dialog |
| Sync.ToggleSync | frontend/src/pages/SyncManagement.tsx:170-178 | Before the settings load nothing is sent; afterwards the opposite of the stored switch |
| Sync.UpdateIntervalAsWritten | frontend/src/pages/SyncManagement.tsx:181-195 | `handleUpdateInterval` as written; stated by IntervalAsWrittenForNumbers and NaNIntervalIsSent |
| Sync.UpdateInterval | frontend/src/pages/SyncManagement.tsx:181-195 | The corrected handler, which also refuses NaN; stated by IntervalAlwaysInRange |
| Sync.IntervalAsWrittenForNumbers | frontend/src/pages/SyncManagement.tsx:181-195 | For a number, the interval is sent exactly when the settings have loaded and it lies in 5 to 60; below or above, the matching notice is shown |
| Sync.NaNIntervalIsSent | frontend/src/pages/SyncManagement.tsx:181-195 | An emptied number field (NaN) passes both range checks and is sent |
| Sync.IntervalAlwaysInRange | frontend/src/pages/SyncManagement.tsx:181-195 | The corrected handler sends only intervals in 5 to 60, exactly when they are, and agrees with the handler as written on every number |
| Sync.SaveUrlIff | frontend/src/pages/SyncManagement.tsx:106-122 | An address is saved exactly when it is valid, and saved trimmed with an http or https prefix; a blank one is refused as missing |
| Sync.DefaultUrlSaves | frontend/src/pages/SyncManagement.tsx:8 | The default address saves unchanged when the platform parses it |
| Sync.IsValidUrl | frontend/src/utils/api-test.ts:125-136 | `isValidUrl`: trimmed, non-empty, with an http or https prefix, and parsed by the platform; used by SaveUrlIff |
| Sync.SaveUrl | frontend/src/pages/SyncManagement.tsx:106-122 | `handleSaveUrl`'s decision; stated by SaveUrlIff and DefaultUrlSaves |
| Sync.SyncPage.constructor | frontend/src/pages/SyncManagement.tsx:100-127 | The page starts with the dialog closed, no address typed, no test result, nothing sent |
| Sync.SyncPage.HandleOpenUrlModal | frontend/src/pages/SyncManagement.tsx:100-103 | The dialog opens on the stored address, or on the default when none is stored or it is empty |
| Sync.SyncPage.HandleResetUrl | frontend/src/pages/SyncManagement.tsx:125-127 | The typed address becomes the default, and nothing else changes |
| Sync.SyncPage.HandleSaveUrl | frontend/src/pages/SyncManagement.tsx:106-122 | A refused address shows its notice and changes nothing else; a valid one is sent trimmed, closes the dialog and clears the test result |
| Sync.ShortDurationInMilliseconds | frontend/src/pages/SyncManagement.tsx:210-211 | Under a second the text is the milliseconds followed by "ms", and it reads back as that number |
| Sync.FormatDuration | frontend/src/pages/SyncManagement.tsx:210-213 | `formatDuration`: milliseconds below a second, seconds otherwise; stated by ShortDurationInMilliseconds |

## Left out

- Supabase is left out: every query, insert, RPC and database trigger is persistence I/O. The
  upload mutation's database answers are the parameter `Answers`. The import loops' per-item
  outcomes are parameters. The clients query of `validatePaymentsData` is a parameter: a set of
  ID numbers, or `None` for an error.
- The inserts of the voucher records, of the transactions and of the imported payments are
  left out.
- `XLSX` reading and writing and `FileReader` are left out. A sheet arrives parsed, as rows of
  cells (`Sheet.Cell`) or of records keyed by column. A reader that throws is
  `Upload.Workbook.Unreadable`.
- react-query, `toast`, navigation, rendering, the print views, barcodes and `window.print` are
  left out. The dialogs' calls to the page are recorded as sequences of calls or notices.
- `handleTestConnection` and `testServerConnection` are left out, because they are network
  probes. The test result is only cleared by a save.
- `Math.random` is left out:
  - generateVoucherId's draws are parameters;
  - `generateTransactionId` is not modelled;
  - the upload's random `XL…` id and its upload time are not modelled.
  Code uniqueness is a database concern.
- Calculations.CalculateVouchers: amounts are exact rationals, not binary floats. Float error in
  `Math.floor`, `Math.round` and the loop subtractions is not modelled.
- Calculations.CalculateSubsidy and Upload.AmountsFor have the same limit: the rounding is exact
  rational rounding, halves up.
- Vouchers.GenerateVoucherId: each draw is a parameter in [0, 1) rather than a call to
  `Math.random`.
- Sync.IsValidUrl: the platform's `URL` parser is the parameter `parses`. Only the trimming and
  the http/https prefix are modelled.
- Sync.FormatDuration: the seconds branch takes `toFixed(1)`'s text as a parameter. Only the
  millisecond branch is stated.
- ExportExcel.FileName: the localised date is a parameter. Dates in the export filter are
  instants: `new Date(...)` parsing and invalid dates are not modelled.
- `parseFloat` and `parseInt` are left out. Each cell or field carries what they make of it,
  with `None` for NaN.
- `formatCurrency`, `formatDate` and `toLocaleString` are display formatting and are left out.
- The type definitions have no behaviour; only their record shapes are used.
- The model's cell type can hold a `Str` cell whose text is empty but which carries a number.
  No real reader produces it. `Sheet.ParseFloat` reads any empty text as NaN, as `parseFloat("")`
  does, so such a cell is refused by every amount check.
- Text.ToLower and Upload.SearchMatches: only the capitals A–Z, À–Þ (without ×) and Ѐ–Я are
  lower-cased. JavaScript's `toLowerCase` maps every Unicode capital (Greek, Latin Extended,
  Armenian and others), lowers a final Σ to ς, and can change the length (İ becomes two
  characters). A name in those scripts can match in the source but not in the model. Hebrew,
  the dashboard's own script, has no case.

## Findings

| source | as written | input that shows it | evidently intended | confidence | as-written member | corrected member |
|---|---|---|---|---|---|---|
| frontend/src/pages/SyncManagement.tsx:181-195 | The interval handler checks `minutes < 5` and `minutes > 60`. Its caller passes `parseInt` of the field (line 348), and both comparisons are false for NaN. | Clearing the interval field gives `parseInt("")`, which is NaN; the handler then sends `sync_interval_minutes: NaN` | Only a whole number of minutes between 5 and 60 is ever sent | not executed | Sync.UpdateIntervalAsWritten (shown by Sync.NaNIntervalIsSent) | Sync.UpdateInterval (proved by Sync.IntervalAlwaysInRange) |
