/** The Excel upload of the dashboard's main page: the checks `handleFileUpload` runs on a
    chosen file, the percentage gate and row preparation of the upload mutation, the same
    gate on the group form of the institution page, and the transaction search of the group
    page. */
module Upload {
  import opened Wrappers
  import opened Text
  import opened Seqs
  import opened Sheet
  import opened Calculations

  // ------------------------------------------------------------------
  // Checking an uploaded file
  // ------------------------------------------------------------------

  const NameColumn: string := "שם לקוח"
  const AmountColumn: string := "סכום ששולם"
  const GroupColumn: string := "קבוצה"
  const PhoneColumn: string := "טלפון"
  const IdColumn: string := "תעודת זהות"

  /** The columns the first row must have, in the order they are reported. */
  const RequiredColumns: seq<string> := [NameColumn, AmountColumn, GroupColumn]

  /** What the spreadsheet reader makes of a file: either it throws, or it yields the sheet
      names and the rows of the first sheet, keyed by the header row. */
  datatype Workbook = Unreadable(message: string) | Workbook(sheetNames: seq<string>, firstSheet: seq<Record>)

  /** Why one row is refused, in the order the checks run. */
  datatype RowCheck = NameEmpty | AmountEmpty | AmountNotNumber(shown: string) | AmountNotPositive | GroupEmpty

  datatype UploadProblem =
    | UnsupportedType
    | NoSheets
    | EmptySheet
    | ColumnsMissing(columns: seq<string>)
    | RowFailed(rowNum: nat, check: RowCheck)
    | ReadFailed(message: string)

  function RowMessage(k: RowCheck): string {
    match k
    case NameEmpty => "שם לקוח ריק"
    case AmountEmpty => "סכום ששולם ריק"
    case AmountNotNumber(shown) => "סכום ששולם אינו מספר תקין (\"" + shown + "\")"
    case AmountNotPositive => "סכום ששולם חייב להיות גדול מאפס"
    case GroupEmpty => "קבוצה ריקה"
  }

  /** The text `handleFileUpload` puts in the page's error line. */
  function UploadMessage(p: UploadProblem): string {
    match p
    case UnsupportedType => "סוג קובץ לא נתמך. נדרש קובץ Excel (.xlsx או .xls)"
    case NoSheets => "הקובץ לא תקין - אין גיליונות בקובץ Excel"
    case EmptySheet => "הקובץ ריק - לא נמצאו שורות"
    case ColumnsMissing(columns) => "חסרות עמודות חובה: " + Join(columns, ", ")
    case RowFailed(rowNum, k) => "שורה " + NatToString(rowNum) + ": " + RowMessage(k)
    case ReadFailed(message) => "שגיאה בקריאת הקובץ: " + message
  }

  predicate IsExcelName(fileName: string) {
    EndsWith(fileName, ".xlsx") || EndsWith(fileName, ".xls")
  }

  /** `!cell || String(cell).trim() === ''`. */
  predicate BlankCell(c: Cell) {
    Falsy(c) || Trim(DisplayText(c)) == ""
  }

  /** The first check a row fails, or `None` when it passes them all. */
  function RowFault(row: Record): Option<RowCheck> {
    var amount := Field(row, AmountColumn);
    if BlankCell(Field(row, NameColumn)) then Some(NameEmpty)
    else if Falsy(amount) then Some(AmountEmpty)
    else if ParseFloat(amount).None? then Some(AmountNotNumber(DisplayText(amount)))
    else if ParseFloat(amount).value <= 0.0 then Some(AmountNotPositive)
    else if BlankCell(Field(row, GroupColumn)) then Some(GroupEmpty)
    else None
  }

  /** The required columns the row lacks, in required-column order. */
  function MissingColumns(first: Record): seq<string> {
    Filter(RequiredColumns, col => col !in first)
  }

  /** The first element at or after `i` that `fault` finds fault with, with its position and
      the fault. */
  function FirstFault<R, K>(rows: seq<R>, fault: R -> Option<K>, i: nat): Option<(nat, K)>
    requires i <= |rows|
    decreases |rows| - i
  {
    if i == |rows| then None
    else if fault(rows[i]).Some? then Some((i, fault(rows[i]).value))
    else FirstFault(rows, fault, i + 1)
  }

  /** What `handleFileUpload` decides for a chosen file: the rows to keep, or the problem to
      report. A row is reported by its sheet line, two past its index (the header is line 1). */
  function UploadCheck(fileName: string, book: Workbook): Result<seq<Record>, UploadProblem> {
    if !IsExcelName(fileName) then Err(UnsupportedType)
    else match book
      case Unreadable(message) => Err(ReadFailed(message))
      case Workbook(sheetNames, rows) =>
        if |sheetNames| == 0 then Err(NoSheets)
        else if |rows| == 0 then Err(EmptySheet)
        else if |MissingColumns(rows[0])| > 0 then Err(ColumnsMissing(MissingColumns(rows[0])))
        else RowsVerdict(rows)
  }

  /** The verdict of the row checks once the file-level checks have passed. */
  function RowsVerdict(rows: seq<Record>): Result<seq<Record>, UploadProblem> {
    VerdictOf(rows, FirstFault(rows, RowFault, 0))
  }

  /** The rows kept, or the sheet line of the first failing row and its check. */
  function VerdictOf(rows: seq<Record>, first: Option<(nat, RowCheck)>): Result<seq<Record>, UploadProblem> {
    match first
    case Some((i, k)) => Err(RowFailed(i + 2, k))
    case None => Ok(rows)
  }

  /** A row failure is reported for line `n` exactly when the first failing row is `n − 2`. */
  lemma VerdictOfIff(rows: seq<Record>, first: Option<(nat, RowCheck)>, n: nat, k: RowCheck)
    ensures VerdictOf(rows, first) == Err(RowFailed(n, k)) <==> n >= 2 && first == Some((n - 2, k))
    ensures VerdictOf(rows, first).Ok? <==> first.None?
  {
  }

  /** The file-level checks pass exactly as far as the workbook's shape goes. */
  predicate PassesFileChecks(fileName: string, sheetNames: seq<string>, rows: seq<Record>) {
    IsExcelName(fileName) && sheetNames != [] && rows != [] && MissingColumns(rows[0]) == []
  }

  /** A workbook that passes the file-level checks is judged by its rows alone; one that fails
      them is refused before any row is looked at. */
  lemma FileLevelChecks(fileName: string, sheetNames: seq<string>, rows: seq<Record>)
    ensures var r := UploadCheck(fileName, Workbook(sheetNames, rows));
      if PassesFileChecks(fileName, sheetNames, rows) then r == RowsVerdict(rows)
      else r.Err? && !r.error.RowFailed?
  {
  }

  /** The row loop of `handleFileUpload`: the checks run row by row, and the first failure,
      with its index, ends the loop. */
  method CheckRows(data: seq<Record>) returns (fault: Option<(nat, RowCheck)>)
    ensures fault == FirstFault(data, RowFault, 0)
  {
    for i := 0 to |data|
      invariant FirstFault(data, RowFault, 0) == FirstFault(data, RowFault, i)
    {
      var check := RowFault(data[i]);
      if check.Some? {
        return Some((i, check.value));
      }
    }
    return None;
  }

  /** The checks of `handleFileUpload`, in the order it runs them, each ending the upload with
      its problem. */
  method CheckFile(name: string, book: Workbook) returns (r: Result<seq<Record>, UploadProblem>)
    ensures r == UploadCheck(name, book)
  {
    if !IsExcelName(name) {
      return Err(UnsupportedType);
    }
    match book
    case Unreadable(message) =>
      return Err(ReadFailed(message));
    case Workbook(sheetNames, data) =>
      if |sheetNames| == 0 {
        return Err(NoSheets);
      }
      if |data| == 0 {
        return Err(EmptySheet);
      }
      var missingColumns := MissingColumns(data[0]);
      if |missingColumns| > 0 {
        return Err(ColumnsMissing(missingColumns));
      }
      r := ReportRows(data);
  }

  /** The end of `handleFileUpload`'s checks: the first failing row is reported by its sheet
      line, and with no failure the rows are kept. */
  method ReportRows(data: seq<Record>) returns (r: Result<seq<Record>, UploadProblem>)
    ensures r == RowsVerdict(data)
  {
    var fault := CheckRows(data);
    if fault.Some? {
      return Err(RowFailed(fault.value.0 + 2, fault.value.1));
    }
    return Ok(data);
  }

  /** The part of the main page's state that a file upload writes. */
  class UploadPage {
    var excelData: seq<Record>
    var excelError: string
    var showExcelPreviewModal: bool
    var showExcelModal: bool

    /** Stored rows always passed every row check. */
    ghost predicate Valid()
      reads this
    {
      forall k :: 0 <= k < |excelData| ==> RowFault(excelData[k]).None?
    }

    constructor()
      ensures Valid()
      ensures excelData == [] && excelError == "" && !showExcelPreviewModal && !showExcelModal
    {
      excelData := [];
      excelError := "";
      showExcelPreviewModal := false;
      showExcelModal := false;
    }

    /** `handleFileUpload`: no file changes nothing; a refused file only sets the error line;
        an accepted one stores its rows, clears the error and swaps the preview for the upload
        dialog. */
    method HandleFileUpload(file: Option<string>, book: Workbook)
      requires Valid()
      modifies this
      ensures Valid()
      ensures file.None? ==> unchanged(this)
      ensures file.Some? && UploadCheck(file.value, book).Err? ==>
        && excelError == UploadMessage(UploadCheck(file.value, book).error)
        && excelData == old(excelData)
        && showExcelPreviewModal == old(showExcelPreviewModal) && showExcelModal == old(showExcelModal)
      ensures file.Some? && UploadCheck(file.value, book).Ok? ==>
        && excelData == UploadCheck(file.value, book).value
        && excelError == "" && !showExcelPreviewModal && showExcelModal
    {
      if file.None? {
        return;
      }
      var checked := CheckFile(file.value, book);
      if checked.Err? {
        excelError := UploadMessage(checked.error);
        return;
      }
      FaultFreeRows(checked.value, RowFault, 0);
      excelData := checked.value;
      excelError := "";
      showExcelPreviewModal := false;
      showExcelModal := true;
    }
  }

  // ---- properties of the file check

  /** The first fault found is the one reported: that element has it and every element before
      it passes. */
  lemma {:induction false} FirstFaultMeaning<R, K>(rows: seq<R>, fault: R -> Option<K>, i: nat, j: nat, k: K)
    requires i <= |rows|
    ensures FirstFault(rows, fault, i) == Some((j, k)) <==>
      i <= j < |rows| && fault(rows[j]) == Some(k) && forall m :: i <= m < j ==> fault(rows[m]).None?
    decreases |rows| - i
  {
    if i < |rows| && fault(rows[i]).None? {
      FirstFaultMeaning(rows, fault, i + 1, j, k);
    }
  }

  /** No fault is found exactly when every element passes. */
  lemma {:induction false} FaultFreeRows<R, K>(rows: seq<R>, fault: R -> Option<K>, i: nat)
    requires i <= |rows|
    ensures FirstFault(rows, fault, i).None? <==> forall m :: i <= m < |rows| ==> fault(rows[m]).None?
    decreases |rows| - i
  {
    if i < |rows| {
      FaultFreeRows(rows, fault, i + 1);
    }
  }

  /** A name that is not an Excel file name is refused before the file is read, whatever it holds. */
  lemma TypeCheckedFirst(fileName: string, book: Workbook)
    ensures UploadCheck(fileName, book) == Err(UnsupportedType) <==>
      !EndsWith(fileName, ".xlsx") && !EndsWith(fileName, ".xls")
  {
  }

  /** The missing columns are exactly the required columns the first row lacks, listed in
      required-column order. */
  lemma MissingColumnsMeaning(first: Record)
    ensures forall c :: c in MissingColumns(first) <==> c in RequiredColumns && c !in first
    ensures IsSubsequence(MissingColumns(first), RequiredColumns)
  {
  }

  /** Only the first row is checked for columns: a later row without a name column is
      reported as a row with an empty name. */
  lemma ColumnsCheckedOnFirstRowOnly(fileName: string, sheetNames: seq<string>, rows: seq<Record>, j: nat)
    requires IsExcelName(fileName) && sheetNames != [] && 0 < j < |rows|
    requires MissingColumns(rows[0]) == []
    requires forall m :: 0 <= m < j ==> RowFault(rows[m]).None?
    requires NameColumn !in rows[j]
    ensures UploadCheck(fileName, Workbook(sheetNames, rows)) == Err(RowFailed(j + 2, NameEmpty))
  {
    FileLevelChecks(fileName, sheetNames, rows);
    FirstFaultMeaning(rows, RowFault, 0, j, NameEmpty);
  }

  /** A file is refused for row line `n` with check `k` exactly when it got past the file-level
      checks, the row at index `n − 2` fails `k` and every earlier row passes. */
  lemma UploadRowFailureIff(fileName: string, sheetNames: seq<string>, rows: seq<Record>, n: nat, k: RowCheck)
    ensures UploadCheck(fileName, Workbook(sheetNames, rows)) == Err(RowFailed(n, k)) <==>
      && PassesFileChecks(fileName, sheetNames, rows)
      && 2 <= n < |rows| + 2 && RowFault(rows[n - 2]) == Some(k)
      && forall m :: 0 <= m < n - 2 ==> RowFault(rows[m]).None?
  {
    FileLevelChecks(fileName, sheetNames, rows);
    RowsFailureIff(rows, n, k);
  }

  /** The rows are refused for line `n` with check `k` exactly when row `n − 2` fails `k` and
      every earlier row passes. */
  lemma RowsFailureIff(rows: seq<Record>, n: nat, k: RowCheck)
    ensures RowsVerdict(rows) == Err(RowFailed(n, k)) <==>
      && 2 <= n < |rows| + 2 && RowFault(rows[n - 2]) == Some(k)
      && forall m :: 0 <= m < n - 2 ==> RowFault(rows[m]).None?
  {
    var first := FirstFault(rows, RowFault, 0);
    assert RowsVerdict(rows) == VerdictOf(rows, first);
    VerdictOfIff(rows, first, n, k);
    FirstFaultAtLine(rows, RowFault, n, k);
  }

  /** The first fault lies at line `n`, two past its index, exactly when the element there has
      it and every element before passes. */
  lemma FirstFaultAtLine<R, K>(rows: seq<R>, fault: R -> Option<K>, n: nat, k: K)
    ensures n >= 2 && FirstFault(rows, fault, 0) == Some((n - 2, k)) <==>
      && 2 <= n < |rows| + 2 && fault(rows[n - 2]) == Some(k)
      && forall m :: 0 <= m < n - 2 ==> fault(rows[m]).None?
  {
    if n >= 2 {
      FirstFaultMeaning(rows, fault, 0, n - 2, k);
    }
  }

  /** A file is accepted exactly when it passes the file-level checks and every row passes,
      and then all its rows are kept. */
  lemma UploadAcceptedIff(fileName: string, sheetNames: seq<string>, rows: seq<Record>)
    ensures UploadCheck(fileName, Workbook(sheetNames, rows)).Ok? <==>
      && PassesFileChecks(fileName, sheetNames, rows)
      && forall m :: 0 <= m < |rows| ==> RowFault(rows[m]).None?
    ensures UploadCheck(fileName, Workbook(sheetNames, rows)).Ok? ==>
      UploadCheck(fileName, Workbook(sheetNames, rows)).value == rows
  {
    FileLevelChecks(fileName, sheetNames, rows);
    FaultFreeRows(rows, RowFault, 0);
  }

  /** A row passes exactly when its name and group are not blank and its amount is a positive
      number. */
  lemma RowPassesIff(row: Record)
    ensures RowFault(row).None? <==>
      && !BlankCell(Field(row, NameColumn)) && !BlankCell(Field(row, GroupColumn))
      && !Falsy(Field(row, AmountColumn))
      && ParseFloat(Field(row, AmountColumn)).Some? && ParseFloat(Field(row, AmountColumn)).value > 0.0
  {
  }

  /** The name is checked before the amount: a row with a blank name is reported for the name
      whatever its amount and group hold. */
  lemma NameCheckedFirst(row: Record, amount: Cell, group: Cell)
    requires BlankCell(Field(row, NameColumn))
    ensures RowFault(row[AmountColumn := amount][GroupColumn := group]) == Some(NameEmpty)
  {
    var row' := row[AmountColumn := amount][GroupColumn := group];
    assert Field(row', NameColumn) == Field(row, NameColumn);
  }

  // ------------------------------------------------------------------
  // The percentage gate on group forms
  // ------------------------------------------------------------------

  /** What `parseFloat` makes of each field of a group form (`None` for NaN). */
  datatype GroupForm = GroupForm(
    name: string,
    nedarimGroupeName: string,
    mySubsidyPercent: Option<real>,
    institutionSubsidyPercent: Option<real>,
    voucher50: Option<real>,
    voucher100: Option<real>,
    voucher150: Option<real>,
    voucher200: Option<real>)

  /** `parseFloat(field) || 0` for the four voucher percentages. */
  function FormPercentages(f: GroupForm): VoucherPercentages {
    VoucherPercentages(OrZero(f.voucher50), OrZero(f.voucher100), OrZero(f.voucher150), OrZero(f.voucher200))
  }

  /** `Math.abs(sum - 100) > 0.01` does not hold: the forms accept a sum within 0.01 of 100,
      0.01 itself included. */
  predicate PassesGroupGate(p: VoucherPercentages) {
    !(Abs(PercentSum(p) - 100.0) > 0.01)
  }

  /** The group as the forms save it. */
  datatype GroupData = GroupData(
    name: string,
    nedarimGroupeName: string,
    mySubsidyPercent: real,
    institutionSubsidyPercent: real,
    percentages: VoucherPercentages)

  function FormData(f: GroupForm): GroupData {
    GroupData(f.name, f.nedarimGroupeName, OrZero(f.mySubsidyPercent), OrZero(f.institutionSubsidyPercent), FormPercentages(f))
  }

  /** Whatever `validateVoucherPercentages` accepts the forms accept, and a sum of exactly
      100.01 or 99.99 is accepted by the forms and refused by `validateVoucherPercentages`. */
  lemma GateLooserThanValidation(p: VoucherPercentages)
    ensures ValidateVoucherPercentages(p) ==> PassesGroupGate(p)
    ensures PassesGroupGate(p) && !ValidateVoucherPercentages(p) <==> Abs(PercentSum(p) - 100.0) == 0.01
  {
  }

  lemma GateBoundary()
    ensures PassesGroupGate(VoucherPercentages(25.0, 25.0, 25.0, 25.01))
    ensures !ValidateVoucherPercentages(VoucherPercentages(25.0, 25.0, 25.0, 25.01))
    ensures !PassesGroupGate(VoucherPercentages(25.0, 25.0, 25.0, 25.02))
  {
  }

  /** What the institution page's `handleSubmit` does with a group form. */
  datatype SubmitAction = SumRejected(sum: real) | UpdateGroup(id: string, data: GroupData) | CreateGroup(data: GroupData)

  /** `handleSubmit`: refuse a form that fails the gate, otherwise update the group being
      edited or create a new one. */
  function SubmitGroupForm(f: GroupForm, editing: Option<string>): (r: SubmitAction)
    ensures r.SumRejected? <==> !PassesGroupGate(FormPercentages(f))
    ensures r.SumRejected? ==> r.sum == PercentSum(FormPercentages(f))
    ensures r.UpdateGroup? <==> PassesGroupGate(FormPercentages(f)) && editing.Some?
    ensures r.UpdateGroup? ==> r.id == editing.value
    ensures !r.SumRejected? ==> r.data == FormData(f) && PassesGroupGate(r.data.percentages)
  {
    var p := FormPercentages(f);
    if Abs(PercentSum(p) - 100.0) > 0.01 then SumRejected(PercentSum(p))
    else if editing.Some? then UpdateGroup(editing.value, FormData(f))
    else CreateGroup(FormData(f))
  }

  // ------------------------------------------------------------------
  // The upload mutation
  // ------------------------------------------------------------------

  /** The group row read back from the database. */
  datatype Group = Group(mySubsidyPercent: real, institutionSubsidyPercent: real, percentages: VoucherPercentages)

  /** A transaction as the upload prepares it for insertion. The random `XL…` id, the upload
      time and the constant fields are not modelled. */
  datatype PreparedTransaction = PreparedTransaction(
    clientName: Cell,
    clientPhone: Option<Cell>,
    clientIdNumber: Option<Cell>,
    amountPaid: real,
    nedarimGroupe: Cell,
    groupId: string,
    institutionId: string,
    mySubsidyAmount: real,
    institutionSubsidyAmount: real,
    vouchers50: int,
    vouchers100: int,
    vouchers150: int,
    vouchers200: int,
    unusedAmount: real,
    hasUnusedWarning: bool)

  /** `cell || null`. */
  function OrNull(c: Cell): Option<Cell> {
    if Falsy(c) then None else Some(c)
  }

  /** The amounts of one row: the amount paid, both subsidies and the net amount. */
  datatype RowAmounts = RowAmounts(amountPaid: real, mySubsidy: real, institutionSubsidy: real, netAmount: real)

  /** Each subsidy as `Math.round(amountPaid * percent) / 100`, and the sum of all three. */
  function AmountsFor(amountPaid: real, group: Group): RowAmounts {
    var mySubsidy := Round(amountPaid * group.mySubsidyPercent) as real / 100.0;
    var instSubsidy := Round(amountPaid * group.institutionSubsidyPercent) as real / 100.0;
    RowAmounts(amountPaid, mySubsidy, instSubsidy, amountPaid + mySubsidy + instSubsidy)
  }

  /** The amounts of a row whose amount cell `parseFloat` reads as a number. */
  function AmountsOf(row: Record, group: Group): RowAmounts
    requires RowFault(row).None?
  {
    AmountsFor(ParseFloat(Field(row, AmountColumn)).value, group)
  }

  /** One row of the upload: the subsidies on the amount paid, the vouchers for the net amount
      by the group's percentages, and a warning when more than one agora is left unused. */
  function PrepareRow(row: Record, group: Group, groupId: string, institutionId: string): PreparedTransaction
    requires RowFault(row).None?
  {
    var a := AmountsOf(row, group);
    var v := Distribute(a.netAmount, group.percentages);
    PreparedTransaction(
      Field(row, NameColumn), OrNull(Field(row, PhoneColumn)), OrNull(Field(row, IdColumn)),
      a.amountPaid, Field(row, GroupColumn), groupId, institutionId, a.mySubsidy, a.institutionSubsidy,
      v.vouchers50, v.vouchers100, v.vouchers150, v.vouchers200, v.unusedAmount, v.unusedAmount > 0.01)
  }

  function PrepareRows(rows: seq<Record>, group: Group, groupId: string, institutionId: string): (r: seq<PreparedTransaction>)
    requires forall k :: 0 <= k < |rows| ==> RowFault(rows[k]).None?
    ensures |r| == |rows|
  {
    seq(|rows|, k requires 0 <= k < |rows| => PrepareRow(rows[k], group, groupId, institutionId))
  }

  /** The upload's selections and the new institution and group it may create first. */
  datatype UploadRequest = UploadRequest(
    selectedGroup: string,
    selectedInstitution: string,
    newInstitutionName: string,
    newGroup: GroupForm)

  /** What the database answers to each step the upload may take: an id or an error message. */
  datatype Answers = Answers(
    institutionInsert: Result<string, string>,
    groupInsert: Result<string, string>,
    groupFetch: Result<Group, string>)

  datatype Write = InsertInstitution(name: string) | InsertGroup(data: GroupData, institutionId: string)

  datatype UploadFailure = SumNot100(sum: real) | SelectionMissing | DatabaseFailed(message: string)

  /** A run of the upload: the records it wrote before it stopped, and the transactions it
      prepared or the reason it threw. */
  datatype UploadRun = UploadRun(writes: seq<Write>, outcome: Result<seq<PreparedTransaction>, UploadFailure>)

  /** The group step: create the new group when none is selected and a name is given. It
      yields the writes so far and the group id, or the reason it threw. */
  function GroupStep(req: UploadRequest, answers: Answers, institutionId: string, writes: seq<Write>)
    : (seq<Write>, Result<string, UploadFailure>)
  {
    if req.selectedGroup == "" && req.newGroup.name != "" then
      var p := FormPercentages(req.newGroup);
      if Abs(PercentSum(p) - 100.0) > 0.01 then (writes, Err(SumNot100(PercentSum(p))))
      else
        var writes' := writes + [InsertGroup(FormData(req.newGroup), institutionId)];
        match answers.groupInsert
        case Err(message) => (writes', Err(DatabaseFailed(message)))
        case Ok(id) => (writes', Ok(id))
    else (writes, Ok(req.selectedGroup))
  }

  /** `uploadExcelMutation`'s function: institution, then group, then the selection check, the
      group read and the row preparation. */
  function UploadExcel(rows: seq<Record>, req: UploadRequest, answers: Answers): UploadRun
    requires forall k :: 0 <= k < |rows| ==> RowFault(rows[k]).None?
  {
    var instCreated := req.selectedInstitution == "" && req.newInstitutionName != "";
    var writes := if instCreated then [InsertInstitution(req.newInstitutionName)] else [];
    if instCreated && answers.institutionInsert.Err? then
      UploadRun(writes, Err(DatabaseFailed(answers.institutionInsert.error)))
    else
      var institutionId := if instCreated then answers.institutionInsert.value else req.selectedInstitution;
      var (writes', group) := GroupStep(req, answers, institutionId, writes);
      if group.Err? then UploadRun(writes', Err(group.error))
      else if group.value == "" || institutionId == "" then UploadRun(writes', Err(SelectionMissing))
      else match answers.groupFetch
        case Err(message) => UploadRun(writes', Err(DatabaseFailed(message)))
        case Ok(g) => UploadRun(writes', Ok(PrepareRows(rows, g, group.value, institutionId)))
  }

  // ---- properties of the upload

  /** A new group whose percentages fail the gate stops the upload before the group is
      written, but after a new institution has been. */
  lemma GateStopsBeforeGroupInsert(rows: seq<Record>, req: UploadRequest, answers: Answers)
    requires forall k :: 0 <= k < |rows| ==> RowFault(rows[k]).None?
    requires req.selectedGroup == "" && req.newGroup.name != ""
    requires !PassesGroupGate(FormPercentages(req.newGroup))
    requires req.selectedInstitution == "" && req.newInstitutionName != "" && answers.institutionInsert.Ok?
    ensures UploadExcel(rows, req, answers) ==
      UploadRun([InsertInstitution(req.newInstitutionName)], Err(SumNot100(PercentSum(FormPercentages(req.newGroup)))))
  {
  }

  /** The upload prepares transactions only with a group and an institution in hand, and
      when it creates a group, that group passed the gate. */
  lemma UploadNeedsGroupAndInstitution(rows: seq<Record>, req: UploadRequest, answers: Answers)
    requires forall k :: 0 <= k < |rows| ==> RowFault(rows[k]).None?
    ensures var run := UploadExcel(rows, req, answers);
      run.outcome.Ok? ==> forall k :: 0 <= k < |run.outcome.value| ==>
        run.outcome.value[k].groupId != "" && run.outcome.value[k].institutionId != ""
    ensures var run := UploadExcel(rows, req, answers);
      forall w :: w in run.writes && w.InsertGroup? ==> PassesGroupGate(w.data.percentages)
  {
  }

  /** Without an institution selected or named the upload always throws; when the group step
      went through, it throws for the missing selection, after writing any new group with an
      empty institution id. */
  lemma NoInstitutionThrows(rows: seq<Record>, req: UploadRequest, answers: Answers)
    requires forall k :: 0 <= k < |rows| ==> RowFault(rows[k]).None?
    requires req.selectedInstitution == "" && req.newInstitutionName == ""
    ensures UploadExcel(rows, req, answers).outcome.Err?
    ensures GroupStep(req, answers, "", []).1.Ok? ==>
      UploadExcel(rows, req, answers) == UploadRun(GroupStep(req, answers, "", []).0, Err(SelectionMissing))
  {
  }

  /** A stored row's amount paid is the number the sheet's cell holds, and it is positive. */
  lemma AmountPaidPositive(row: Record, group: Group)
    requires RowFault(row).None?
    ensures Some(AmountsOf(row, group).amountPaid) == ParseFloat(Field(row, AmountColumn))
    ensures AmountsOf(row, group).amountPaid > 0.0
  {
  }

  /** Each subsidy is its percentage of the amount paid to the nearest agora, and the net
      amount is the amount paid plus both subsidies. */
  lemma SubsidiesToTheAgora(amountPaid: real, group: Group)
    ensures var a := AmountsFor(amountPaid, group);
      && a.amountPaid == amountPaid
      && amountPaid * group.mySubsidyPercent / 100.0 - 0.005 < a.mySubsidy
      && a.mySubsidy <= amountPaid * group.mySubsidyPercent / 100.0 + 0.005
      && amountPaid * group.institutionSubsidyPercent / 100.0 - 0.005 < a.institutionSubsidy
      && a.institutionSubsidy <= amountPaid * group.institutionSubsidyPercent / 100.0 + 0.005
      && a.netAmount - amountPaid == a.mySubsidy + a.institutionSubsidy
  {
    ShareToTheAgora(amountPaid, group.mySubsidyPercent);
    ShareToTheAgora(amountPaid, group.institutionSubsidyPercent);
  }

  /** A prepared transaction carries the row's amounts, the vouchers of `calculateVouchers` on
      its net amount, whose face value plus the unused amount is that net amount to the cent,
      and the warning exactly when more than one agora is unused. */
  lemma PreparedVouchers(row: Record, group: Group, groupId: string, institutionId: string)
    requires RowFault(row).None?
    ensures var t := PrepareRow(row, group, groupId, institutionId);
      var a := AmountsOf(row, group);
      && t.amountPaid == a.amountPaid && t.mySubsidyAmount == a.mySubsidy && t.institutionSubsidyAmount == a.institutionSubsidy
      && VoucherDistribution(t.vouchers50, t.vouchers100, t.vouchers150, t.vouchers200, t.unusedAmount)
        == Distribute(a.netAmount, group.percentages)
      && a.netAmount - 0.005 < FaceValue(Distribute(a.netAmount, group.percentages)) + t.unusedAmount <= a.netAmount + 0.005
      && (t.hasUnusedWarning <==> t.unusedAmount > 0.01)
  {
    FaceValuePlusUnused(AmountsOf(row, group).netAmount, group.percentages);
  }

  /** The rows keep their order and each copies its client fields: the name and group as
      given, the phone and ID number as given or `null` when empty. */
  lemma PreparedRowsCopyClients(rows: seq<Record>, group: Group, groupId: string, institutionId: string, k: int)
    requires forall k :: 0 <= k < |rows| ==> RowFault(rows[k]).None?
    requires 0 <= k < |rows|
    ensures var t := PrepareRows(rows, group, groupId, institutionId)[k];
      && t.clientName == Field(rows[k], NameColumn) && t.nedarimGroupe == Field(rows[k], GroupColumn)
      && (t.clientPhone.None? <==> Falsy(Field(rows[k], PhoneColumn)))
      && (t.clientPhone.Some? ==> t.clientPhone.value == Field(rows[k], PhoneColumn))
      && (t.clientIdNumber.None? <==> Falsy(Field(rows[k], IdColumn)))
      && (t.clientIdNumber.Some? ==> t.clientIdNumber.value == Field(rows[k], IdColumn))
      && t.groupId == groupId && t.institutionId == institutionId
  {
  }

  // ------------------------------------------------------------------
  // Transaction search on the group page
  // ------------------------------------------------------------------

  /** The client fields the search looks at; any of them may be `null`. */
  datatype ClientFields = ClientFields(
    clientName: Option<string>,
    clientPhone: Option<string>,
    clientIdNumber: Option<string>,
    clientEmail: Option<string>)

  /** `field?.includes(search)`: a `null` field never matches. */
  predicate FieldIncludes(field: Option<string>, search: string) {
    field.Some? && Includes(field.value, search)
  }

  /** The filter's test: an empty term keeps everything; otherwise the lower-cased term must
      occur in the lower-cased name or e-mail, or as it is in the phone or ID number. */
  predicate SearchMatches(t: ClientFields, searchTerm: string) {
    if searchTerm == "" then true
    else
      var search := ToLower(searchTerm);
      || (t.clientName.Some? && Includes(ToLower(t.clientName.value), search))
      || FieldIncludes(t.clientPhone, search)
      || FieldIncludes(t.clientIdNumber, search)
      || (t.clientEmail.Some? && Includes(ToLower(t.clientEmail.value), search))
  }

  /** `transactions?.filter(...)`: nothing while the list is not loaded. */
  function FilteredTransactions(transactions: Option<seq<ClientFields>>, searchTerm: string): Option<seq<ClientFields>> {
    match transactions
    case None => None
    case Some(ts) => Some(Filter(ts, t => SearchMatches(t, searchTerm)))
  }

  /** An empty term keeps the whole list. */
  lemma EmptySearchKeepsAll(ts: seq<ClientFields>)
    ensures FilteredTransactions(Some(ts), "") == Some(ts)
  {
    FilterAll(ts, t => SearchMatches(t, ""));
  }

  /** The result keeps exactly the matching transactions, in their order. */
  lemma SearchKeepsMatches(ts: seq<ClientFields>, searchTerm: string)
    ensures var r := FilteredTransactions(Some(ts), searchTerm).value;
      && IsSubsequence(r, ts)
      && forall t :: t in r <==> t in ts && SearchMatches(t, searchTerm)
  {
    var r := FilteredTransactions(Some(ts), searchTerm).value;
    forall t | t in ts && SearchMatches(t, searchTerm) ensures t in r {
      var i :| 0 <= i < |ts| && ts[i] == t;
    }
  }

  /** The case of the term does not matter: a term and its lower-case form find the same
      transactions. */
  lemma SearchIgnoresTermCase(t: ClientFields, searchTerm: string)
    ensures SearchMatches(t, ToLower(searchTerm)) == SearchMatches(t, searchTerm)
  {
    ToLowerIdempotent(searchTerm);
  }

  /** A name matches regardless of case: an upper-case name is found by a lower-case term. */
  lemma NameMatchIgnoresCase(t: ClientFields, searchTerm: string)
    requires searchTerm != "" && t.clientName.Some?
    requires Includes(ToLower(t.clientName.value), ToLower(searchTerm))
    ensures SearchMatches(t, searchTerm)
  {
  }

  /** Accented capitals are lower-cased too: "Élodie" is found by "élodie" and by "ÉLODIE". */
  lemma AccentedNameFound()
    ensures SearchMatches(ClientFields(Some("Élodie"), None, None, None), "élodie")
    ensures SearchMatches(ClientFields(Some("Élodie"), None, None, None), "ÉLODIE")
  {
    var lower := "élodie";
    assert ToLower("Élodie") == lower;
    assert ToLower("ÉLODIE") == lower;
    assert ToLower(lower) == lower;
    assert lower[..|lower|] == lower;
  }
}
