/** Row-by-row validation of imported order and payment sheets, and the success/failure
    counters of the import loops (frontend/src/utils/excelImport.ts). A sheet is a sequence of
    rows of cells, the first row holding the headers. The database calls of the import loops
    are replaced by an outcome per item, supplied from outside. */
module ExcelImport {
  import opened Wrappers
  import opened Text
  import opened Sheet

  datatype ParsedOrder = ParsedOrder(clientName: string, clientIdNumber: string, clientPhone: Option<string>, netAmount: real)

  datatype ParsedPayment = ParsedPayment(clientIdNumber: string, amount: real, paymentDate: Option<string>, notes: Option<string>)

  /** Why a data row was refused. */
  datatype RowProblem = NameMissing | IdMissing | IdMalformed | ClientNotFound(idNumber: string) | AmountInvalid

  /** An error reported by a validator; rows are numbered as the spreadsheet shows them. */
  datatype ImportError = FileEmpty | ClientsLoadFailed | RowError(rowNum: nat, problem: RowProblem)

  datatype ValidationResult<T> = ValidationResult(valid: bool, errors: seq<ImportError>, data: seq<T>)

  /** What the validator makes of one data row. */
  datatype Verdict<T> = Skip | Reject(problem: RowProblem) | Accept(value: T)

  /** The text shown for an error. */
  function Message(e: ImportError): string {
    match e
    case FileEmpty => "הקובץ ריק או לא מכיל שורות נתונים"
    case ClientsLoadFailed => "שגיאה בטעינת לקוחות מהמערכת"
    case RowError(n, p) =>
      "שורה " + NatToString(n) + ": " +
      match p
      case NameMissing => "שם לקוח חסר"
      case IdMissing => "ת\"ז חסר"
      case IdMalformed => "ת\"ז לא תקין (חייב להיות 9 ספרות)"
      case ClientNotFound(id) => "לקוח עם ת\"ז " + id + " לא נמצא במערכת"
      case AmountInvalid => "סכום לא תקין (חייב להיות מספר חיובי)"
  }

  // ---------------------------------------------------------------------------------------
  // Field readers
  // ---------------------------------------------------------------------------------------

  /** `cell?.toString().trim()`. */
  function TrimmedText(c: Cell): Option<string> {
    match ToText(c)
    case None => None
    case Some(s) => Some(Trim(s))
  }

  /** `!value` for a string that may be `undefined`. */
  predicate Blank(o: Option<string>) {
    o.None? || o.value == ""
  }

  /** `cell?.toString().trim() || undefined`: an optional field that is absent when blank. */
  function OptionalText(c: Cell): (o: Option<string>)
    ensures o.Some? ==> o.value != "" && TrimmedText(c) == o
    ensures o.None? ==> Blank(TrimmedText(c))
  {
    if Blank(TrimmedText(c)) then None else TrimmedText(c)
  }

  /** `/^\d{9}$/`: exactly nine ASCII digits. */
  predicate IsIdNumber(s: string) {
    |s| == 9 && AllDigits(s)
  }

  /** `!row || row.length === 0 || !row[0]`: rows the validators pass over silently. */
  predicate IsBlankRow(row: seq<Cell>) {
    |row| == 0 || Falsy(row[0])
  }

  // ---------------------------------------------------------------------------------------
  // Per-row verdicts
  // ---------------------------------------------------------------------------------------

  /** The checks of `validateOrdersData` on one row, in their order: name, ID present, ID of
      nine digits, positive amount. Columns: name, ID, phone, amount. */
  function OrderVerdict(row: seq<Cell>): Verdict<ParsedOrder> {
    if IsBlankRow(row) then Skip
    else
      var name := TrimmedText(row[0]);
      var id := TrimmedText(CellAt(row, 1));
      var amount := ParseFloat(CellAt(row, 3));
      if Blank(name) then Reject(NameMissing)
      else if Blank(id) then Reject(IdMissing)
      else if !IsIdNumber(id.value) then Reject(IdMalformed)
      else if amount.None? || amount.value <= 0.0 then Reject(AmountInvalid)
      else Accept(ParsedOrder(name.value, id.value, OptionalText(CellAt(row, 2)), amount.value))
  }

  /** The checks of `validatePaymentsData` on one row: ID present, ID of nine digits, ID of a
      known client, positive amount. Columns: ID, amount, date, notes. */
  function PaymentVerdict(row: seq<Cell>, existingIdNumbers: set<string>): Verdict<ParsedPayment> {
    if IsBlankRow(row) then Skip
    else
      var id := TrimmedText(row[0]);
      var amount := ParseFloat(CellAt(row, 1));
      if Blank(id) then Reject(IdMissing)
      else if !IsIdNumber(id.value) then Reject(IdMalformed)
      else if id.value !in existingIdNumbers then Reject(ClientNotFound(id.value))
      else if amount.None? || amount.value <= 0.0 then Reject(AmountInvalid)
      else Accept(ParsedPayment(id.value, amount.value, OptionalText(CellAt(row, 2)), OptionalText(CellAt(row, 3))))
  }

  /** An order row is accepted exactly when it is not blank, its trimmed name and ID are
      non-empty, the ID is nine digits and the amount is a number above zero; the order then
      holds those values. */
  lemma OrderAcceptedIff(row: seq<Cell>, o: ParsedOrder)
    ensures OrderVerdict(row) == Accept(o) <==>
      && !IsBlankRow(row)
      && TrimmedText(row[0]) == Some(o.clientName) && o.clientName != ""
      && TrimmedText(CellAt(row, 1)) == Some(o.clientIdNumber) && IsIdNumber(o.clientIdNumber)
      && ParseFloat(CellAt(row, 3)) == Some(o.netAmount) && o.netAmount > 0.0
      && o.clientPhone == OptionalText(CellAt(row, 2))
  {
  }

  /** A payment row with a well-formed ID that no client has is refused for that reason, whatever
      its amount: the client lookup comes before the amount check. */
  lemma UnknownClientBeforeAmount(row: seq<Cell>, existingIdNumbers: set<string>, id: string)
    requires !IsBlankRow(row) && TrimmedText(row[0]) == Some(id) && IsIdNumber(id)
    requires id !in existingIdNumbers
    ensures PaymentVerdict(row, existingIdNumbers) == Reject(ClientNotFound(id))
  {
  }

  /** A payment row is accepted exactly when it is not blank, its trimmed ID is nine digits and
      belongs to a known client, and its amount is a number above zero. */
  lemma PaymentAcceptedIff(row: seq<Cell>, existingIdNumbers: set<string>, p: ParsedPayment)
    ensures PaymentVerdict(row, existingIdNumbers) == Accept(p) <==>
      && !IsBlankRow(row)
      && TrimmedText(row[0]) == Some(p.clientIdNumber) && IsIdNumber(p.clientIdNumber)
      && p.clientIdNumber in existingIdNumbers
      && ParseFloat(CellAt(row, 1)) == Some(p.amount) && p.amount > 0.0
      && p.paymentDate == OptionalText(CellAt(row, 2)) && p.notes == OptionalText(CellAt(row, 3))
  {
  }

  // ---------------------------------------------------------------------------------------
  // Accumulating the verdicts
  // ---------------------------------------------------------------------------------------

  function RowErrorOf<T>(v: Verdict<T>, rowNum: nat): seq<ImportError> {
    if v.Reject? then [RowError(rowNum, v.problem)] else []
  }

  function AcceptedValue<T>(v: Verdict<T>): seq<T> {
    if v.Accept? then [v.value] else []
  }

  /** The errors of a run of verdicts, the first verdict being spreadsheet row `first`. */
  function ErrorsOf<T>(vs: seq<Verdict<T>>, first: nat): seq<ImportError> {
    if vs == [] then [] else ErrorsOf(vs[..|vs| - 1], first) + RowErrorOf(vs[|vs| - 1], first + |vs| - 1)
  }

  /** The accepted values of a run of verdicts, in order. */
  function AcceptedOf<T>(vs: seq<Verdict<T>>): seq<T> {
    if vs == [] then [] else AcceptedOf(vs[..|vs| - 1]) + AcceptedValue(vs[|vs| - 1])
  }

  /** The number of skipped rows. */
  function SkipCount<T>(vs: seq<Verdict<T>>): nat {
    if vs == [] then 0 else SkipCount(vs[..|vs| - 1]) + (if vs[|vs| - 1].Skip? then 1 else 0)
  }

  /** `{ valid: errors.length === 0 && validData.length > 0, errors, data: validData }`. */
  function Summarize<T>(vs: seq<Verdict<T>>, first: nat): ValidationResult<T> {
    var errors := ErrorsOf(vs, first);
    var data := AcceptedOf(vs);
    ValidationResult(errors == [] && |data| > 0, errors, data)
  }

  /** The verdicts on the data rows, the header row (row 1 of the sheet) left out. */
  function DataVerdicts<T>(rawData: seq<seq<Cell>>, verdict: seq<Cell> -> Verdict<T>): (vs: seq<Verdict<T>>)
    requires |rawData| >= 1
    ensures |vs| == |rawData| - 1 && forall j :: 0 <= j < |vs| ==> vs[j] == verdict(rawData[j + 1])
  {
    seq(|rawData| - 1, j requires 0 <= j < |rawData| - 1 => verdict(rawData[j + 1]))
  }

  /** The shared shape of both validators once their preconditions on the whole sheet hold. */
  function ValidateRows<T>(rawData: seq<seq<Cell>>, verdict: seq<Cell> -> Verdict<T>): ValidationResult<T>
    requires |rawData| >= 1
  {
    Summarize(DataVerdicts(rawData, verdict), 2)
  }

  /** What `validateOrdersData` returns: data row `i` of the sheet is reported as row `i + 1`. */
  function ValidateOrders(rawData: seq<seq<Cell>>): ValidationResult<ParsedOrder> {
    if |rawData| < 2 then ValidationResult(false, [FileEmpty], [])
    else ValidateRows(rawData, OrderVerdict)
  }

  /** What `validatePaymentsData` returns; `None` for the client list means loading it failed. */
  function ValidatePayments(rawData: seq<seq<Cell>>, existingIdNumbers: Option<set<string>>): ValidationResult<ParsedPayment> {
    if |rawData| < 2 then ValidationResult(false, [FileEmpty], [])
    else if existingIdNumbers.None? then ValidationResult(false, [ClientsLoadFailed], [])
    else ValidateRows(rawData, row => PaymentVerdict(row, existingIdNumbers.value))
  }

  // ---------------------------------------------------------------------------------------
  // The validators
  // ---------------------------------------------------------------------------------------

  /** `validateOrdersData`. */
  method ValidateOrdersData(rawData: seq<seq<Cell>>) returns (result: ValidationResult<ParsedOrder>)
    ensures result == ValidateOrders(rawData)
  {
    var errors: seq<ImportError> := [];
    var validData: seq<ParsedOrder> := [];
    if |rawData| < 2 {
      return ValidationResult(false, [FileEmpty], []);
    }
    ghost var vs := DataVerdicts(rawData, OrderVerdict);
    for i := 1 to |rawData|
      invariant errors == ErrorsOf(vs[..i - 1], 2)
      invariant validData == AcceptedOf(vs[..i - 1])
    {
      assert vs[..i][..i - 1] == vs[..i - 1];
      var row := rawData[i];
      var rowNum := i + 1;
      ghost var verdict := OrderVerdict(row);
      assert vs[i - 1] == verdict;
      if |row| == 0 || Falsy(row[0]) {
        continue;
      }
      var clientName := TrimmedText(row[0]);
      if Blank(clientName) {
        errors := errors + [RowError(rowNum, NameMissing)];
        continue;
      }
      var clientIdNumber := TrimmedText(CellAt(row, 1));
      if Blank(clientIdNumber) {
        errors := errors + [RowError(rowNum, IdMissing)];
        continue;
      }
      if !IsIdNumber(clientIdNumber.value) {
        errors := errors + [RowError(rowNum, IdMalformed)];
        continue;
      }
      var clientPhone := OptionalText(CellAt(row, 2));
      var netAmount := ParseFloat(CellAt(row, 3));
      if netAmount.None? || netAmount.value <= 0.0 {
        errors := errors + [RowError(rowNum, AmountInvalid)];
        continue;
      }
      validData := validData + [ParsedOrder(clientName.value, clientIdNumber.value, clientPhone, netAmount.value)];
    }
    assert vs[..|rawData| - 1] == vs;
    result := ValidationResult(|errors| == 0 && |validData| > 0, errors, validData);
  }

  /** The row loop of `validatePaymentsData`, after the client list is loaded. */
  method ValidatePaymentsData(rawData: seq<seq<Cell>>, existingIdNumbers: Option<set<string>>)
    returns (result: ValidationResult<ParsedPayment>)
    ensures result == ValidatePayments(rawData, existingIdNumbers)
  {
    var errors: seq<ImportError> := [];
    var validData: seq<ParsedPayment> := [];
    if |rawData| < 2 {
      return ValidationResult(false, [FileEmpty], []);
    }
    if existingIdNumbers.None? {
      return ValidationResult(false, [ClientsLoadFailed], []);
    }
    var ids := existingIdNumbers.value;
    ghost var vs := DataVerdicts(rawData, row => PaymentVerdict(row, ids));
    for i := 1 to |rawData|
      invariant errors == ErrorsOf(vs[..i - 1], 2)
      invariant validData == AcceptedOf(vs[..i - 1])
    {
      assert vs[..i][..i - 1] == vs[..i - 1];
      var row := rawData[i];
      var rowNum := i + 1;
      if |row| == 0 || Falsy(row[0]) {
        continue;
      }
      var clientIdNumber := TrimmedText(row[0]);
      if Blank(clientIdNumber) {
        errors := errors + [RowError(rowNum, IdMissing)];
        continue;
      }
      if !IsIdNumber(clientIdNumber.value) {
        errors := errors + [RowError(rowNum, IdMalformed)];
        continue;
      }
      if clientIdNumber.value !in ids {
        errors := errors + [RowError(rowNum, ClientNotFound(clientIdNumber.value))];
        continue;
      }
      var amount := ParseFloat(CellAt(row, 1));
      if amount.None? || amount.value <= 0.0 {
        errors := errors + [RowError(rowNum, AmountInvalid)];
        continue;
      }
      var paymentDate := OptionalText(CellAt(row, 2));
      var notes := OptionalText(CellAt(row, 3));
      validData := validData + [ParsedPayment(clientIdNumber.value, amount.value, paymentDate, notes)];
    }
    assert vs[..|rawData| - 1] == vs;
    result := ValidationResult(|errors| == 0 && |validData| > 0, errors, validData);
  }

  // ---------------------------------------------------------------------------------------
  // Properties of the validators
  // ---------------------------------------------------------------------------------------

  /** Every error names a data row, and the errors come in row order. */
  lemma {:induction false} ErrorsInRowOrder<T>(vs: seq<Verdict<T>>, first: nat)
    ensures var errors := ErrorsOf(vs, first);
      && (forall k :: 0 <= k < |errors| ==> errors[k].RowError? && first <= errors[k].rowNum < first + |vs|)
      && (forall k, l :: 0 <= k < l < |errors| ==> errors[k].rowNum < errors[l].rowNum)
  {
    if vs != [] {
      var last := |vs| - 1;
      ErrorsInRowOrder(vs[..last], first);
      assert ErrorsOf(vs, first) == ErrorsOf(vs[..last], first) + RowErrorOf(vs[last], first + last);
    }
  }

  /** Every error names a row whose verdict rejected it, for that reason. */
  lemma {:induction false} ErrorsAreRejects<T>(vs: seq<Verdict<T>>, first: nat)
    ensures forall k :: 0 <= k < |ErrorsOf(vs, first)| ==>
      var e := ErrorsOf(vs, first)[k];
      e.RowError? && first <= e.rowNum < first + |vs| && vs[e.rowNum - first] == Reject(e.problem)
  {
    if vs != [] {
      var last := |vs| - 1;
      var init := vs[..last];
      ErrorsAreRejects(init, first);
      var e0 := ErrorsOf(init, first);
      var errors := ErrorsOf(vs, first);
      assert errors == e0 + RowErrorOf(vs[last], first + last);
      forall k | 0 <= k < |errors|
        ensures errors[k].RowError? && first <= errors[k].rowNum < first + |vs|
        ensures vs[errors[k].rowNum - first] == Reject(errors[k].problem)
      {
        if k < |e0| {
          assert errors[k] == e0[k];
          assert e0[k].RowError? && first <= e0[k].rowNum < first + |init|;
          assert init[e0[k].rowNum - first] == Reject(e0[k].problem);
          assert init[e0[k].rowNum - first] == vs[e0[k].rowNum - first];
        } else {
          assert vs[last].Reject? && errors[k] == RowError(first + last, vs[last].problem);
        }
      }
    }
  }

  /** Every rejected verdict yields an error for its row. */
  lemma {:induction false} RejectsAreReported<T>(vs: seq<Verdict<T>>, first: nat)
    ensures forall j :: 0 <= j < |vs| && vs[j].Reject? ==> RowError(first + j, vs[j].problem) in ErrorsOf(vs, first)
  {
    if vs != [] {
      var last := |vs| - 1;
      var init := vs[..last];
      RejectsAreReported(init, first);
      var e0 := ErrorsOf(init, first);
      assert ErrorsOf(vs, first) == e0 + RowErrorOf(vs[last], first + last);
      forall j | 0 <= j < last && vs[j].Reject? ensures RowError(first + j, vs[j].problem) in e0 {
        assert init[j] == vs[j];
      }
    }
  }

  /** Accepting distributes over concatenation: the accepted values keep the input order. */
  lemma {:induction false} AcceptedOfConcat<T>(a: seq<Verdict<T>>, b: seq<Verdict<T>>)
    ensures AcceptedOf(a + b) == AcceptedOf(a) + AcceptedOf(b)
    decreases |b|
  {
    if b != [] {
      var b' := b[..|b| - 1];
      assert (a + b)[..|a + b| - 1] == a + b';
      AcceptedOfConcat(a, b');
    } else {
      assert a + b == a;
    }
  }

  /** The accepted values are exactly the values of the accepted rows. */
  lemma {:induction false} AcceptedOfMeaning<T>(vs: seq<Verdict<T>>)
    ensures forall x :: x in AcceptedOf(vs) <==> exists j :: 0 <= j < |vs| && vs[j] == Accept(x)
  {
    if vs != [] {
      var init := vs[..|vs| - 1];
      AcceptedOfMeaning(init);
      assert forall j :: 0 <= j < |init| ==> init[j] == vs[j];
    }
  }

  /** Every data row ends up as exactly one of: skipped, one error, one accepted value. */
  lemma {:induction false} EachRowCountedOnce<T>(vs: seq<Verdict<T>>, first: nat)
    ensures SkipCount(vs) + |ErrorsOf(vs, first)| + |AcceptedOf(vs)| == |vs|
  {
    if vs != [] {
      EachRowCountedOnce(vs[..|vs| - 1], first);
    }
  }

  /** No errors exactly when no row is rejected. */
  lemma {:induction false} NoErrorsIffNoRejects<T>(vs: seq<Verdict<T>>, first: nat)
    ensures ErrorsOf(vs, first) == [] <==> forall j :: 0 <= j < |vs| ==> !vs[j].Reject?
  {
    if vs != [] {
      var init := vs[..|vs| - 1];
      NoErrorsIffNoRejects(init, first);
      assert forall j :: 0 <= j < |init| ==> init[j] == vs[j];
    }
  }

  /** A sheet with fewer than two rows is refused with a single error and no data. */
  lemma ShortSheetRefused(rawData: seq<seq<Cell>>, existingIdNumbers: Option<set<string>>)
    requires |rawData| < 2
    ensures ValidateOrders(rawData) == ValidationResult(false, [FileEmpty], [])
    ensures ValidatePayments(rawData, existingIdNumbers) == ValidationResult(false, [FileEmpty], [])
  {
  }

  /** The header row is never validated: replacing it changes nothing. */
  lemma HeaderIgnored(h1: seq<Cell>, h2: seq<Cell>, rows: seq<seq<Cell>>, existingIdNumbers: Option<set<string>>)
    ensures ValidateOrders([h1] + rows) == ValidateOrders([h2] + rows)
    ensures ValidatePayments([h1] + rows, existingIdNumbers) == ValidatePayments([h2] + rows, existingIdNumbers)
  {
    if |rows| >= 1 {
      SameDataRows([h1] + rows, [h2] + rows, OrderVerdict);
      if existingIdNumbers.Some? {
        SameDataRows([h1] + rows, [h2] + rows, row => PaymentVerdict(row, existingIdNumbers.value));
      }
    }
  }

  lemma SameDataRows<T>(a: seq<seq<Cell>>, b: seq<seq<Cell>>, verdict: seq<Cell> -> Verdict<T>)
    requires |a| == |b| >= 1 && a[1..] == b[1..]
    ensures DataVerdicts(a, verdict) == DataVerdicts(b, verdict)
  {
    assert forall j :: 1 <= j < |a| ==> a[j] == a[1..][j - 1];
  }

  /** Verdict `j` is reported as row `first + j` exactly when it rejects, and its value is in
      the data when it accepts. */
  lemma VerdictReported<T>(vs: seq<Verdict<T>>, first: nat, j: int)
    requires 0 <= j < |vs|
    ensures forall p :: RowError(first + j, p) in ErrorsOf(vs, first) <==> vs[j] == Reject(p)
    ensures vs[j].Accept? ==> vs[j].value in AcceptedOf(vs)
  {
    ErrorsAreRejects(vs, first);
    RejectsAreReported(vs, first);
    AcceptedOfMeaning(vs);
    var errors := ErrorsOf(vs, first);
    forall p | RowError(first + j, p) in errors ensures vs[j] == Reject(p) {
      var k :| 0 <= k < |errors| && errors[k] == RowError(first + j, p);
    }
  }

  /** A run of verdicts is valid exactly when none rejects and at least one accepts. */
  lemma SummaryValidIff<T>(vs: seq<Verdict<T>>, first: nat)
    ensures Summarize(vs, first).valid <==>
      (forall j :: 0 <= j < |vs| ==> !vs[j].Reject?) && (exists j :: 0 <= j < |vs| && vs[j].Accept?)
  {
    NoErrorsIffNoRejects(vs, first);
    SomeAcceptedIff(vs);
  }

  /** Some value is accepted exactly when some verdict accepts. */
  lemma {:induction false} SomeAcceptedIff<T>(vs: seq<Verdict<T>>)
    ensures |AcceptedOf(vs)| > 0 <==> exists j :: 0 <= j < |vs| && vs[j].Accept?
  {
    if vs != [] {
      var init := vs[..|vs| - 1];
      SomeAcceptedIff(init);
      if exists j :: 0 <= j < |init| && init[j].Accept? {
        var j :| 0 <= j < |init| && init[j].Accept?;
        assert vs[j].Accept?;
      }
      if exists j :: 0 <= j < |vs| && vs[j].Accept? {
        var j :| 0 <= j < |vs| && vs[j].Accept?;
        if j < |init| {
          assert init[j].Accept?;
        }
      }
    }
  }

  /** Sheet row `i` (from 1) is rejected exactly when an error names row `i + 1`, for the same
      reason, so a blank row yields no error; an accepted row's value is in the data. */
  lemma RowReported<T>(rawData: seq<seq<Cell>>, verdict: seq<Cell> -> Verdict<T>, i: int)
    requires 1 <= i < |rawData|
    ensures var r := ValidateRows(rawData, verdict);
      && (forall p :: RowError(i + 1, p) in r.errors <==> verdict(rawData[i]) == Reject(p))
      && (verdict(rawData[i]).Accept? ==> verdict(rawData[i]).value in r.data)
  {
    VerdictReported(DataVerdicts(rawData, verdict), 2, i - 1);
  }

  /** A sheet with data rows is valid exactly when none of them is rejected and at least one is
      accepted. */
  lemma RowsValidIff<T>(rawData: seq<seq<Cell>>, verdict: seq<Cell> -> Verdict<T>)
    requires |rawData| >= 2
    ensures ValidateRows(rawData, verdict).valid <==>
      && (forall i :: 1 <= i < |rawData| ==> !verdict(rawData[i]).Reject?)
      && (exists i :: 1 <= i < |rawData| && verdict(rawData[i]).Accept?)
  {
    var vs := DataVerdicts(rawData, verdict);
    SummaryValidIff(vs, 2);
    VerdictsOfRows(rawData, verdict, vs);
  }

  /** The data verdicts reject or accept exactly when the rows' own verdicts do. */
  lemma VerdictsOfRows<T>(rawData: seq<seq<Cell>>, verdict: seq<Cell> -> Verdict<T>, vs: seq<Verdict<T>>)
    requires |vs| == |rawData| - 1 && forall j :: 0 <= j < |vs| ==> vs[j] == verdict(rawData[j + 1])
    ensures (forall i :: 1 <= i < |rawData| ==> !verdict(rawData[i]).Reject?) <==>
      (forall j :: 0 <= j < |vs| ==> !vs[j].Reject?)
    ensures (exists i :: 1 <= i < |rawData| && verdict(rawData[i]).Accept?) <==>
      (exists j :: 0 <= j < |vs| && vs[j].Accept?)
  {
    assert forall i :: 1 <= i < |rawData| ==> vs[i - 1] == verdict(rawData[i]);
    if exists i :: 1 <= i < |rawData| && verdict(rawData[i]).Accept? {
      var i :| 1 <= i < |rawData| && verdict(rawData[i]).Accept?;
      assert vs[i - 1].Accept?;
    }
  }



  /** Orders: row `i` of the sheet is reported as row `i + 1` exactly when it is rejected, and
      the verdict is valid exactly when the sheet has data rows, none rejected and one accepted. */
  lemma OrderRowsReported(rawData: seq<seq<Cell>>, i: int)
    requires 1 <= i < |rawData|
    ensures var r := ValidateOrders(rawData);
      && (forall p :: RowError(i + 1, p) in r.errors <==> OrderVerdict(rawData[i]) == Reject(p))
      && (OrderVerdict(rawData[i]).Accept? ==> OrderVerdict(rawData[i]).value in r.data)
  {
    RowReported(rawData, OrderVerdict, i);
  }

  lemma OrdersValidIff(rawData: seq<seq<Cell>>)
    ensures ValidateOrders(rawData).valid <==>
      && |rawData| >= 2
      && (forall i :: 1 <= i < |rawData| ==> !OrderVerdict(rawData[i]).Reject?)
      && (exists i :: 1 <= i < |rawData| && OrderVerdict(rawData[i]).Accept?)
  {
    if |rawData| >= 2 {
      RowsValidIff(rawData, OrderVerdict);
    }
  }

  /** Payments: loading the client list failing gives one error and no data; otherwise row `i`
      is reported as row `i + 1` exactly when it is rejected, and the verdict is valid exactly
      when no data row is rejected and one is accepted. */
  lemma PaymentRowsReported(rawData: seq<seq<Cell>>, existingIdNumbers: set<string>, i: int)
    requires 1 <= i < |rawData|
    ensures ValidatePayments(rawData, None) == ValidationResult(false, [ClientsLoadFailed], [])
    ensures var r := ValidatePayments(rawData, Some(existingIdNumbers));
      var v := PaymentVerdict(rawData[i], existingIdNumbers);
      && (forall p :: RowError(i + 1, p) in r.errors <==> v == Reject(p))
      && (v.Accept? ==> v.value in r.data)
  {
    RowReported(rawData, row => PaymentVerdict(row, existingIdNumbers), i);
  }

  lemma PaymentsValidIff(rawData: seq<seq<Cell>>, existingIdNumbers: set<string>)
    ensures ValidatePayments(rawData, Some(existingIdNumbers)).valid <==>
      && |rawData| >= 2
      && (forall i :: 1 <= i < |rawData| ==> !PaymentVerdict(rawData[i], existingIdNumbers).Reject?)
      && (exists i :: 1 <= i < |rawData| && PaymentVerdict(rawData[i], existingIdNumbers).Accept?)
  {
    if |rawData| >= 2 {
      RowsValidIff(rawData, row => PaymentVerdict(row, existingIdNumbers));
    }
  }

  // ---------------------------------------------------------------------------------------
  // Import loops
  // ---------------------------------------------------------------------------------------

  /** How the database steps for one order ended: all three succeeded, or the first that failed
      with its message, or an exception. */
  datatype OrderOutcome = Imported | ClientFailed(message: string) | TransactionFailed(message: string)
                        | CalcFailed(message: string) | OrderThrew(message: string)

  /** How the database steps for one payment ended. */
  datatype PaymentOutcome = Recorded | ClientMissing | InsertFailed(message: string) | PaymentThrew(message: string)

  /** The error text `importOrders` records for an order, if it failed. */
  function OrderFailure(order: ParsedOrder, outcome: OrderOutcome): seq<string> {
    match outcome
    case Imported => []
    case ClientFailed(m) => [order.clientName + ": שגיאה ביצירת לקוח - " + m]
    case TransactionFailed(m) => [order.clientName + ": שגיאה ביצירת עסקה - " + m]
    case CalcFailed(m) => [order.clientName + ": שגיאה בחישוב תלושים - " + m]
    case OrderThrew(m) => [order.clientName + ": " + m]
  }

  /** The error text `importPayments` records for a payment, if it failed. */
  function PaymentFailure(payment: ParsedPayment, outcome: PaymentOutcome): seq<string> {
    match outcome
    case Recorded => []
    case ClientMissing => ["ת\"ז " + payment.clientIdNumber + ": לקוח לא נמצא"]
    case InsertFailed(m) => ["ת\"ז " + payment.clientIdNumber + ": " + m]
    case PaymentThrew(m) => ["ת\"ז " + payment.clientIdNumber + ": " + m]
  }

  function OrderFailures(orders: seq<ParsedOrder>, outcomes: seq<OrderOutcome>): seq<string>
    requires |outcomes| == |orders|
  {
    if orders == [] then []
    else OrderFailures(orders[..|orders| - 1], outcomes[..|orders| - 1]) + OrderFailure(orders[|orders| - 1], outcomes[|orders| - 1])
  }

  function ImportedCount(outcomes: seq<OrderOutcome>): nat {
    if outcomes == [] then 0 else ImportedCount(outcomes[..|outcomes| - 1]) + (if outcomes[|outcomes| - 1].Imported? then 1 else 0)
  }

  function PaymentFailures(payments: seq<ParsedPayment>, outcomes: seq<PaymentOutcome>): seq<string>
    requires |outcomes| == |payments|
  {
    if payments == [] then []
    else PaymentFailures(payments[..|payments| - 1], outcomes[..|payments| - 1]) + PaymentFailure(payments[|payments| - 1], outcomes[|payments| - 1])
  }

  function RecordedCount(outcomes: seq<PaymentOutcome>): nat {
    if outcomes == [] then 0 else RecordedCount(outcomes[..|outcomes| - 1]) + (if outcomes[|outcomes| - 1].Recorded? then 1 else 0)
  }

  /** The counters of `importOrders`: each order adds one to exactly one of them. */
  method ImportOrders(orders: seq<ParsedOrder>, outcomes: seq<OrderOutcome>)
    returns (success: nat, failed: nat, errors: seq<string>)
    requires |outcomes| == |orders|
    ensures success + failed == |orders|
    ensures success == ImportedCount(outcomes)
    ensures errors == OrderFailures(orders, outcomes)
  {
    success, failed, errors := 0, 0, [];
    for i := 0 to |orders|
      invariant success + failed == i
      invariant success == ImportedCount(outcomes[..i])
      invariant errors == OrderFailures(orders[..i], outcomes[..i])
    {
      assert orders[..i + 1][..i] == orders[..i] && outcomes[..i + 1][..i] == outcomes[..i];
      var order := orders[i];
      match outcomes[i]
      case ClientFailed(m) =>
        errors := errors + [order.clientName + ": שגיאה ביצירת לקוח - " + m];
        failed := failed + 1;
      case TransactionFailed(m) =>
        errors := errors + [order.clientName + ": שגיאה ביצירת עסקה - " + m];
        failed := failed + 1;
      case CalcFailed(m) =>
        errors := errors + [order.clientName + ": שגיאה בחישוב תלושים - " + m];
        failed := failed + 1;
      case OrderThrew(m) =>
        errors := errors + [order.clientName + ": " + m];
        failed := failed + 1;
      case Imported =>
        success := success + 1;
    }
    assert orders[..|orders|] == orders && outcomes[..|orders|] == outcomes;
  }

  /** The counters of `importPayments`: each payment adds one to exactly one of them. */
  method ImportPayments(payments: seq<ParsedPayment>, outcomes: seq<PaymentOutcome>)
    returns (success: nat, failed: nat, errors: seq<string>)
    requires |outcomes| == |payments|
    ensures success + failed == |payments|
    ensures success == RecordedCount(outcomes)
    ensures errors == PaymentFailures(payments, outcomes)
  {
    success, failed, errors := 0, 0, [];
    for i := 0 to |payments|
      invariant success + failed == i
      invariant success == RecordedCount(outcomes[..i])
      invariant errors == PaymentFailures(payments[..i], outcomes[..i])
    {
      assert payments[..i + 1][..i] == payments[..i] && outcomes[..i + 1][..i] == outcomes[..i];
      var payment := payments[i];
      match outcomes[i]
      case ClientMissing =>
        errors := errors + ["ת\"ז " + payment.clientIdNumber + ": לקוח לא נמצא"];
        failed := failed + 1;
      case InsertFailed(m) =>
        errors := errors + ["ת\"ז " + payment.clientIdNumber + ": " + m];
        failed := failed + 1;
      case PaymentThrew(m) =>
        errors := errors + ["ת\"ז " + payment.clientIdNumber + ": " + m];
        failed := failed + 1;
      case Recorded =>
        success := success + 1;
    }
    assert payments[..|payments|] == payments && outcomes[..|payments|] == outcomes;
  }

  /** One error message per failed order, none for an imported one. */
  lemma {:induction false} OneMessagePerFailedOrder(orders: seq<ParsedOrder>, outcomes: seq<OrderOutcome>)
    requires |outcomes| == |orders|
    ensures |OrderFailures(orders, outcomes)| + ImportedCount(outcomes) == |orders|
  {
    if orders != [] {
      OneMessagePerFailedOrder(orders[..|orders| - 1], outcomes[..|orders| - 1]);
    }
  }

  /** One error message per failed payment, none for a recorded one. */
  lemma {:induction false} OneMessagePerFailedPayment(payments: seq<ParsedPayment>, outcomes: seq<PaymentOutcome>)
    requires |outcomes| == |payments|
    ensures |PaymentFailures(payments, outcomes)| + RecordedCount(outcomes) == |payments|
  {
    if payments != [] {
      OneMessagePerFailedPayment(payments[..|payments| - 1], outcomes[..|payments| - 1]);
    }
  }
}
