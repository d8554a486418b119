/** The Excel export: column widths for a sheet, the choice of what to export, the voucher
    column's text and the name of the downloaded file. */
module ExportExcel {
  import opened Wrappers
  import opened Text
  import opened Seqs
  import opened Sheet
  import opened Calculations

  // ------------------------------------------------------------------
  // Column widths
  // ------------------------------------------------------------------

  /** The length of `String(cell || '')`, counted as JavaScript counts it: in UTF-16 code
      units, so a character beyond U+FFFF, such as an emoji, counts twice. */
  function CellLength(c: Cell): nat {
    Utf16Length(DisplayText(c))
  }

  /** The length of the longest row: the number of columns the sheet has. */
  function MaxLength(data: seq<seq<Cell>>): nat {
    if data == [] then 0
    else var m := MaxLength(data[..|data| - 1]);
      if |data[|data| - 1]| > m then |data[|data| - 1]| else m
  }

  /** The longest text in column `c` over the rows that reach it; 0 when none does. */
  function ColumnMax(data: seq<seq<Cell>>, c: nat): nat {
    if data == [] then 0
    else
      var m := ColumnMax(data[..|data| - 1], c);
      var row := data[|data| - 1];
      if c < |row| && CellLength(row[c]) > m then CellLength(row[c]) else m
  }

  function Min(a: int, b: int): int {
    if a < b then a else b
  }

  /** `calculateColumnWidth`: every cell widens its column to its text length; each column then
      gets two characters of padding and is capped at 50. */
  method CalculateColumnWidth(data: seq<seq<Cell>>) returns (wch: seq<int>)
    ensures |wch| == MaxLength(data)
    ensures forall c :: 0 <= c < |wch| ==> wch[c] == Min(ColumnMax(data, c) + 2, 50)
  {
    var columnWidths: seq<nat> := [];
    for r := 0 to |data|
      invariant WidthsMatch(columnWidths, data[..r])
    {
      assert data[..r + 1] == data[..r] + [data[r]];
      columnWidths := WidenColumns(columnWidths, data[..r], data[r]);
    }
    assert data[..|data|] == data;
    wch := seq(|columnWidths|, k requires 0 <= k < |columnWidths| => Min(columnWidths[k] + 2, 50));
  }

  /** The widths so far are the sheet's column widths over `rows`. */
  ghost predicate WidthsMatch(widths: seq<nat>, rows: seq<seq<Cell>>) {
    && |widths| == MaxLength(rows)
    && forall k :: 0 <= k < |widths| ==> widths[k] == ColumnMax(rows, k)
  }

  /** The inner loop of `calculateColumnWidth`: one row widens the columns it reaches. */
  method WidenColumns(columnWidths: seq<nat>, rows: seq<seq<Cell>>, row: seq<Cell>) returns (widths: seq<nat>)
    requires WidthsMatch(columnWidths, rows)
    ensures WidthsMatch(widths, rows + [row])
  {
    ghost var next := rows + [row];
    assert next[..|next| - 1] == rows && next[|next| - 1] == row;
    widths := columnWidths;
    for colIndex := 0 to |row|
      invariant |widths| == if MaxLength(rows) > colIndex then MaxLength(rows) else colIndex
      invariant forall k :: 0 <= k < |widths| ==>
        widths[k] == if k < colIndex then ColumnMax(next, k) else ColumnMax(rows, k)
    {
      var cellLength := CellLength(row[colIndex]);
      if colIndex == |widths| {
        ColumnMaxBeyond(rows, colIndex);
        widths := widths + [cellLength];
      } else if widths[colIndex] == 0 || widths[colIndex] < cellLength {
        widths := widths[colIndex := cellLength];
      }
    }
    forall k | |row| <= k < |widths| ensures widths[k] == ColumnMax(next, k) {
    }
  }

  /** A column past every row is empty. */
  lemma {:induction false} ColumnMaxBeyond(data: seq<seq<Cell>>, c: nat)
    requires c >= MaxLength(data)
    ensures ColumnMax(data, c) == 0
  {
    if data != [] {
      ColumnMaxBeyond(data[..|data| - 1], c);
    }
  }

  /** No row is longer than the sheet is wide, and some row is exactly that long. */
  lemma {:induction false} MaxLengthMeaning(data: seq<seq<Cell>>)
    ensures forall r :: 0 <= r < |data| ==> |data[r]| <= MaxLength(data)
    ensures data != [] ==> exists r :: 0 <= r < |data| && |data[r]| == MaxLength(data)
  {
    if data != [] {
      var init := data[..|data| - 1];
      var last := |data| - 1;
      MaxLengthMeaning(init);
      assert MaxLength(data) == if |data[last]| > MaxLength(init) then |data[last]| else MaxLength(init);
      assert forall r :: 0 <= r < |init| ==> data[r] == init[r];
      if |data[last]| != MaxLength(data) {
        assert init != [];
        var r :| 0 <= r < |init| && |init[r]| == MaxLength(init);
        assert data[r] == init[r];
      }
    }
  }

  /** A column's width before padding is the longest text of any cell in it: no cell is longer,
      and one cell is that long whenever some cell has text. */
  lemma {:induction false} ColumnMaxMeaning(data: seq<seq<Cell>>, c: nat)
    ensures forall r :: 0 <= r < |data| && c < |data[r]| ==> CellLength(data[r][c]) <= ColumnMax(data, c)
    ensures ColumnMax(data, c) > 0 ==> exists r :: 0 <= r < |data| && c < |data[r]| && CellLength(data[r][c]) == ColumnMax(data, c)
  {
    if data != [] {
      var init := data[..|data| - 1];
      ColumnMaxMeaning(init, c);
      assert forall r :: 0 <= r < |init| ==> data[r] == init[r];
      if ColumnMax(init, c) > 0 && ColumnMax(data, c) == ColumnMax(init, c) {
        var r :| 0 <= r < |init| && c < |init[r]| && CellLength(init[r][c]) == ColumnMax(init, c);
        assert data[r] == init[r];
      }
    }
  }

  /** Widths stay between 2 and 50: the padding on an empty column, the cap on a long one. */
  lemma WidthBounds(data: seq<seq<Cell>>, c: nat)
    ensures 2 <= Min(ColumnMax(data, c) + 2, 50) <= 50
    ensures ColumnMax(data, c) <= 48 ==> Min(ColumnMax(data, c) + 2, 50) == ColumnMax(data, c) + 2
  {
  }

  /** The heading of the debts sheet's institution list (exportExcel.ts, the debts sheet). */
  const DebtsHeading := "📋 פירוט חובות לפי מוסד:"

  /** A non-empty text cell is as long as its text. */
  lemma TextCellLength(text: string, parsed: Option<real>)
    requires text != ""
    ensures CellLength(Str(text, parsed)) == Utf16Length(text)
  {
  }

  /** One character beyond U+FFFF followed by characters within it. */
  lemma AstralThenPlain(e: char, rest: string)
    requires e as int >= 0x1_0000
    requires forall i :: 0 <= i < |rest| ==> rest[i] as int < 0x1_0000
    ensures Utf16Length([e] + rest) == |rest| + 2
  {
    Utf16LengthBounds(rest);
    Utf16LengthConcat([e], rest);
    assert [e][1..] == [];
  }

  /** The heading has 23 characters but 24 code units, its emoji being a surrogate pair. */
  lemma DebtsHeadingLength()
    ensures |DebtsHeading| == 23 && CellLength(Str(DebtsHeading, None)) == 24
  {
    var rest := DebtsHeading[1..];
    assert DebtsHeading == [DebtsHeading[0]] + rest;
    assert forall i :: 0 <= i < |rest| ==> rest[i] as int < 0x1_0000;
    AstralThenPlain(DebtsHeading[0], rest);
    TextCellLength(DebtsHeading, None);
  }

  /** Alone in its column, the heading makes the column 26 wide, where a count by characters
      would give 25. */
  lemma DebtsHeadingWidth()
    ensures Min(ColumnMax([[Str(DebtsHeading, None)]], 0) + 2, 50) == 26
  {
    DebtsHeadingLength();
    SingleCellColumn(Str(DebtsHeading, None));
  }

  /** A sheet of one cell has that cell's length as its first column's width. */
  lemma SingleCellColumn(c: Cell)
    ensures ColumnMax([[c]], 0) == CellLength(c)
  {
    assert [[c]][..0] == [];
  }

  // ------------------------------------------------------------------
  // What to export
  // ------------------------------------------------------------------

  datatype Institution = Institution(id: string, name: string)
  datatype GroupRow = GroupRow(id: string, name: string, institutionId: Option<string>)
  /** A transaction's links, and its time as an instant. */
  datatype TransactionRow = TransactionRow(groupId: Option<string>, institutionId: Option<string>, time: int)

  datatype ExportType = All | Institutions | Groups | Dates

  /** The export dialog's choices. The dates are the instants `new Date(from)` and
      `new Date(to + 'T23:59:59')`; `None` stands for an empty field. */
  datatype Selection = Selection(
    exportType: ExportType,
    institutions: seq<string>,
    groups: seq<string>,
    dateFrom: Option<int>,
    dateTo: Option<int>)

  datatype ExportData = ExportData(institutions: seq<Institution>, groups: seq<GroupRow>, transactions: seq<TransactionRow>)

  /** `x || ''`. */
  function OrEmpty(o: Option<string>): string {
    if o.Some? then o.value else ""
  }

  /** `ids.includes(x)` for an id that may be `null`: `null` is never included. */
  predicate Includes(ids: seq<string>, x: Option<string>) {
    x.Some? && x.value in ids
  }

  /** The group ids the kept transactions refer to, `null` and empty ids dropped. */
  function ReferencedGroups(ts: seq<TransactionRow>): set<string> {
    set t | t in ts && t.groupId.Some? && t.groupId.value != "" :: t.groupId.value
  }

  /** The institution ids the kept groups belong to. */
  function OwningInstitutions(gs: seq<GroupRow>): set<Option<string>> {
    set g | g in gs :: g.institutionId
  }

  predicate InRange(t: TransactionRow, from: Option<int>, to: Option<int>) {
    (from.None? || t.time >= from.value) && (to.None? || t.time <= to.value)
  }

  /** The filter cascade of `exportToExcel`: by the selected institutions, by the selected groups
      (and then their institutions), or by dates (and then the groups and institutions the
      remaining transactions reach); anything else exports everything. */
  function FilterExport(data: ExportData, sel: Selection): ExportData {
    if sel.exportType == Institutions && |sel.institutions| > 0 then
      ExportData(
        Filter(data.institutions, (i: Institution) => i.id in sel.institutions),
        Filter(data.groups, (g: GroupRow) => Includes(sel.institutions, g.institutionId)),
        Filter(data.transactions, (t: TransactionRow) => OrEmpty(t.institutionId) in sel.institutions))
    else if sel.exportType == Groups && |sel.groups| > 0 then
      var groups := Filter(data.groups, (g: GroupRow) => g.id in sel.groups);
      var transactions := Filter(data.transactions, (t: TransactionRow) => OrEmpty(t.groupId) in sel.groups);
      var institutionIds := OwningInstitutions(groups);
      ExportData(Filter(data.institutions, (i: Institution) => Some(i.id) in institutionIds), groups, transactions)
    else if sel.exportType == Dates then
      var transactions := Filter(data.transactions, (t: TransactionRow) => InRange(t, sel.dateFrom, sel.dateTo));
      var groupIds := ReferencedGroups(transactions);
      var groups := Filter(data.groups, (g: GroupRow) => g.id in groupIds);
      var institutionIds := OwningInstitutions(groups);
      ExportData(Filter(data.institutions, (i: Institution) => Some(i.id) in institutionIds), groups, transactions)
    else data
  }

  /** Every exported list keeps some of its input's entries, in their order. */
  lemma ExportKeepsOrder(data: ExportData, sel: Selection)
    ensures var r := FilterExport(data, sel);
      && IsSubsequence(r.institutions, data.institutions)
      && IsSubsequence(r.groups, data.groups)
      && IsSubsequence(r.transactions, data.transactions)
  {
    if sel.exportType == All || (sel.exportType == Institutions && |sel.institutions| == 0) || (sel.exportType == Groups && |sel.groups| == 0) {
      SubsequenceReflexive(data.institutions);
      SubsequenceReflexive(data.groups);
      SubsequenceReflexive(data.transactions);
    }
  }

  /** Type 'all', or a type whose selection is empty, exports everything. */
  lemma UnfilteredExport(data: ExportData, sel: Selection)
    requires sel.exportType == All || (sel.exportType == Institutions && sel.institutions == [])
      || (sel.exportType == Groups && sel.groups == [])
    ensures FilterExport(data, sel) == data
  {
  }

  /** Exporting by institutions keeps exactly the selected institutions and the groups and
      transactions that belong to them. */
  lemma InstitutionExport(data: ExportData, sel: Selection)
    requires sel.exportType == Institutions && sel.institutions != []
    ensures var r := FilterExport(data, sel);
      && (forall i :: i in r.institutions <==> i in data.institutions && i.id in sel.institutions)
      && (forall g :: g in r.groups <==> g in data.groups && Includes(sel.institutions, g.institutionId))
      && (forall t :: t in r.transactions <==> t in data.transactions && OrEmpty(t.institutionId) in sel.institutions)
  {
    FilterMembers(data.institutions, (i: Institution) => i.id in sel.institutions);
    FilterMembers(data.groups, (g: GroupRow) => Includes(sel.institutions, g.institutionId));
    FilterMembers(data.transactions, (t: TransactionRow) => OrEmpty(t.institutionId) in sel.institutions);
  }

  /** Exporting by groups keeps the selected groups and their transactions, and exactly the
      institutions that own a kept group. */
  lemma GroupExport(data: ExportData, sel: Selection)
    requires sel.exportType == Groups && sel.groups != []
    ensures var r := FilterExport(data, sel);
      && (forall g :: g in r.groups <==> g in data.groups && g.id in sel.groups)
      && (forall t :: t in r.transactions <==> t in data.transactions && OrEmpty(t.groupId) in sel.groups)
      && (forall i :: i in r.institutions <==>
            i in data.institutions && exists g :: g in r.groups && g.institutionId == Some(i.id))
  {
    var groups := Filter(data.groups, (g: GroupRow) => g.id in sel.groups);
    FilterMembers(data.groups, (g: GroupRow) => g.id in sel.groups);
    FilterMembers(data.transactions, (t: TransactionRow) => OrEmpty(t.groupId) in sel.groups);
    var institutionIds := OwningInstitutions(groups);
    FilterMembers(data.institutions, (i: Institution) => Some(i.id) in institutionIds);
  }

  /** Exporting by dates keeps the transactions inside the range, the groups they refer to,
      and the institutions that own those groups. */
  lemma DateExport(data: ExportData, sel: Selection)
    requires sel.exportType == Dates
    ensures var r := FilterExport(data, sel);
      && (forall t :: t in r.transactions <==> t in data.transactions && InRange(t, sel.dateFrom, sel.dateTo))
      && (forall g :: g in r.groups <==>
            g in data.groups && exists t :: t in r.transactions && t.groupId == Some(g.id) && g.id != "")
      && (forall i :: i in r.institutions <==>
            i in data.institutions && exists g :: g in r.groups && g.institutionId == Some(i.id))
  {
    var transactions := Filter(data.transactions, (t: TransactionRow) => InRange(t, sel.dateFrom, sel.dateTo));
    FilterMembers(data.transactions, (t: TransactionRow) => InRange(t, sel.dateFrom, sel.dateTo));
    var groupIds := ReferencedGroups(transactions);
    var groups := Filter(data.groups, (g: GroupRow) => g.id in groupIds);
    FilterMembers(data.groups, (g: GroupRow) => g.id in groupIds);
    var institutionIds := OwningInstitutions(groups);
    FilterMembers(data.institutions, (i: Institution) => Some(i.id) in institutionIds);
  }

  /** Membership in a filtered list: exactly the input's members that satisfy the condition. */
  lemma FilterMembers<T>(xs: seq<T>, p: T -> bool)
    ensures forall x :: x in Filter(xs, p) <==> x in xs && p(x)
  {
    forall x | x in xs && p(x) ensures x in Filter(xs, p) {
      var i :| 0 <= i < |xs| && xs[i] == x;
    }
  }

  lemma {:induction false} SubsequenceReflexive<T>(xs: seq<T>)
    ensures IsSubsequence(xs, xs)
  {
    if xs != [] {
      SubsequenceReflexive(xs[1..]);
    }
  }

  // ------------------------------------------------------------------
  // The vouchers column
  // ------------------------------------------------------------------

  /** One item of the column: `${n}×${face}` for a positive count, '' otherwise. */
  function VoucherPart(count: int, face: nat): string {
    if count > 0 then NatToString(count) + "×" + NatToString(face) else ""
  }

  /** `vouchersText`: the four items from 50 up to 200, empty ones dropped, joined by ", ". */
  function VouchersText(d: VoucherDistribution): string {
    var parts := [VoucherPart(d.vouchers50, 50), VoucherPart(d.vouchers100, 100),
                  VoucherPart(d.vouchers150, 150), VoucherPart(d.vouchers200, 200)];
    Join(Filter(parts, Shown()), ", ")
  }

  /** The items the column shows: the positive counts, from 50 up to 200. */
  function ColumnEntries(d: VoucherDistribution): seq<Entry> {
    (if d.vouchers50 > 0 then [Entry(d.vouchers50, 50)] else [])
    + (if d.vouchers100 > 0 then [Entry(d.vouchers100, 100)] else [])
    + (if d.vouchers150 > 0 then [Entry(d.vouchers150, 150)] else [])
    + (if d.vouchers200 > 0 then [Entry(d.vouchers200, 200)] else [])
  }

  function Reverse<T>(xs: seq<T>): (r: seq<T>)
    ensures |r| == |xs| && forall i :: 0 <= i < |xs| ==> r[i] == xs[|xs| - 1 - i]
  {
    if xs == [] then [] else Reverse(xs[1..]) + [xs[0]]
  }

  /** The column's text is its items rendered without a unit and joined by ", ". */
  lemma VouchersTextRendersEntries(d: VoucherDistribution)
    ensures VouchersText(d) == RenderEntries(ColumnEntries(d), "", ", ")
  {
    var a, b, c, e := VoucherPart(d.vouchers50, 50), VoucherPart(d.vouchers100, 100),
                      VoucherPart(d.vouchers150, 150), VoucherPart(d.vouchers200, 200);
    FilterFour(a, b, c, e);
    var e50 := if d.vouchers50 > 0 then [Entry(d.vouchers50, 50)] else [];
    var e100 := if d.vouchers100 > 0 then [Entry(d.vouchers100, 100)] else [];
    var e150 := if d.vouchers150 > 0 then [Entry(d.vouchers150, 150)] else [];
    var e200 := if d.vouchers200 > 0 then [Entry(d.vouchers200, 200)] else [];
    PartRendered(d.vouchers50, 50);
    PartRendered(d.vouchers100, 100);
    PartRendered(d.vouchers150, 150);
    PartRendered(d.vouchers200, 200);
    RenderedConcat(e50, e100);
    RenderedConcat(e50 + e100, e150);
    RenderedConcat(e50 + e100 + e150, e200);
  }

  /** The rendered items of a voucher list, one string each. */
  function Rendered(es: seq<Entry>): seq<string> {
    seq(|es|, i requires 0 <= i < |es| => RenderEntry(es[i], ""))
  }

  lemma RenderedConcat(a: seq<Entry>, b: seq<Entry>)
    ensures Rendered(a + b) == Rendered(a) + Rendered(b)
  {
  }

  /** `[s].filter(Boolean)`. */
  function NonEmpty(s: string): seq<string> {
    if s != "" then [s] else []
  }

  /** A column item that is shown is its rendered entry; one that is not shown has none. */
  lemma PartRendered(count: int, face: nat)
    ensures NonEmpty(VoucherPart(count, face)) == Rendered(if count > 0 then [Entry(count, face)] else [])
  {
    if count > 0 {
      var text := NatToString(count) + "×" + NatToString(face);
      assert VoucherPart(count, face) == text != "";
      assert RenderEntry(Entry(count, face), "") == text + "" == text;
    }
  }

  lemma FilterFour(a: string, b: string, c: string, e: string)
    ensures Filter([a, b, c, e], Shown()) == NonEmpty(a) + NonEmpty(b) + NonEmpty(c) + NonEmpty(e)
  {
    var p := Shown();
    var t3 := [e];
    var t2 := [c] + t3;
    var t1 := [b] + t2;
    var t0 := [a] + t1;
    assert t0 == [a, b, c, e];
    calc {
      Filter(t0, p);
    == { FilterCons(a, t1, p); }
      NonEmpty(a) + Filter(t1, p);
    == { FilterCons(b, t2, p); }
      NonEmpty(a) + (NonEmpty(b) + Filter(t2, p));
    == { FilterCons(c, t3, p); }
      NonEmpty(a) + (NonEmpty(b) + (NonEmpty(c) + Filter(t3, p)));
    == { FilterCons(e, [], p); assert t3 == [e] + []; }
      NonEmpty(a) + (NonEmpty(b) + (NonEmpty(c) + NonEmpty(e)));
    == { GroupLeft(NonEmpty(a), NonEmpty(b), NonEmpty(c), NonEmpty(e)); }
      NonEmpty(a) + NonEmpty(b) + NonEmpty(c) + NonEmpty(e);
    }
  }

  lemma GroupLeft<T>(w: seq<T>, x: seq<T>, y: seq<T>, z: seq<T>)
    ensures w + (x + (y + z)) == w + x + y + z
  {
  }

  /** `Boolean` on a string: only the empty string is falsy. */
  function Shown(): string -> bool {
    (s: string) => s != ""
  }

  /** Filtering a sequence keeps its first element exactly when it satisfies the condition. */
  lemma FilterCons<T>(x: T, ys: seq<T>, p: T -> bool)
    ensures Filter([x] + ys, p) == (if p(x) then [x] else []) + Filter(ys, p)
  {
    assert ([x] + ys)[1..] == ys;
  }

  /** The column lists the same items as `formatVouchersList`, in the opposite order. */
  lemma ColumnReversesList(d: VoucherDistribution)
    ensures ColumnEntries(d) == Reverse(ListEntries(d))
  {
  }

  /** The column's text reads back as its items; it is empty exactly when no count is positive. */
  lemma VouchersTextRoundTrip(d: VoucherDistribution)
    ensures VouchersText(d) == "" <==> ColumnEntries(d) == []
    ensures ColumnEntries(d) != [] ==> ParseEntries(VouchersText(d), "", ", ") == Some(ColumnEntries(d))
  {
    VouchersTextRendersEntries(d);
    var es := ColumnEntries(d);
    if es != [] {
      RenderEntriesRoundTrip(es, "", ", ");
      RenderEntriesStartsWithDigit(es, "", ", ");
    }
  }

  // ------------------------------------------------------------------
  // The file name
  // ------------------------------------------------------------------

  /** The download's name, from the localized date with its dots turned into dashes. `None`
      stands for the crash when a single selection left nothing to name the file after. */
  function FileName(sel: Selection, filtered: ExportData, localDate: string): Option<string> {
    var date := ReplaceDots(localDate);
    if sel.exportType == All then Some("דוח-כללי-" + date + ".xlsx")
    else if sel.exportType == Institutions && |sel.institutions| == 1 then
      if filtered.institutions == [] then None else Some(filtered.institutions[0].name + "-" + date + ".xlsx")
    else if sel.exportType == Groups && |sel.groups| == 1 then
      if filtered.groups == [] then None else Some(filtered.groups[0].name + "-" + date + ".xlsx")
    else if sel.exportType == Dates then Some("דוח-תאריכים-" + date + ".xlsx")
    else Some("דוח-שוברים-" + date + ".xlsx")
  }

  /** A single selected institution names the file after the first institution in the list
      with that id; the file is never named when no institution has it. */
  lemma SingleInstitutionNamesFile(data: ExportData, sel: Selection, localDate: string, k: nat)
    requires sel.exportType == Institutions && |sel.institutions| == 1
    requires k < |data.institutions| && data.institutions[k].id == sel.institutions[0]
    requires forall j :: 0 <= j < k ==> data.institutions[j].id != sel.institutions[0]
    ensures FileName(sel, FilterExport(data, sel), localDate)
      == Some(data.institutions[k].name + "-" + ReplaceDots(localDate) + ".xlsx")
  {
    FirstKept(data.institutions, (i: Institution) => i.id in sel.institutions, k);
  }

  /** With one institution selected and none with its id, the name cannot be formed. */
  lemma MissingInstitutionBreaksName(data: ExportData, sel: Selection, localDate: string)
    requires sel.exportType == Institutions && |sel.institutions| == 1
    requires forall i :: i in data.institutions ==> i.id != sel.institutions[0]
    ensures FileName(sel, FilterExport(data, sel), localDate).None?
  {
  }

  /** The file name ends in `.xlsx` and carries the date whenever it is formed. */
  lemma FileNameShape(sel: Selection, filtered: ExportData, localDate: string)
    ensures var n := FileName(sel, filtered, localDate);
      n.Some? ==> EndsWith(n.value, ReplaceDots(localDate) + ".xlsx")
  {
    var n := FileName(sel, filtered, localDate);
    if n.Some? {
      var date := ReplaceDots(localDate);
      var s := n.value;
      assert s[|s| - |date + ".xlsx"|..] == date + ".xlsx";
    }
  }

  /** The first element a filter keeps is the first one that satisfies it. */
  lemma {:induction false} FirstKept<T>(xs: seq<T>, p: T -> bool, k: nat)
    requires k < |xs| && p(xs[k]) && forall j :: 0 <= j < k ==> !p(xs[j])
    ensures Filter(xs, p) != [] && Filter(xs, p)[0] == xs[k]
  {
    if k > 0 {
      FirstKept(xs[1..], p, k - 1);
    }
  }
}
