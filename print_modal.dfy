/** The dialog on an institution's page that chooses which of its groups to print vouchers for. */
module PrintVouchers {
  import opened Wrappers
  import opened Seqs

  datatype PrintGroup = PrintGroup(id: string, institutionId: Option<string>)

  /** What the dialog asks of the page: print these groups, close the dialog. */
  datatype Call = Print(groupIds: seq<string>) | Close

  /** `g.institution_id === institutionId`. */
  function BelongsTo(institutionId: string): PrintGroup -> bool {
    (g: PrintGroup) => g.institutionId == Some(institutionId)
  }

  /** The groups the dialog offers: the institution's own. */
  function InstitutionGroups(groups: seq<PrintGroup>, institutionId: string): seq<PrintGroup> {
    Filter(groups, BelongsTo(institutionId))
  }

  function GroupIds(gs: seq<PrintGroup>): (ids: seq<string>)
    ensures |ids| == |gs|
  {
    seq(|gs|, i requires 0 <= i < |gs| => gs[i].id)
  }

  predicate Distinct<T(==)>(xs: seq<T>) {
    forall i, j :: 0 <= i < j < |xs| ==> xs[i] != xs[j]
  }

  /** `id !== x`. */
  function Other(id: string): string -> bool {
    (x: string) => x != id
  }

  /** "Select all" clears a selection as long as the offered list and selects every offered
      group otherwise. */
  function SelectAll(selected: seq<string>, offered: seq<PrintGroup>): seq<string> {
    if |selected| == |offered| then [] else GroupIds(offered)
  }

  /** A group's checkbox removes its id from the selection or appends it at the end. */
  function Toggle(selected: seq<string>, id: string): seq<string> {
    if id in selected then Filter(selected, Other(id)) else selected + [id]
  }

  /** The dialog offers exactly the institution's groups. */
  lemma InstitutionGroupsIff(groups: seq<PrintGroup>, institutionId: string, g: PrintGroup)
    ensures g in InstitutionGroups(groups, institutionId) <==> g in groups && g.institutionId == Some(institutionId)
  {
    var r := InstitutionGroups(groups, institutionId);
    if g in groups && g.institutionId == Some(institutionId) {
      var k :| 0 <= k < |groups| && groups[k] == g;
      assert BelongsTo(institutionId)(groups[k]);
    }
    if g in r {
      var k :| 0 <= k < |r| && r[k] == g;
      assert BelongsTo(institutionId)(r[k]);
    }
  }

  /** Ticking a box flips its group's membership and leaves every other id as it was. */
  lemma ToggleFlips(selected: seq<string>, id: string, x: string)
    ensures x in Toggle(selected, id) <==> if x == id then id !in selected else x in selected
  {
    if id in selected && x != id && x in selected {
      var k :| 0 <= k < |selected| && selected[k] == x;
      assert Other(id)(selected[k]);
    }
    if id in selected && x in Filter(selected, Other(id)) {
      var r := Filter(selected, Other(id));
      var k :| 0 <= k < |r| && r[k] == x;
      assert Other(id)(r[k]);
    }
  }

  /** Ticking a box twice, starting unticked, gives back the same selection. */
  lemma ToggleTwice(selected: seq<string>, id: string)
    requires id !in selected
    ensures Toggle(Toggle(selected, id), id) == selected
  {
    FilterAppend(selected, id, Other(id));
    assert forall i :: 0 <= i < |selected| ==> Other(id)(selected[i]);
    FilterAll(selected, Other(id));
    assert Filter([id], Other(id)) == [];
  }

  /** Ticking keeps a selection free of repeats. */
  lemma ToggleKeepsDistinct(selected: seq<string>, id: string)
    requires Distinct(selected)
    ensures Distinct(Toggle(selected, id))
  {
    if id in selected {
      FilterKeepsDistinct(selected, Other(id));
    }
  }

  /** When "select all" selects, it selects every offered group and nothing else. */
  lemma SelectAllSelectsOffered(selected: seq<string>, offered: seq<PrintGroup>)
    requires |selected| != |offered|
    ensures forall x :: x in SelectAll(selected, offered) <==> exists g :: g in offered && g.id == x
  {
    var ids := GroupIds(offered);
    forall x | x in ids ensures exists g :: g in offered && g.id == x {
      var k :| 0 <= k < |ids| && ids[k] == x;
      assert offered[k] in offered;
    }
    forall x | exists g :: g in offered && g.id == x ensures x in ids {
      var g :| g in offered && g.id == x;
      var k :| 0 <= k < |offered| && offered[k] == g;
      assert ids[k] == x;
    }
  }

  /** Among offered groups and with no repeats, the selection is as long as the offered list
      exactly when every offered group is selected, so "select all" clears a full selection and
      fills any other. */
  lemma FullSelectionIff(selected: seq<string>, offered: seq<PrintGroup>)
    requires Distinct(selected) && Distinct(GroupIds(offered))
    requires forall x :: x in selected ==> x in GroupIds(offered)
    ensures |selected| == |offered| <==> forall g :: g in offered ==> g.id in selected
  {
    var ids := GroupIds(offered);
    DistinctCardinality(selected);
    DistinctCardinality(ids);
    var a, b := set x | x in selected, set x | x in ids;
    assert a <= b;
    if |selected| == |offered| {
      assert |b - a| == |b| - |a| == 0;
      assert b - a == {};
      forall g | g in offered ensures g.id in selected {
        var k :| 0 <= k < |offered| && offered[k] == g;
        assert ids[k] == g.id;
        assert g.id in b;
      }
    }
    if forall g :: g in offered ==> g.id in selected {
      forall x | x in b ensures x in a {
        var k :| 0 <= k < |ids| && ids[k] == x;
        assert offered[k] in offered;
      }
      assert a == b;
    }
  }

  /** A sequence without repeats has as many distinct elements as it is long. */
  lemma {:induction false} DistinctCardinality<T>(xs: seq<T>)
    requires Distinct(xs)
    ensures |set x | x in xs| == |xs|
  {
    if xs != [] {
      var tail := xs[1..];
      DistinctTail(xs);
      DistinctCardinality(tail);
      assert (set x | x in xs) == (set x | x in tail) + {xs[0]};
      assert xs[0] !in (set x | x in tail);
    }
  }

  /** Filtering an appended element keeps it exactly when it satisfies the condition. */
  lemma {:induction false} FilterAppend<T>(xs: seq<T>, y: T, p: T -> bool)
    ensures Filter(xs + [y], p) == Filter(xs, p) + Filter([y], p)
  {
    if xs == [] {
      assert [] + [y] == [y];
    } else {
      assert (xs + [y])[0] == xs[0];
      assert (xs + [y])[1..] == xs[1..] + [y];
      FilterAppend(xs[1..], y, p);
    }
  }

  /** Dropping elements keeps a sequence free of repeats. */
  lemma {:induction false} FilterKeepsDistinct<T>(xs: seq<T>, p: T -> bool)
    requires Distinct(xs)
    ensures Distinct(Filter(xs, p))
  {
    if xs != [] {
      var tail := xs[1..];
      DistinctTail(xs);
      FilterKeepsDistinct(tail, p);
      if p(xs[0]) {
        assert xs[0] !in tail;
        var rest := Filter(tail, p);
        assert xs[0] !in rest;
        DistinctCons(xs[0], rest);
      }
    }
  }

  lemma DistinctTail<T>(xs: seq<T>)
    requires xs != [] && Distinct(xs)
    ensures Distinct(xs[1..]) && xs[0] !in xs[1..]
  {
    var tail := xs[1..];
    forall i, j | 0 <= i < j < |tail| ensures tail[i] != tail[j] {
      assert tail[i] == xs[i + 1] && tail[j] == xs[j + 1];
    }
    forall i | 0 <= i < |tail| ensures tail[i] != xs[0] {
      assert tail[i] == xs[i + 1];
    }
  }

  lemma DistinctCons<T>(x: T, ys: seq<T>)
    requires Distinct(ys) && x !in ys
    ensures Distinct([x] + ys)
  {
    var r := [x] + ys;
    forall i, j | 0 <= i < j < |r| ensures r[i] != r[j] {
      assert r[j] == ys[j - 1];
      if i > 0 {
        assert r[i] == ys[i - 1];
      }
    }
  }

  /** The dialog. `onPrint` and `onClose` are the page's; the dialog's effect on them is the
      sequence of calls it makes. */
  class PrintVouchersModal {
    const institutionId: string
    const groups: seq<PrintGroup>
    var selectedGroups: seq<string>
    var calls: seq<Call>

    function Offered(): seq<PrintGroup> {
      InstitutionGroups(groups, institutionId)
    }

    /** The selection holds offered groups only, each once. */
    ghost predicate Valid()
      reads this
    {
      && Distinct(GroupIds(Offered()))
      && Distinct(selectedGroups)
      && forall x :: x in selectedGroups ==> x in GroupIds(Offered())
    }

    /** A fresh dialog with nothing selected. Group ids are keys, so the offered ones differ. */
    constructor(institutionId: string, groups: seq<PrintGroup>)
      requires Distinct(GroupIds(InstitutionGroups(groups, institutionId)))
      ensures Valid()
      ensures this.institutionId == institutionId && this.groups == groups
      ensures selectedGroups == [] && calls == []
    {
      this.institutionId := institutionId;
      this.groups := groups;
      selectedGroups := [];
      calls := [];
    }

    /** `handleSelectAll`. */
    method HandleSelectAll()
      requires Valid()
      modifies this
      ensures Valid()
      ensures selectedGroups == SelectAll(old(selectedGroups), Offered())
      ensures calls == old(calls)
    {
      var offered := Offered();
      if |selectedGroups| == |offered| {
        selectedGroups := [];
      } else {
        selectedGroups := GroupIds(offered);
      }
    }

    /** The checkbox of an offered group. */
    method ToggleGroup(id: string)
      requires Valid() && id in GroupIds(Offered())
      modifies this
      ensures Valid()
      ensures selectedGroups == Toggle(old(selectedGroups), id)
      ensures calls == old(calls)
    {
      var isSelected := id in selectedGroups;
      ToggleKeepsDistinct(selectedGroups, id);
      forall x | x in Toggle(selectedGroups, id) ensures x in GroupIds(Offered()) {
        ToggleFlips(selectedGroups, id, x);
      }
      if isSelected {
        selectedGroups := Filter(selectedGroups, Other(id));
      } else {
        selectedGroups := selectedGroups + [id];
      }
    }

    /** `handlePrint`: nothing for an empty selection; otherwise print the selection, then close. */
    method HandlePrint()
      requires Valid()
      modifies this
      ensures Valid()
      ensures selectedGroups == old(selectedGroups)
      ensures calls == if old(selectedGroups) == [] then old(calls) else old(calls) + [Print(old(selectedGroups)), Close]
    {
      if |selectedGroups| == 0 {
        return;
      }
      calls := calls + [Print(selectedGroups)];
      calls := calls + [Close];
    }
  }
}
