/** The voucher arithmetic of `frontend/src/utils/calculations.ts`: the two-phase allocator
    that turns a net amount into vouchers of 200, 150, 100 and 50, the subsidy calculator, the
    check that the four voucher percentages add up to 100, and the textual voucher list.

    Amounts and percentages are exact rationals (`real`), so `Math.floor` is `.Floor` and
    `Math.round(x)` is the nearest whole number with ties going up. */
module Calculations {
  import opened Wrappers
  import opened Text
  import Seqs

  datatype VoucherPercentages = VoucherPercentages(p50: real, p100: real, p150: real, p200: real)

  datatype VoucherDistribution = VoucherDistribution(
    vouchers50: int, vouchers100: int, vouchers150: int, vouchers200: int, unusedAmount: real)

  /** The four face values, in the order both phases visit them. */
  datatype Denomination = D200 | D150 | D100 | D50

  function Face(d: Denomination): real {
    match d
    case D200 => 200.0
    case D150 => 150.0
    case D100 => 100.0
    case D50 => 50.0
  }

  function Percent(p: VoucherPercentages, d: Denomination): real {
    match d
    case D200 => p.p200
    case D150 => p.p150
    case D100 => p.p100
    case D50 => p.p50
  }

  /** A denomination takes part in the allocation only when its percentage is positive. */
  predicate Available(p: VoucherPercentages, d: Denomination) {
    Percent(p, d) > 0.0
  }

  // ------------------------------------------------------------------
  // Rounding
  // ------------------------------------------------------------------

  /** `Math.round(x)`: the nearest whole number, halves rounded up. */
  function Round(x: real): (n: int)
    ensures n as real - 0.5 <= x < n as real + 0.5
  {
    (x + 0.5).Floor
  }

  /** `Math.round(x * 100) / 100`: `x` to the nearest cent. */
  function RoundCents(x: real): (r: real)
    ensures x - 0.005 < r <= x + 0.005
    ensures (r * 100.0).Floor as real == r * 100.0
  {
    Round(x * 100.0) as real / 100.0
  }

  /** Rounding a whole number leaves it unchanged. */
  lemma RoundWhole(n: int)
    ensures Round(n as real) == n
  {
  }

  // ------------------------------------------------------------------
  // The allocator, stated in closed form
  // ------------------------------------------------------------------

  /** The allocator's state: the counts so far and the exact amount not yet turned into vouchers. */
  datatype Allocation = Allocation(c50: int, c100: int, c150: int, c200: int, remaining: real)

  function Count(a: Allocation, d: Denomination): int {
    match d
    case D200 => a.c200
    case D150 => a.c150
    case D100 => a.c100
    case D50 => a.c50
  }

  /** The face value of the vouchers counted so far. */
  function Value(a: Allocation): real {
    a.c50 as real * 50.0 + a.c100 as real * 100.0 + a.c150 as real * 150.0 + a.c200 as real * 200.0
  }

  /** `n` more vouchers of face `d`, paid for out of the remaining amount. */
  function AddVouchers(a: Allocation, d: Denomination, n: int): (b: Allocation)
    ensures Count(b, d) == Count(a, d) + n
    ensures forall e :: e != d ==> Count(b, e) == Count(a, e)
    ensures b.remaining == a.remaining - n as real * Face(d)
    ensures Value(b) + b.remaining == Value(a) + a.remaining
  {
    var rest := a.remaining - n as real * Face(d);
    match d
    case D200 => a.(c200 := a.c200 + n, remaining := rest)
    case D150 => a.(c150 := a.c150 + n, remaining := rest)
    case D100 => a.(c100 := a.c100 + n, remaining := rest)
    case D50 => a.(c50 := a.c50 + n, remaining := rest)
  }

  /** Phase 1 for one denomination: the whole vouchers that fit in its share of the ORIGINAL
      amount, or none when its percentage is not positive. */
  function ProportionalCount(net: real, p: VoucherPercentages, d: Denomination): int {
    if Available(p, d) then ((net * Percent(p, d) / 100.0) / Face(d)).Floor else 0
  }

  /** The state after phase 1. */
  function Phase1(net: real, p: VoucherPercentages): (a: Allocation)
    ensures forall d :: Count(a, d) == ProportionalCount(net, p, d)
    ensures Value(a) + a.remaining == net
  {
    var a200 := ProportionalCount(net, p, D200);
    var a150 := ProportionalCount(net, p, D150);
    var a100 := ProportionalCount(net, p, D100);
    var a50 := ProportionalCount(net, p, D50);
    var spent := Allocation(a50, a100, a150, a200, 0.0);
    spent.(remaining := net - Value(spent))
  }

  /** How many times `while (remaining >= face) { remaining -= face }` runs. */
  function GreedyCount(remaining: real, face: real): int
    requires face > 0.0
  {
    if remaining >= 0.0 then (remaining / face).Floor else 0
  }

  /** One phase-2 loop: an available denomination takes as many vouchers as still fit. */
  function Greedy(a: Allocation, p: VoucherPercentages, d: Denomination): Allocation {
    if Available(p, d) then AddVouchers(a, d, GreedyCount(a.remaining, Face(d))) else a
  }

  /** The whole allocation of `calculateVouchers`: phase 1, then the greedy fill from the
      largest face down. */
  function Allocate(net: real, p: VoucherPercentages): Allocation {
    Greedy(Greedy(Greedy(Greedy(Phase1(net, p), p, D200), p, D150), p, D100), p, D50)
  }

  /** The distribution `calculateVouchers` returns: the counts and the remainder to the cent. */
  function Distribute(net: real, p: VoucherPercentages): VoucherDistribution {
    var a := Allocate(net, p);
    VoucherDistribution(a.c50, a.c100, a.c150, a.c200, RoundCents(a.remaining))
  }

  // ---- arithmetic of whole-voucher division

  lemma MulMono(x: real, y: real, z: real)
    requires x <= y && z >= 0.0
    ensures x * z <= y * z
  {
  }

  /** Division with remainder: `floor(x / face)` whole vouchers fit in `x`, leaving less than
      one face value. */
  lemma FloorDivision(x: real, d: Denomination)
    requires x >= 0.0
    ensures var k := (x / Face(d)).Floor;
      k >= 0 && 0.0 <= x - k as real * Face(d) < Face(d)
  {
    match d
    case D200 =>
    case D150 =>
    case D100 =>
    case D50 =>
  }

  /** The quotient is the only count that leaves a remainder in `[0, face)`. */
  lemma FloorDivisionUnique(x: real, d: Denomination, k: int)
    requires 0.0 <= x - k as real * Face(d) < Face(d)
    ensures (x / Face(d)).Floor == k
  {
    match d
    case D200 =>
    case D150 =>
    case D100 =>
    case D50 =>
  }

  /** What one greedy loop leaves: below the face value, never more than before, and never
      negative unless it started negative. */
  lemma GreedyLeaves(remaining: real, d: Denomination)
    ensures var k := GreedyCount(remaining, Face(d));
      var r := remaining - k as real * Face(d);
      && k >= 0 && r <= remaining && r < Face(d)
      && (remaining >= 0.0 ==> r >= 0.0)
  {
    if remaining >= 0.0 {
      FloorDivision(remaining, d);
    }
  }

  /** A greedy loop that ran `k` times and stopped as its guard says ran `GreedyCount` times. */
  lemma GreedyCountOfLoop(start: real, d: Denomination, k: int)
    requires k >= 0
    requires start - k as real * Face(d) < Face(d)
    requires k > 0 ==> start - k as real * Face(d) >= 0.0
    ensures GreedyCount(start, Face(d)) == k
  {
    if start >= 0.0 {
      FloorDivisionUnique(start, d, k);
    }
  }

  /** One phase-2 loop of `calculateVouchers`: `while (remaining >= face) { count++; remaining -= face; }`. */
  method TakeWhole(d: Denomination, count: int, remaining: real) returns (count': int, remaining': real)
    ensures count' == count + GreedyCount(remaining, Face(d))
    ensures remaining' == remaining - GreedyCount(remaining, Face(d)) as real * Face(d)
  {
    count', remaining' := count, remaining;
    var face := Face(d);
    ghost var n := 0;
    while remaining' >= face
      invariant n >= 0 && count' == count + n && remaining' == remaining - n as real * face
      invariant n > 0 ==> remaining' >= 0.0
      decreases remaining'.Floor
    {
      count' := count' + 1;
      remaining' := remaining' - face;
      n := n + 1;
    }
    GreedyCountOfLoop(remaining, d, n);
  }

  /** One phase-2 step: the loop runs only when the denomination is available. The ghost
      allocation `a` is the state the step starts from and `b` the state it leaves. */
  method FillRemainder(d: Denomination, percentages: VoucherPercentages, count: int, remaining: real, ghost a: Allocation)
    returns (count': int, remaining': real, ghost b: Allocation)
    requires Count(a, d) == count && a.remaining == remaining
    ensures b == Greedy(a, percentages, d)
    ensures Count(b, d) == count' && b.remaining == remaining'
    ensures forall e :: e != d ==> Count(b, e) == Count(a, e)
  {
    count', remaining' := count, remaining;
    if Percent(percentages, d) > 0.0 {
      count', remaining' := TakeWhole(d, count, remaining);
    }
    b := Greedy(a, percentages, d);
  }

  /** Phase 1 of `calculateVouchers`: each available denomination gets the whole vouchers that
      fit in its percentage of the original amount. */
  method ProportionalPhase(originalAmount: real, percentages: VoucherPercentages)
    returns (v50: int, v100: int, v150: int, v200: int)
    ensures v200 == ProportionalCount(originalAmount, percentages, D200)
    ensures v150 == ProportionalCount(originalAmount, percentages, D150)
    ensures v100 == ProportionalCount(originalAmount, percentages, D100)
    ensures v50 == ProportionalCount(originalAmount, percentages, D50)
  {
    v50, v100, v150, v200 := 0, 0, 0, 0;
    if percentages.p200 > 0.0 {
      var amount := (originalAmount * percentages.p200) / 100.0;
      v200 := (amount / 200.0).Floor;
    }
    if percentages.p150 > 0.0 {
      var amount := (originalAmount * percentages.p150) / 100.0;
      v150 := (amount / 150.0).Floor;
    }
    if percentages.p100 > 0.0 {
      var amount := (originalAmount * percentages.p100) / 100.0;
      v100 := (amount / 100.0).Floor;
    }
    if percentages.p50 > 0.0 {
      var amount := (originalAmount * percentages.p50) / 100.0;
      v50 := (amount / 50.0).Floor;
    }
  }

  /** `calculateVouchers(netAmount, percentages)`: phase 1 by percentage of the original amount,
      then a greedy fill of the remainder with the available denominations, largest face first. */
  method CalculateVouchers(netAmount: real, percentages: VoucherPercentages) returns (d: VoucherDistribution)
    ensures d == Distribute(netAmount, percentages)
  {
    var originalAmount := netAmount;
    var v50, v100, v150, v200 := ProportionalPhase(originalAmount, percentages);
    ghost var a := Phase1(netAmount, percentages);
    assert Count(a, D200) == v200 && Count(a, D150) == v150 && Count(a, D100) == v100 && Count(a, D50) == v50;

    var remaining := originalAmount - (v200 as real * 200.0 + v150 as real * 150.0 + v100 as real * 100.0 + v50 as real * 50.0);
    assert a == Allocation(v50, v100, v150, v200, remaining);

    // Phase 2: fill the remainder, only with available denominations.
    v200, remaining, a := FillRemainder(D200, percentages, v200, remaining, a);
    v150, remaining, a := FillRemainder(D150, percentages, v150, remaining, a);
    v100, remaining, a := FillRemainder(D100, percentages, v100, remaining, a);
    v50, remaining, a := FillRemainder(D50, percentages, v50, remaining, a);
    assert a == Allocation(v50, v100, v150, v200, remaining);

    d := VoucherDistribution(v50, v100, v150, v200, Round(remaining * 100.0) as real / 100.0);
  }

  // ------------------------------------------------------------------
  // Properties of the allocator
  // ------------------------------------------------------------------

  /** Conservation: the vouchers' face value plus the exact remainder is the net amount. */
  lemma AllocationConservesAmount(net: real, p: VoucherPercentages)
    ensures var a := Allocate(net, p);
      Value(a) + a.remaining == net
  {
  }

  /** The reported unused amount is the exact remainder to the nearest cent. */
  lemma UnusedIsRemainderToTheCent(net: real, p: VoucherPercentages)
    ensures var d := Distribute(net, p);
      var exact := net - Value(Allocate(net, p));
      exact - 0.005 < d.unusedAmount <= exact + 0.005
  {
  }

  /** The face value of a distribution's vouchers. */
  function FaceValue(d: VoucherDistribution): real {
    d.vouchers50 as real * 50.0 + d.vouchers100 as real * 100.0 + d.vouchers150 as real * 150.0
    + d.vouchers200 as real * 200.0
  }

  /** The vouchers' face value plus the reported unused amount is the net amount to the cent. */
  lemma FaceValuePlusUnused(net: real, p: VoucherPercentages)
    ensures var d := Distribute(net, p);
      net - 0.005 < FaceValue(d) + d.unusedAmount <= net + 0.005
  {
    var a := Allocate(net, p);
    AllocationConservesAmount(net, p);
    UnusedIsRemainderToTheCent(net, p);
    assert FaceValue(Distribute(net, p)) == Value(a);
  }

  /** For an amount in whole cents the unused amount is exact, so face value plus unused
      amount is the net amount. */
  lemma WholeCentsConserve(net: real, p: VoucherPercentages)
    requires (net * 100.0).Floor as real == net * 100.0
    ensures var d := Distribute(net, p);
      d.vouchers50 as real * 50.0 + d.vouchers100 as real * 100.0 + d.vouchers150 as real * 150.0
      + d.vouchers200 as real * 200.0 + d.unusedAmount == net
  {
    var a := Allocate(net, p);
    var n := (net * 100.0).Floor;
    var fifties := a.c50 + 2 * a.c100 + 3 * a.c150 + 4 * a.c200;
    assert Value(a) == fifties as real * 50.0;
    var m := n - 5000 * fifties;
    assert a.remaining * 100.0 == m as real;
    RoundWhole(m);
  }

  /** A denomination whose percentage is not positive gets no vouchers in either phase. */
  lemma UnavailableGetsNothing(net: real, p: VoucherPercentages, d: Denomination)
    requires !Available(p, d)
    ensures Count(Allocate(net, p), d) == 0
  {
  }

  /** A greedy stage leaves less than the face of an available denomination, never adds to the
      remainder and never takes it below zero. */
  lemma GreedyStage(a: Allocation, p: VoucherPercentages, d: Denomination)
    ensures var b := Greedy(a, p, d);
      && b.remaining <= a.remaining
      && (Available(p, d) ==> b.remaining < Face(d))
      && (a.remaining >= 0.0 ==> b.remaining >= 0.0)
      && Count(b, d) >= Count(a, d)
  {
    GreedyLeaves(a.remaining, d);
  }

  /** After both phases the remainder is below the face value of every available denomination,
      hence below the smallest available one. */
  lemma RemainderBelowAvailableFaces(net: real, p: VoucherPercentages, d: Denomination)
    requires Available(p, d)
    ensures Allocate(net, p).remaining < Face(d)
  {
    var a0 := Phase1(net, p);
    var a1 := Greedy(a0, p, D200);
    var a2 := Greedy(a1, p, D150);
    var a3 := Greedy(a2, p, D100);
    GreedyStage(a0, p, D200);
    GreedyStage(a1, p, D150);
    GreedyStage(a2, p, D100);
    GreedyStage(a3, p, D50);
  }

  /** Phase 1 never spends more than a denomination's share of the original amount. */
  lemma ProportionalWithinShare(net: real, p: VoucherPercentages, d: Denomination)
    requires Percent(p, d) >= 0.0 && net >= 0.0
    ensures var k := ProportionalCount(net, p, d);
      0 <= k && k as real * Face(d) <= net * Percent(p, d) / 100.0
  {
    if Available(p, d) {
      var share := net * Percent(p, d) / 100.0;
      assert share >= 0.0 by { MulMono(0.0, net, Percent(p, d)); }
      FloorDivision(share, d);
    }
  }

  /** The four shares of a non-negative amount add up to at most the amount when the
      percentages add up to at most 100. */
  lemma SharesWithinNet(net: real, p: VoucherPercentages) returns (s200: real, s150: real, s100: real, s50: real)
    requires net >= 0.0
    requires PercentSum(p) <= 100.0
    ensures s200 == net * p.p200 / 100.0 && s150 == net * p.p150 / 100.0
    ensures s100 == net * p.p100 / 100.0 && s50 == net * p.p50 / 100.0
    ensures s200 + s150 + s100 + s50 <= net
  {
    s200, s150, s100, s50 := net * p.p200 / 100.0, net * p.p150 / 100.0, net * p.p100 / 100.0, net * p.p50 / 100.0;
    var total := PercentSum(p);
    assert s200 + s150 + s100 + s50 == net * total / 100.0;
    MulMono(total, 100.0, net);
  }

  /** Upper bounds for the four shares that add up to at most the amount. */
  lemma ShareBudget(net: real, p: VoucherPercentages) returns (s200: real, s150: real, s100: real, s50: real)
    requires net >= 0.0
    requires PercentSum(p) <= 100.0
    ensures s200 >= net * p.p200 / 100.0 && s150 >= net * p.p150 / 100.0
    ensures s100 >= net * p.p100 / 100.0 && s50 >= net * p.p50 / 100.0
    ensures s200 + s150 + s100 + s50 <= net
  {
    s200, s150, s100, s50 := SharesWithinNet(net, p);
  }

  /** With non-negative percentages adding up to at most 100, phase 1 spends at most the net amount. */
  lemma Phase1WithinNet(net: real, p: VoucherPercentages)
    requires net >= 0.0
    requires p.p50 >= 0.0 && p.p100 >= 0.0 && p.p150 >= 0.0 && p.p200 >= 0.0
    requires PercentSum(p) <= 100.0
    ensures var a := Phase1(net, p);
      a.remaining >= 0.0 && a.c50 >= 0 && a.c100 >= 0 && a.c150 >= 0 && a.c200 >= 0
  {
    var a := Phase1(net, p);
    var s200, s150, s100, s50 := Phase1Budgets(net, p);
    SpentWithin(a, s200, s150, s100, s50, net);
  }

  /** Budgets for the four phase-1 counts that add up to at most the amount. */
  lemma Phase1Budgets(net: real, p: VoucherPercentages) returns (s200: real, s150: real, s100: real, s50: real)
    requires net >= 0.0
    requires p.p50 >= 0.0 && p.p100 >= 0.0 && p.p150 >= 0.0 && p.p200 >= 0.0
    requires PercentSum(p) <= 100.0
    ensures var a := Phase1(net, p);
      && a.c200 >= 0 && a.c150 >= 0 && a.c100 >= 0 && a.c50 >= 0
      && a.c200 as real * 200.0 <= s200 && a.c150 as real * 150.0 <= s150
      && a.c100 as real * 100.0 <= s100 && a.c50 as real * 50.0 <= s50
    ensures s200 + s150 + s100 + s50 <= net
  {
    s200, s150, s100, s50 := ShareBudget(net, p);
    CountWithinBudget(net, p, D200, s200);
    CountWithinBudget(net, p, D150, s150);
    CountWithinBudget(net, p, D100, s100);
    CountWithinBudget(net, p, D50, s50);
  }

  /** A denomination's phase-1 vouchers fit in any budget at least as large as its share. */
  lemma CountWithinBudget(net: real, p: VoucherPercentages, d: Denomination, budget: real)
    requires Percent(p, d) >= 0.0 && net >= 0.0
    requires budget >= net * Percent(p, d) / 100.0
    ensures 0 <= ProportionalCount(net, p, d) && ProportionalCount(net, p, d) as real * Face(d) <= budget
  {
    ProportionalWithinShare(net, p, d);
  }

  /** Counts that each stay within their share, with shares that stay within the amount,
      leave a non-negative remainder. */
  lemma SpentWithin(a: Allocation, s200: real, s150: real, s100: real, s50: real, net: real)
    requires Count(a, D200) as real * Face(D200) <= s200 && Count(a, D150) as real * Face(D150) <= s150
    requires Count(a, D100) as real * Face(D100) <= s100 && Count(a, D50) as real * Face(D50) <= s50
    requires s200 + s150 + s100 + s50 <= net
    requires Value(a) + a.remaining == net
    ensures a.remaining >= 0.0
  {
  }

  /** With non-negative percentages that add up to at most 100 and a non-negative net amount,
      nothing is overspent: every count and the remainder are non-negative. */
  lemma RemainderNonNegative(net: real, p: VoucherPercentages)
    requires net >= 0.0
    requires p.p50 >= 0.0 && p.p100 >= 0.0 && p.p150 >= 0.0 && p.p200 >= 0.0
    requires PercentSum(p) <= 100.0
    ensures var a := Allocate(net, p);
      a.remaining >= 0.0 && a.c50 >= 0 && a.c100 >= 0 && a.c150 >= 0 && a.c200 >= 0
  {
    var a0 := Phase1(net, p);
    Phase1WithinNet(net, p);
    var a1 := Greedy(a0, p, D200);
    var a2 := Greedy(a1, p, D150);
    var a3 := Greedy(a2, p, D100);
    GreedyStage(a0, p, D200);
    GreedyStage(a1, p, D150);
    GreedyStage(a2, p, D100);
    GreedyStage(a3, p, D50);
  }

  /** A group with every percentage zero gets no vouchers: the whole net amount is unused. */
  lemma NoDenominationAvailable(net: real, p: VoucherPercentages)
    requires p.p50 <= 0.0 && p.p100 <= 0.0 && p.p150 <= 0.0 && p.p200 <= 0.0
    ensures Distribute(net, p) == VoucherDistribution(0, 0, 0, 0, RoundCents(net))
  {
  }

  /** A single denomination at 100% is plain division: `floor(net / face)` vouchers and the
      rest of the division unused. */
  lemma SingleDenomination(net: real, p: VoucherPercentages, d: Denomination)
    requires net >= 0.0 && Percent(p, d) == 100.0
    requires forall e :: e != d ==> Percent(p, e) == 0.0
    ensures var a := Allocate(net, p);
      && Count(a, d) == (net / Face(d)).Floor && a.remaining == net - Count(a, d) as real * Face(d)
      && 0.0 <= a.remaining < Face(d)
      && forall e :: e != d ==> Count(a, e) == 0
  {
    var a0 := Phase1(net, p);
    SinglePhase1(net, p, d);
    GreedyIdle(a0, p, d, D200);
    GreedyIdle(a0, p, d, D150);
    GreedyIdle(a0, p, d, D100);
    GreedyIdle(a0, p, d, D50);
  }

  /** A greedy stage adds nothing when its denomination is unavailable, or is the single one and
      the remainder is already below its face. */
  lemma GreedyIdle(a: Allocation, p: VoucherPercentages, d: Denomination, e: Denomination)
    requires 0.0 <= a.remaining < Face(d)
    requires forall x :: x != d ==> Percent(p, x) == 0.0
    ensures Greedy(a, p, e) == a
  {
    if e == d {
      GreedyCountOfLoop(a.remaining, d, 0);
    }
  }

  /** Phase 1 already does all the work of a single denomination at 100%. */
  lemma SinglePhase1(net: real, p: VoucherPercentages, d: Denomination)
    requires net >= 0.0 && Percent(p, d) == 100.0
    requires forall e :: e != d ==> Percent(p, e) == 0.0
    ensures var a0 := Phase1(net, p);
      && Count(a0, d) == (net / Face(d)).Floor && a0.remaining == net - Count(a0, d) as real * Face(d)
      && 0.0 <= a0.remaining < Face(d)
      && forall e :: e != d ==> Count(a0, e) == 0
  {
    assert net * 100.0 / 100.0 == net;
    FloorDivision(net, d);
  }

  /** At 25% each, 425 becomes one 200, one 100 and two 50s with 25 left over: phase 1 gives
      no 200, no 150, one 100 and two 50s, and phase 2 adds one 200 to the remaining 225. */
  lemma Example425()
    ensures Distribute(425.0, VoucherPercentages(25.0, 25.0, 25.0, 25.0)) == VoucherDistribution(2, 1, 0, 1, 25.0)
  {
    var p := VoucherPercentages(25.0, 25.0, 25.0, 25.0);
    assert ProportionalCount(425.0, p, D200) == 0;
    assert ProportionalCount(425.0, p, D150) == 0;
    assert ProportionalCount(425.0, p, D100) == 1;
    assert ProportionalCount(425.0, p, D50) == 2;
    var a0 := Phase1(425.0, p);
    assert a0 == Allocation(2, 1, 0, 0, 225.0);
    assert GreedyCount(225.0, 200.0) == 1;
    var a1 := Greedy(a0, p, D200);
    assert a1 == Allocation(2, 1, 0, 1, 25.0);
    assert GreedyCount(25.0, 150.0) == 0 && GreedyCount(25.0, 100.0) == 0 && GreedyCount(25.0, 50.0) == 0;
    assert Allocate(425.0, p) == a1;
    assert Round(2500.0) == 2500;
  }

  /** 100 with only the 100 denomination is one voucher and nothing unused. */
  lemma Example100()
    ensures Distribute(100.0, VoucherPercentages(0.0, 100.0, 0.0, 0.0)) == VoucherDistribution(0, 1, 0, 0, 0.0)
  {
    var p := VoucherPercentages(0.0, 100.0, 0.0, 0.0);
    assert ProportionalCount(100.0, p, D100) == 1;
    assert Phase1(100.0, p) == Allocation(0, 1, 0, 0, 0.0);
    assert GreedyCount(0.0, 100.0) == 0;
    assert Allocate(100.0, p) == Allocation(0, 1, 0, 0, 0.0);
    assert Round(0.0) == 0;
  }

  /** 30 with only the 50 denomination buys nothing: all 30 is unused. */
  lemma Example30()
    ensures Distribute(30.0, VoucherPercentages(100.0, 0.0, 0.0, 0.0)) == VoucherDistribution(0, 0, 0, 0, 30.0)
  {
    var p := VoucherPercentages(100.0, 0.0, 0.0, 0.0);
    assert ProportionalCount(30.0, p, D50) == 0;
    assert Phase1(30.0, p) == Allocation(0, 0, 0, 0, 30.0);
    assert GreedyCount(30.0, 50.0) == 0;
    assert Allocate(30.0, p) == Allocation(0, 0, 0, 0, 30.0);
    assert Round(3000.0) == 3000;
  }

  /** A zero amount gives no vouchers and nothing unused, whatever the percentages. */
  lemma ZeroAmount(p: VoucherPercentages)
    ensures Distribute(0.0, p) == VoucherDistribution(0, 0, 0, 0, 0.0)
  {
    forall d ensures ProportionalCount(0.0, p, d) == 0 {
      assert 0.0 * Percent(p, d) / 100.0 / Face(d) == 0.0;
    }
    var a0 := Phase1(0.0, p);
    assert a0 == Allocation(0, 0, 0, 0, 0.0);
    assert GreedyCount(0.0, 200.0) == 0 && GreedyCount(0.0, 150.0) == 0;
    assert GreedyCount(0.0, 100.0) == 0 && GreedyCount(0.0, 50.0) == 0;
    assert Greedy(a0, p, D200) == a0 && Greedy(a0, p, D150) == a0;
    assert Greedy(a0, p, D100) == a0 && Greedy(a0, p, D50) == a0;
    assert Round(0.0) == 0;
  }

  // ------------------------------------------------------------------
  // Subsidy
  // ------------------------------------------------------------------

  datatype SubsidyResult = SubsidyResult(mySubsidy: real, institutionSubsidy: real, totalSubsidy: real, netAmount: real)

  /** `Math.round(amountPaid * percent) / 100`: the rounding is applied to the amount in
      agorot, before the division. */
  function SubsidyShare(amountPaid: real, percent: real): real {
    Round(amountPaid * percent) as real / 100.0
  }

  function CalculateSubsidy(amountPaid: real, mySubsidyPercent: real, institutionSubsidyPercent: real): SubsidyResult {
    var mySubsidy := SubsidyShare(amountPaid, mySubsidyPercent);
    var institutionSubsidy := SubsidyShare(amountPaid, institutionSubsidyPercent);
    SubsidyResult(mySubsidy, institutionSubsidy, mySubsidy + institutionSubsidy, amountPaid + mySubsidy + institutionSubsidy)
  }

  /** One subsidy is `percent`% of the amount paid to the nearest agora (halves up), and a
      whole number of agorot. */
  lemma ShareToTheAgora(amountPaid: real, percent: real)
    ensures var s := SubsidyShare(amountPaid, percent);
      var exact := amountPaid * percent / 100.0;
      && exact - 0.005 < s <= exact + 0.005
      && (s * 100.0).Floor as real == s * 100.0
  {
    var x := amountPaid * percent;
    var n := Round(x);
    assert n as real - 0.5 <= x < n as real + 0.5;
    assert SubsidyShare(amountPaid, percent) * 100.0 == n as real;
  }

  /** Each subsidy is its percentage of the amount paid to the nearest agora, the total is
      both subsidies, and the net amount is the amount paid topped up by the total. */
  lemma SubsidyMeaning(amountPaid: real, myPercent: real, institutionPercent: real)
    ensures var r := CalculateSubsidy(amountPaid, myPercent, institutionPercent);
      && amountPaid * myPercent / 100.0 - 0.005 < r.mySubsidy <= amountPaid * myPercent / 100.0 + 0.005
      && amountPaid * institutionPercent / 100.0 - 0.005 < r.institutionSubsidy <= amountPaid * institutionPercent / 100.0 + 0.005
      && (r.mySubsidy * 100.0).Floor as real == r.mySubsidy * 100.0
      && (r.institutionSubsidy * 100.0).Floor as real == r.institutionSubsidy * 100.0
      && r.totalSubsidy - r.mySubsidy == r.institutionSubsidy
      && r.netAmount - amountPaid == r.totalSubsidy
  {
    ShareToTheAgora(amountPaid, myPercent);
    ShareToTheAgora(amountPaid, institutionPercent);
  }

  /** A subsidy is never negative when the amount and the percentage are not. */
  lemma SubsidyNonNegative(amountPaid: real, percent: real)
    requires amountPaid >= 0.0 && percent >= 0.0
    ensures SubsidyShare(amountPaid, percent) >= 0.0
  {
    MulMono(0.0, amountPaid, percent);
  }

  /** When `amountPaid * percent` is a whole number of agorot nothing is rounded away. */
  lemma SubsidyExactOnWholeAgorot(amountPaid: real, percent: real)
    requires (amountPaid * percent).Floor as real == amountPaid * percent
    ensures SubsidyShare(amountPaid, percent) == amountPaid * percent / 100.0
  {
    RoundWhole((amountPaid * percent).Floor);
  }

  lemma SubsidyExample()
    ensures CalculateSubsidy(100.0, 20.0, 10.0) == SubsidyResult(20.0, 10.0, 30.0, 130.0)
  {
    RoundWhole(2000);
    RoundWhole(1000);
  }

  // ------------------------------------------------------------------
  // Percentage check
  // ------------------------------------------------------------------

  function PercentSum(p: VoucherPercentages): real {
    p.p50 + p.p100 + p.p150 + p.p200
  }

  function Abs(x: real): real {
    if x < 0.0 then -x else x
  }

  /** `validateVoucherPercentages`: the four percentages add up to 100 within a strict 0.01. */
  function ValidateVoucherPercentages(p: VoucherPercentages): bool {
    Abs(PercentSum(p) - 100.0) < 0.01
  }

  function AsSeq(p: VoucherPercentages): seq<real> {
    [p.p50, p.p100, p.p150, p.p200]
  }

  lemma SumOfShares(p: VoucherPercentages)
    ensures Seqs.Sum(AsSeq(p)) == PercentSum(p)
  {
    var s := AsSeq(p);
    assert s[1..][1..][1..][1..] == [];
    assert Seqs.Sum(s[1..][1..][1..]) == p.p200;
    assert Seqs.Sum(s[1..][1..]) == p.p150 + p.p200;
  }

  /** Only the sum matters: any reassignment of the four shares among the denominations gets
      the same verdict. */
  lemma ValidateIgnoresAssignment(p: VoucherPercentages, q: VoucherPercentages)
    requires multiset(AsSeq(p)) == multiset(AsSeq(q))
    ensures ValidateVoucherPercentages(p) == ValidateVoucherPercentages(q)
  {
    Seqs.SumPermutation(AsSeq(p), AsSeq(q));
    SumOfShares(p);
    SumOfShares(q);
  }

  /** The tolerance is strict: a sum of 99.99 is rejected, 99.995 and 100.005 are accepted. */
  lemma ValidateBoundary()
    ensures !ValidateVoucherPercentages(VoucherPercentages(25.0, 25.0, 25.0, 24.99))
    ensures !ValidateVoucherPercentages(VoucherPercentages(25.0, 25.0, 25.0, 25.01))
    ensures ValidateVoucherPercentages(VoucherPercentages(25.0, 25.0, 25.0, 24.995))
    ensures ValidateVoucherPercentages(VoucherPercentages(25.0, 25.0, 25.0, 25.005))
  {
  }

  // ------------------------------------------------------------------
  // Voucher lists as text
  // ------------------------------------------------------------------

  /** One `count×face` item of a voucher list. */
  datatype Entry = Entry(count: nat, face: nat)

  /** `${count}×${face}` followed by `unit`. */
  function RenderEntry(e: Entry, unit: string): string {
    NatToString(e.count) + "×" + NatToString(e.face) + unit
  }

  /** The rendered items joined by `sep`. */
  function RenderEntries(es: seq<Entry>, unit: string, sep: string): string {
    Join(seq(|es|, i requires 0 <= i < |es| => RenderEntry(es[i], unit)), sep)
  }

  function Prepend(e: Entry, rest: Option<seq<Entry>>): Option<seq<Entry>> {
    match rest
    case Some(es) => Some([e] + es)
    case None => None
  }

  /** A leading decimal number and what follows it. */
  function ParseNumber(s: string): Option<(nat, string)> {
    var k := DigitSpan(s);
    if k == 0 then None else Some((DigitsValue(s[..k]), s[k..]))
  }

  /** One `count×face` item followed by `unit`, and what follows it. */
  function ParseEntry(s: string, unit: string): Option<(Entry, string)> {
    match ParseNumber(s)
    case None => None
    case Some((count, s1)) =>
      if !StartsWith(s1, "×") then None
      else
        match ParseNumber(s1[1..])
        case None => None
        case Some((face, s2)) =>
          if !StartsWith(s2, unit) then None else Some((Entry(count, face), s2[|unit|..]))
  }

  /** The items of a list, read back: an item, and then either the end or `sep` and more items. */
  function ParseEntries(s: string, unit: string, sep: string): Option<seq<Entry>>
    decreases |s|
  {
    match ParseEntry(s, unit)
    case None => None
    case Some((e, rest)) =>
      if rest == [] then Some([e])
      else if sep == [] || !StartsWith(rest, sep) || |rest| >= |s| then None
      else Prepend(e, ParseEntries(rest[|sep|..], unit, sep))
  }

  /** What may follow a run of digits without being read as part of it. */
  predicate NoLeadingDigit(s: string) {
    s == [] || !IsDigit(s[0])
  }

  /** A rendered number followed by a non-digit reads back as the number. */
  lemma ParseNumberRendered(n: nat, rest: string)
    requires NoLeadingDigit(rest)
    ensures ParseNumber(NatToString(n) + rest) == Some((n, rest))
  {
    var ds := NatToString(n);
    DigitSpanOfPrefix(ds, rest);
    assert (ds + rest)[..|ds|] == ds;
    assert (ds + rest)[|ds|..] == rest;
    NatToStringRoundTrip(n);
  }

  /** A rendered item reads back as the item, leaving what follows it. */
  lemma ParseEntryRendered(e: Entry, unit: string, tail: string)
    requires NoLeadingDigit(unit + tail)
    ensures ParseEntry(RenderEntry(e, unit) + tail, unit) == Some((e, tail))
  {
    var s1 := ['×'] + NatToString(e.face) + (unit + tail);
    assert RenderEntry(e, unit) + tail == NatToString(e.count) + s1;
    ParseNumberRendered(e.count, s1);
    ParseAfterCount(e.face, unit, tail);
  }

  /** The part of a rendered item after its count: `×`, the face, the unit. */
  lemma ParseAfterCount(face: nat, unit: string, tail: string)
    requires NoLeadingDigit(unit + tail)
    ensures var s1 := ['×'] + NatToString(face) + (unit + tail);
      && StartsWith(s1, "×")
      && ParseNumber(s1[1..]) == Some((face, unit + tail))
      && StartsWith(unit + tail, unit) && (unit + tail)[|unit|..] == tail
  {
    var n := NatToString(face) + (unit + tail);
    assert ['×'] + NatToString(face) + (unit + tail) == "×" + n;
    ConcatSplit("×", n);
    ParseNumberRendered(face, unit + tail);
    ConcatSplit(unit, tail);
  }

  /** A list of two or more items is the first item, the separator and the rest. */
  lemma RenderEntriesCons(es: seq<Entry>, unit: string, sep: string)
    requires |es| >= 2
    ensures RenderEntries(es, unit, sep) == RenderEntry(es[0], unit) + sep + RenderEntries(es[1..], unit, sep)
  {
    var parts := seq(|es|, i requires 0 <= i < |es| => RenderEntry(es[i], unit));
    assert parts[1..] == seq(|es[1..]|, i requires 0 <= i < |es[1..]| => RenderEntry(es[1..][i], unit));
  }

  /** Parsing one rendered item, followed by the end or by a separator. */
  lemma ParseEntryStep(e: Entry, unit: string, sep: string, tail: string)
    requires NoLeadingDigit(unit) && sep != [] && !IsDigit(sep[0])
    requires tail == [] || StartsWith(tail, sep)
    ensures ParseEntries(RenderEntry(e, unit) + tail, unit, sep)
      == if tail == [] then Some([e]) else Prepend(e, ParseEntries(tail[|sep|..], unit, sep))
  {
    assert NoLeadingDigit(unit + tail);
    ParseEntryRendered(e, unit, tail);
    assert |RenderEntry(e, unit)| > 0;
  }

  /** Rendering and parsing are inverse: a non-empty voucher list reads back as its items. */
  lemma {:induction false} RenderEntriesRoundTrip(es: seq<Entry>, unit: string, sep: string)
    requires es != [] && NoLeadingDigit(unit) && sep != [] && !IsDigit(sep[0])
    ensures ParseEntries(RenderEntries(es, unit, sep), unit, sep) == Some(es)
    decreases |es|
  {
    if |es| == 1 {
      RenderSingle(es, unit, sep);
    } else {
      RenderEntriesRoundTrip(es[1..], unit, sep);
      RoundTripStep(es, unit, sep);
    }
  }

  /** A list of two or more items reads back once its tail does. */
  lemma RoundTripStep(es: seq<Entry>, unit: string, sep: string)
    requires |es| >= 2 && NoLeadingDigit(unit) && sep != [] && !IsDigit(sep[0])
    requires ParseEntries(RenderEntries(es[1..], unit, sep), unit, sep) == Some(es[1..])
    ensures ParseEntries(RenderEntries(es, unit, sep), unit, sep) == Some(es)
  {
    var head, rest := RenderEntry(es[0], unit), RenderEntries(es[1..], unit, sep);
    RenderEntriesCons(es, unit, sep);
    ParseAfterSeparator(es[0], unit, sep, rest);
    calc {
      ParseEntries(RenderEntries(es, unit, sep), unit, sep);
      ParseEntries(head + sep + rest, unit, sep);
      Prepend(es[0], Some(es[1..]));
      Some([es[0]] + es[1..]);
      { assert [es[0]] + es[1..] == es; }
      Some(es);
    }
  }

  lemma RenderSingle(es: seq<Entry>, unit: string, sep: string)
    requires |es| == 1 && NoLeadingDigit(unit) && sep != [] && !IsDigit(sep[0])
    ensures ParseEntries(RenderEntries(es, unit, sep), unit, sep) == Some(es)
  {
    assert RenderEntries(es, unit, sep) == RenderEntry(es[0], unit) + [];
    ParseEntryStep(es[0], unit, sep, []);
    assert es == [es[0]];
  }

  lemma ParseAfterSeparator(e: Entry, unit: string, sep: string, rest: string)
    requires NoLeadingDigit(unit) && sep != [] && !IsDigit(sep[0])
    ensures ParseEntries(RenderEntry(e, unit) + sep + rest, unit, sep) == Prepend(e, ParseEntries(rest, unit, sep))
  {
    var tail := sep + rest;
    assert RenderEntry(e, unit) + sep + rest == RenderEntry(e, unit) + tail;
    assert tail[..|sep|] == sep && tail[|sep|..] == rest;
    ParseEntryStep(e, unit, sep, tail);
  }

  /** A rendered list starts with a digit. */
  lemma RenderEntriesStartsWithDigit(es: seq<Entry>, unit: string, sep: string)
    requires es != []
    ensures var s := RenderEntries(es, unit, sep); s != [] && IsDigit(s[0])
  {
    if |es| >= 2 {
      RenderEntriesCons(es, unit, sep);
    }
    var s := RenderEntries(es, unit, sep);
    assert s[0] == NatToString(es[0].count)[0];
  }

  /** `formatVouchersList`'s count for a face: the distribution's count, 0 for any other face. */
  function CountOfFace(d: VoucherDistribution, face: nat): int {
    if face == 200 then d.vouchers200
    else if face == 150 then d.vouchers150
    else if face == 100 then d.vouchers100
    else if face == 50 then d.vouchers50
    else 0
  }

  /** The items `formatVouchersList` shows: the positive counts, from 200 down to 50. */
  function ListEntries(d: VoucherDistribution): seq<Entry> {
    (if d.vouchers200 > 0 then [Entry(d.vouchers200, 200)] else [])
    + (if d.vouchers150 > 0 then [Entry(d.vouchers150, 150)] else [])
    + (if d.vouchers100 > 0 then [Entry(d.vouchers100, 100)] else [])
    + (if d.vouchers50 > 0 then [Entry(d.vouchers50, 50)] else [])
  }

  /** The text shown when there is nothing to list. */
  const NoVouchers: string := "אין תלושים"

  /** `formatVouchersList`: `n×D₪` items joined by " + ", or "אין תלושים" when every count is 0. */
  function FormatVouchersList(d: VoucherDistribution): string {
    var es := ListEntries(d);
    if es == [] then NoVouchers else RenderEntries(es, "₪", " + ")
  }

  /** Reads the text of `formatVouchersList` back into its items. */
  function ParseVouchersList(s: string): Option<seq<Entry>> {
    if s == NoVouchers then Some([]) else ParseEntries(s, "₪", " + ")
  }

  /** The voucher list text loses nothing: it reads back as exactly the listed items. */
  lemma FormatVouchersListRoundTrip(d: VoucherDistribution)
    ensures ParseVouchersList(FormatVouchersList(d)) == Some(ListEntries(d))
  {
    var es := ListEntries(d);
    if es != [] {
      RenderEntriesRoundTrip(es, "₪", " + ");
      RenderEntriesStartsWithDigit(es, "₪", " + ");
    }
  }

  /** The items listed are the denominations with a positive count, each with its count, largest
      face first; the list is empty exactly when no count is positive. */
  lemma ListEntriesShape(d: VoucherDistribution)
    ensures var es := ListEntries(d);
      && (forall e :: e in es <==> e.face in {200, 150, 100, 50} && e.count > 0 && e.count == CountOfFace(d, e.face))
      && (forall i, j :: 0 <= i < j < |es| ==> es[i].face > es[j].face)
      && (es == [] <==> d.vouchers50 <= 0 && d.vouchers100 <= 0 && d.vouchers150 <= 0 && d.vouchers200 <= 0)
  {
  }
}
