/** Institution debt: the dashboard's totals of debts and payments, and the rule for
    recording a payment against an institution's current debt. */
module Debt {
  import opened Wrappers
  import opened Seqs

  /** A recorded debt payment; the amount is `None` when the column is `null`. */
  datatype Payment = Payment(institutionId: Option<string>, amount: Option<real>)

  /** An institution's debt columns, `None` standing for `null`. */
  datatype DebtInstitution = DebtInstitution(id: string, totalDebt: Option<real>, totalInstitutionSubsidy: Option<real>)

  // ------------------------------------------------------------------
  // Totals
  // ------------------------------------------------------------------

  function PaymentAmount(p: Payment): real {
    OrZero(p.amount)
  }

  function DebtOf(i: DebtInstitution): real {
    OrZero(i.totalDebt)
  }

  /** The list a query returned, or nothing while it has not. */
  function Loaded<T>(xs: Option<seq<T>>): seq<T> {
    if xs.Some? then xs.value else []
  }

  /** The summary card "active debts": every institution's `total_debt`, a missing one as 0. */
  function TotalActiveDebt(institutions: Option<seq<DebtInstitution>>): real {
    SumBy(Loaded(institutions), DebtOf)
  }

  /** The summary card "debts paid": every payment's amount, a missing one as 0. */
  function TotalPaid(payments: Option<seq<Payment>>): real {
    SumBy(Loaded(payments), PaymentAmount)
  }

  /** `p.institution_id === inst.id`; a payment without an institution belongs to none. */
  function PaidTo(id: string): Payment -> bool {
    (p: Payment) => p.institutionId == Some(id)
  }

  function NotPaidTo(id: string): Payment -> bool {
    (p: Payment) => p.institutionId != Some(id)
  }

  /** The payments an institution's card lists. */
  function InstitutionPayments(payments: Option<seq<Payment>>, id: string): seq<Payment> {
    Filter(Loaded(payments), PaidTo(id))
  }

  /** The amount an institution's card shows as paid. */
  function PaidForInstitution(payments: Option<seq<Payment>>, id: string): real {
    SumBy(InstitutionPayments(payments, id), PaymentAmount)
  }

  /** An institution's card lists exactly its own payments. */
  lemma InstitutionPaymentsIff(payments: seq<Payment>, id: string, p: Payment)
    ensures p in InstitutionPayments(Some(payments), id) <==> p in payments && p.institutionId == Some(id)
  {
    var r := InstitutionPayments(Some(payments), id);
    if p in payments && p.institutionId == Some(id) {
      var k :| 0 <= k < |payments| && payments[k] == p;
      assert PaidTo(id)(payments[k]);
    }
    if p in r {
      var k :| 0 <= k < |r| && r[k] == p;
      assert PaidTo(id)(r[k]);
    }
  }

  /** The total paid is an institution's payments plus everybody else's. */
  lemma PaidSplitsByInstitution(payments: seq<Payment>, id: string)
    ensures TotalPaid(Some(payments))
      == PaidForInstitution(Some(payments), id) + SumBy(Filter(payments, NotPaidTo(id)), PaymentAmount)
  {
    SumByFilterSplit(payments, PaymentAmount, PaidTo(id), NotPaidTo(id));
  }

  /** With no negative amounts, no institution has been paid more than the total. */
  lemma InstitutionPaidAtMostTotal(payments: seq<Payment>, id: string)
    requires forall k :: 0 <= k < |payments| ==> PaymentAmount(payments[k]) >= 0.0
    ensures 0.0 <= PaidForInstitution(Some(payments), id) <= TotalPaid(Some(payments))
  {
    PaidSplitsByInstitution(payments, id);
    var others := Filter(payments, NotPaidTo(id));
    SumByNonNegative(others, PaymentAmount);
    SumByNonNegative(InstitutionPayments(Some(payments), id), PaymentAmount);
  }

  /** Before the queries answer, both summary cards show 0. */
  lemma TotalsBeforeLoading()
    ensures TotalActiveDebt(None) == 0.0 && TotalPaid(None) == 0.0
  {
  }

  /** The active debt adds one more institution's debt for each institution listed. */
  lemma ActiveDebtAppend(institutions: seq<DebtInstitution>, i: DebtInstitution)
    ensures TotalActiveDebt(Some(institutions + [i])) == TotalActiveDebt(Some(institutions)) + DebtOf(i)
  {
    SumByAppend(institutions, i, DebtOf);
  }

  lemma {:induction false} SumByAppend<T>(xs: seq<T>, x: T, f: T -> real)
    ensures SumBy(xs + [x], f) == SumBy(xs, f) + f(x)
  {
    if xs == [] {
      assert [x][1..] == [];
    } else {
      assert (xs + [x])[1..] == xs[1..] + [x];
      SumByAppend(xs[1..], x, f);
    }
  }

  // ------------------------------------------------------------------
  // Recording a payment
  // ------------------------------------------------------------------

  /** What "record payment" does: refuse the amount, refuse it as above the debt,
      or submit exactly one payment. */
  datatype PaymentDecision = InvalidAmount | ExceedsDebt(currentDebt: real) | Submit(amount: real, notes: string)

  /** `handleAddPayment`. `parsed` is `parseFloat` of the amount field, `None` for NaN; the
      current debt is the institution's `total_debt`, 0 when it is missing. */
  function HandleAddPayment(parsed: Option<real>, debt: Option<real>, notes: string): PaymentDecision {
    var currentDebt := OrZero(debt);
    if parsed.None? || parsed.value == 0.0 || parsed.value <= 0.0 then InvalidAmount
    else if parsed.value > currentDebt then ExceedsDebt(currentDebt)
    else Submit(parsed.value, notes)
  }

  /** A payment is submitted exactly when the amount is a number above 0 and at most the
      current debt, and then with that amount and the notes as typed; a number above the debt
      is refused as such, anything else as invalid. */
  lemma AddPaymentIff(parsed: Option<real>, debt: Option<real>, notes: string)
    ensures var r := HandleAddPayment(parsed, debt, notes);
      && (r.Submit? <==> parsed.Some? && 0.0 < parsed.value <= OrZero(debt))
      && (r.Submit? ==> r == Submit(parsed.value, notes))
      && (r.ExceedsDebt? <==> parsed.Some? && 0.0 < parsed.value && parsed.value > OrZero(debt))
      && (r.InvalidAmount? <==> parsed.None? || parsed.value <= 0.0)
  {
  }

  /** `parseFloat` of the empty text is NaN. */
  predicate ParsedFrom(text: string, parsed: Option<real>) {
    text == "" ==> parsed.None?
  }

  /** The button is disabled while a request is pending, for an empty field, and for a
      number that is not above 0 or is above the current debt; a comparison with NaN is false. */
  predicate SubmitDisabled(pending: bool, text: string, parsed: Option<real>, debt: Option<real>) {
    pending || text == ""
    || (parsed.Some? && parsed.value <= 0.0)
    || (parsed.Some? && parsed.value > OrZero(debt))
  }

  /** For a numeric amount the button is enabled exactly when nothing is pending and the
      handler would submit the payment. */
  lemma ButtonMatchesHandler(pending: bool, text: string, parsed: Option<real>, debt: Option<real>, notes: string)
    requires ParsedFrom(text, parsed) && parsed.Some?
    ensures !SubmitDisabled(pending, text, parsed, debt) <==> !pending && HandleAddPayment(parsed, debt, notes).Submit?
  {
  }

  /** Whenever the button is enabled and the handler submits, the amount is within the debt. */
  lemma EnabledSubmitsWithinDebt(pending: bool, text: string, parsed: Option<real>, debt: Option<real>, notes: string)
    requires !SubmitDisabled(pending, text, parsed, debt)
    requires HandleAddPayment(parsed, debt, notes).Submit?
    ensures var a := HandleAddPayment(parsed, debt, notes).amount; 0.0 < a <= OrZero(debt)
  {
  }

  /** Text that is not a number leaves the button enabled, and the handler refuses it. */
  lemma NonNumberEnablesButton(text: string, debt: Option<real>, notes: string)
    requires text != ""
    ensures !SubmitDisabled(false, text, None, debt)
    ensures HandleAddPayment(None, debt, notes) == InvalidAmount
  {
  }
}
