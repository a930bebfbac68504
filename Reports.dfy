/** The manager's report aggregates (`openReports`): the revenue `reduce` and
    the low-stock `filter`. */
module Reports {
  import opened Wrappers
  import opened Records
  import opened ListEdits

  /** `p.amount || 0`. */
  function Amount(p: Payment): int { p.amount.GetOr(0) }

  /** `payments.reduce((s, p) => s + (p.amount || 0), 0)`. */
  function Revenue(ps: seq<Payment>): int {
    if ps == [] then 0 else Revenue(ps[..|ps| - 1]) + Amount(ps[|ps| - 1])
  }

  /** Revenue adds up over any split of the payment list. */
  lemma {:induction false} RevenueConcat(a: seq<Payment>, b: seq<Payment>)
    ensures Revenue(a + b) == Revenue(a) + Revenue(b)
  {
    if b == [] {
      assert a + b == a;
    } else {
      var n := |b| - 1;
      assert (a + b)[..|a + b| - 1] == a + b[..n];
      RevenueConcat(a, b[..n]);
    }
  }

  /** A payment the payment form accepts adds exactly its amount to the revenue. */
  lemma RevenueAfterPayment(p: Payment, ps: seq<Payment>)
    requires p.amount.Some? && p.amount.value > 0
    ensures Revenue([p] + ps) == Revenue(ps) + p.amount.value
    ensures Revenue([p] + ps) > Revenue(ps)
  {
    RevenueConcat([p], ps);
    assert [p][..0] == [];
  }

  /** Payments without a negative amount never give negative revenue. */
  lemma {:induction false} RevenueNonNegative(ps: seq<Payment>)
    requires forall i :: 0 <= i < |ps| ==> Amount(ps[i]) >= 0
    ensures Revenue(ps) >= 0
  {
    if ps != [] { RevenueNonNegative(ps[..|ps| - 1]); }
  }

  /** `s.qty <= (s.minThreshold || 0)`. */
  predicate IsLow(s: StockItem) { s.qty <= s.minThreshold.GetOr(0) }

  /** The stock items to re-order, in stock order. */
  function LowStock(stock: seq<StockItem>): (r: seq<StockItem>)
    ensures forall s :: s in r <==> s in stock && s.qty <= s.minThreshold.GetOr(0)
  {
    Filter(stock, IsLow)
  }

  /** The four figures of the report. */
  datatype Report = Report(totalPatients: nat, totalAppointments: nat, revenue: int, lowStock: seq<StockItem>)

  /** The report over the global patient list and the active partition; a
      missing collection counts as empty. */
  function MakeReport(patients: seq<Patient>, p: Partition): (r: Report)
    ensures r.totalPatients == |patients|
    ensures r.totalAppointments == |p.appointments.GetOr([])|
    ensures r.revenue == Revenue(p.payments.GetOr([]))
    ensures forall s :: s in r.lowStock <==> s in p.stock.GetOr([]) && IsLow(s)
  {
    Report(|patients|, |p.appointments.GetOr([])|, Revenue(p.payments.GetOr([])), LowStock(p.stock.GetOr([])))
  }
}
