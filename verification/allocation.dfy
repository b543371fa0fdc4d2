/** The greedy allocator of `filter_and_recommend` (AP_Calc.py:135-172): vendors
    are visited in ascending order of normalised name, each vendor's candidates
    in sort order, and each payment is the least of the amount, the vendor's
    remaining budget and the week's remaining budget. */
module Allocation {
  import opened Wrappers
  import Seqs
  import Text
  import Ledger
  import Grouping

  /** A recommended payment: the candidate row, the payment, and the vendor's
      and the period's running totals after it. */
  datatype Recommendation = Recommendation(
    cand: Ledger.Candidate,
    payment: real,
    cumulativeVendor: real,
    cumulative: real)

  function VendorOf(r: Recommendation): Option<string> {
    r.cand.bill.vendor
  }

  /** Every candidate has an amount, as `dropna(subset=["Amount"])` ensures. */
  predicate Payable(cands: seq<Ledger.Candidate>) {
    forall i :: 0 <= i < |cands| ==> cands[i].bill.amount.Some?
  }

  /** A vendor group of payable candidates is payable. */
  lemma PayableGroup(cands: seq<Ledger.Candidate>, v: string)
    requires Payable(cands)
    ensures Payable(WithVendor(cands, v))
  {
    var group := WithVendor(cands, v);
    forall i | 0 <= i < |group|
      ensures group[i].bill.amount.Some?
    {
      assert group[i] in group;
      var j :| 0 <= j < |cands| && cands[j] == group[i];
    }
  }

  function Amount(c: Ledger.Candidate): real
    requires c.bill.amount.Some?
  {
    c.bill.amount.value
  }

  /** Python's three-argument `min`. */
  function Min3(a: real, b: real, c: real): (m: real)
    ensures m <= a && m <= b && m <= c
    ensures m == a || m == b || m == c
  {
    if a <= b && a <= c then a else if b <= c then b else c
  }

  /** The candidates of one vendor group, in sort order. */
  function WithVendor(cands: seq<Ledger.Candidate>, v: string): seq<Ledger.Candidate> {
    Seqs.Filter(cands, (c: Ledger.Candidate) => c.bill.vendor == Some(v))
  }

  /** `cumulative` is the running period total, starting from `start`. */
  ghost predicate RunningTotal(recs: seq<Recommendation>, start: real) {
    && (|recs| > 0 ==> recs[0].cumulative == start + recs[0].payment)
    && (forall i :: 0 < i < |recs| ==> recs[i].cumulative == recs[i - 1].cumulative + recs[i].payment)
  }

  /** `cumulativeVendor` is the running total within one vendor's pass. */
  ghost predicate RunningVendorTotal(recs: seq<Recommendation>, start: real) {
    && (|recs| > 0 ==> recs[0].cumulativeVendor == start + recs[0].payment)
    && (forall i :: 0 < i < |recs| ==> recs[i].cumulativeVendor == recs[i - 1].cumulativeVendor + recs[i].payment)
  }

  /** `cumulativeVendor` is the vendor's running total: it restarts from zero
      whenever the vendor changes. */
  ghost predicate VendorRunning(recs: seq<Recommendation>) {
    && (|recs| > 0 ==> recs[0].cumulativeVendor == recs[0].payment)
    && (forall i :: 0 < i < |recs| ==>
          recs[i].cumulativeVendor ==
            (if VendorOf(recs[i - 1]) == VendorOf(recs[i]) then recs[i - 1].cumulativeVendor else 0.0) + recs[i].payment)
  }

  /** Every payment is positive and at most its invoice's amount. */
  predicate PaymentsValid(recs: seq<Recommendation>) {
    forall i :: 0 <= i < |recs| ==>
      recs[i].cand.bill.amount.Some? && 0.0 < recs[i].payment <= Amount(recs[i].cand)
  }

  /** No running total exceeds its cap. */
  predicate WithinBudgets(recs: seq<Recommendation>, vendorBudget: real, weeklyBudget: real) {
    forall i :: 0 <= i < |recs| ==>
      recs[i].cumulativeVendor <= vendorBudget && recs[i].cumulative <= weeklyBudget
  }

  /** Only the last recommendation may bring the period total up to the weekly budget. */
  predicate StopsAtBudget(recs: seq<Recommendation>, weeklyBudget: real) {
    forall i :: 0 <= i < |recs| - 1 ==> recs[i].cumulative < weeklyBudget
  }

  /** Every recommendation pays one of `cands`. */
  predicate Drawn(recs: seq<Recommendation>, cands: seq<Ledger.Candidate>) {
    forall i :: 0 <= i < |recs| ==> recs[i].cand in cands
  }

  /** Every recommendation names a vendor from `names`. */
  predicate NamedIn(recs: seq<Recommendation>, names: seq<string>) {
    forall i :: 0 <= i < |recs| ==> VendorOf(recs[i]).Some? && VendorOf(recs[i]).value in names
  }

  /** Every recommendation names a vendor that sorts strictly after `first`. */
  predicate AllAfter(first: string, recs: seq<Recommendation>) {
    forall i :: 0 <= i < |recs| ==> VendorOf(recs[i]).Some? && Text.LexLess(first, VendorOf(recs[i]).value)
  }

  /** Vendors are named, and appear in ascending order of name. */
  predicate VendorsInOrder(recs: seq<Recommendation>) {
    && (forall i :: 0 <= i < |recs| ==> VendorOf(recs[i]).Some?)
    && (forall i, j :: 0 <= i < j < |recs| ==>
          VendorOf(recs[i]) == VendorOf(recs[j]) || Text.LexLess(VendorOf(recs[i]).value, VendorOf(recs[j]).value))
  }

  /** The period total after `recs`. */
  function After(recs: seq<Recommendation>, start: real): real {
    if |recs| == 0 then start else recs[|recs| - 1].cumulative
  }

  /** The vendor total before record `i` of a pass whose vendor total started at `start`. */
  function VendorBefore(recs: seq<Recommendation>, start: real, i: int): real
    requires 0 <= i <= |recs|
  {
    if i == 0 then start else recs[i - 1].cumulativeVendor
  }

  /** The period total before record `i` of a walk whose period total started at `start`. */
  function TotalBefore(recs: seq<Recommendation>, start: real, i: int): real
    requires 0 <= i <= |recs|
  {
    if i == 0 then start else recs[i - 1].cumulative
  }

  /** Each payment of a pass is the least of the invoice amount, the vendor's
      remaining budget and the week's remaining budget. */
  predicate PassPays(recs: seq<Recommendation>, vendorBudget: real, weeklyBudget: real, vendorCum: real, totalCum: real) {
    forall i :: 0 <= i < |recs| ==>
      && recs[i].cand.bill.amount.Some?
      && recs[i].payment == Min3(Amount(recs[i].cand), vendorBudget - VendorBefore(recs, vendorCum, i),
                                 weeklyBudget - TotalBefore(recs, totalCum, i))
  }

  /** Only the last recommendation of a pass may bring the vendor total up to the vendor budget. */
  predicate VendorStopsAtBudget(recs: seq<Recommendation>, vendorBudget: real) {
    forall i :: 0 <= i < |recs| - 1 ==> recs[i].cumulativeVendor < vendorBudget
  }

  /** A pass that leaves candidates unpaid ended as the loop does: its last
      payment reached a cap, or the next payment would not be positive. */
  predicate PassStops(group: seq<Ledger.Candidate>, recs: seq<Recommendation>, vendorBudget: real, weeklyBudget: real,
                      vendorCum: real, totalCum: real)
    requires Payable(group) && |recs| <= |group|
  {
    |recs| < |group| ==>
      var vc := VendorBefore(recs, vendorCum, |recs|);
      var tc := TotalBefore(recs, totalCum, |recs|);
      (|recs| > 0 && (vc >= vendorBudget || tc >= weeklyBudget))
      || Min3(Amount(group[|recs|]), vendorBudget - vc, weeklyBudget - tc) <= 0.0
  }

  /** `recs` is what the inner loop records for `group`: a prefix of it, each
      payment positive and the least of the three, the running totals kept,
      going on past a record only while both totals are under their caps, and
      stopping only where the loop breaks. */
  ghost predicate IsPass(group: seq<Ledger.Candidate>, recs: seq<Recommendation>, vendorBudget: real, weeklyBudget: real,
                   vendorCum: real, totalCum: real)
    requires Payable(group)
  {
    && |recs| <= |group|
    && (forall i :: 0 <= i < |recs| ==> recs[i].cand == group[i])
    && (forall i :: 0 <= i < |recs| ==> recs[i].payment > 0.0)
    && PassPays(recs, vendorBudget, weeklyBudget, vendorCum, totalCum)
    && RunningTotal(recs, totalCum)
    && RunningVendorTotal(recs, vendorCum)
    && VendorStopsAtBudget(recs, vendorBudget)
    && StopsAtBudget(recs, weeklyBudget)
    && PassStops(group, recs, vendorBudget, weeklyBudget, vendorCum, totalCum)
  }

  /** The inner loop over one vendor's candidates, carrying the vendor's and
      the period's running totals. */
  function WalkVendor(group: seq<Ledger.Candidate>, vendorBudget: real, weeklyBudget: real,
                      vendorCum: real, totalCum: real): (recs: seq<Recommendation>)
    requires Payable(group)
    ensures |recs| <= |group|
    ensures forall i :: 0 <= i < |recs| ==> recs[i].cand == group[i]
    ensures PaymentsValid(recs)
    ensures WithinBudgets(recs, vendorBudget, weeklyBudget)
    ensures RunningTotal(recs, totalCum)
    ensures RunningVendorTotal(recs, vendorCum)
    ensures forall i :: 0 <= i < |recs| - 1 ==> recs[i].payment == Amount(recs[i].cand)
    ensures StopsAtBudget(recs, weeklyBudget)
    ensures totalCum >= weeklyBudget ==> recs == []
    ensures PassPays(recs, vendorBudget, weeklyBudget, vendorCum, totalCum)
    ensures VendorStopsAtBudget(recs, vendorBudget)
    ensures PassStops(group, recs, vendorBudget, weeklyBudget, vendorCum, totalCum)
    decreases |group|
  {
    if |group| == 0 then []
    else
      var c := group[0];
      var payment := Min3(Amount(c), vendorBudget - vendorCum, weeklyBudget - totalCum);
      if payment <= 0.0 then []
      else
        var rec := Recommendation(c, payment, vendorCum + payment, totalCum + payment);
        if vendorCum + payment >= vendorBudget || totalCum + payment >= weeklyBudget then [rec]
        else
          var rest := WalkVendor(group[1..], vendorBudget, weeklyBudget, vendorCum + payment, totalCum + payment);
          GreedyStep(group, vendorBudget, weeklyBudget, vendorCum, totalCum, payment, rest);
          WalkStep(group, vendorBudget, weeklyBudget, vendorCum, totalCum, rec, rest);
          [rec] + rest
  }

  /** One iteration of the inner loop: a full, capped payment followed by the
      rest of the walk keeps every property of the walk. */
  lemma WalkStep(group: seq<Ledger.Candidate>, vendorBudget: real, weeklyBudget: real,
                 vendorCum: real, totalCum: real, rec: Recommendation, rest: seq<Recommendation>)
    requires |group| > 0 && Payable(group) && rec.cand == group[0]
    requires 0.0 < rec.payment == Amount(group[0])
    requires rec.cumulativeVendor == vendorCum + rec.payment < vendorBudget
    requires rec.cumulative == totalCum + rec.payment < weeklyBudget
    requires |rest| <= |group| - 1
    requires forall i :: 0 <= i < |rest| ==> rest[i].cand == group[1..][i]
    requires PaymentsValid(rest)
    requires WithinBudgets(rest, vendorBudget, weeklyBudget)
    requires RunningTotal(rest, rec.cumulative)
    requires RunningVendorTotal(rest, rec.cumulativeVendor)
    requires forall i :: 0 <= i < |rest| - 1 ==> rest[i].payment == Amount(rest[i].cand)
    requires StopsAtBudget(rest, weeklyBudget)
    ensures var recs := [rec] + rest;
      && |recs| <= |group|
      && (forall i :: 0 <= i < |recs| ==> recs[i].cand == group[i])
      && PaymentsValid(recs)
      && WithinBudgets(recs, vendorBudget, weeklyBudget)
      && RunningTotal(recs, totalCum)
      && RunningVendorTotal(recs, vendorCum)
      && (forall i :: 0 <= i < |recs| - 1 ==> recs[i].payment == Amount(recs[i].cand))
      && StopsAtBudget(recs, weeklyBudget)
  {
    ConsCands(group, rec, rest);
    ConsPayments(rec, rest, vendorBudget, weeklyBudget);
    ConsRunning(rec, rest, vendorCum, totalCum);
    ConsStops(rec, rest, weeklyBudget);
  }

  /** One iteration of the inner loop keeps the payment rule and the stopping rule. */
  lemma GreedyStep(group: seq<Ledger.Candidate>, vendorBudget: real, weeklyBudget: real,
                   vendorCum: real, totalCum: real, payment: real, rest: seq<Recommendation>)
    requires |group| > 0 && Payable(group)
    requires payment == Min3(Amount(group[0]), vendorBudget - vendorCum, weeklyBudget - totalCum)
    requires vendorCum + payment < vendorBudget
    requires |rest| <= |group| - 1
    requires PassPays(rest, vendorBudget, weeklyBudget, vendorCum + payment, totalCum + payment)
    requires VendorStopsAtBudget(rest, vendorBudget)
    requires PassStops(group[1..], rest, vendorBudget, weeklyBudget, vendorCum + payment, totalCum + payment)
    ensures var rec := Recommendation(group[0], payment, vendorCum + payment, totalCum + payment);
      && PassPays([rec] + rest, vendorBudget, weeklyBudget, vendorCum, totalCum)
      && VendorStopsAtBudget([rec] + rest, vendorBudget)
      && PassStops(group, [rec] + rest, vendorBudget, weeklyBudget, vendorCum, totalCum)
  {
    var rec := Recommendation(group[0], payment, vendorCum + payment, totalCum + payment);
    ConsPays(rec, rest, vendorBudget, weeklyBudget, vendorCum, totalCum);
    ConsVendorStops(rec, rest, vendorBudget);
    ConsPassStops(group, rec, rest, vendorBudget, weeklyBudget, vendorCum, totalCum);
  }

  lemma ConsPays(rec: Recommendation, rest: seq<Recommendation>, vendorBudget: real, weeklyBudget: real,
                 vendorCum: real, totalCum: real)
    requires rec.cand.bill.amount.Some?
    requires rec.payment == Min3(Amount(rec.cand), vendorBudget - vendorCum, weeklyBudget - totalCum)
    requires PassPays(rest, vendorBudget, weeklyBudget, rec.cumulativeVendor, rec.cumulative)
    ensures PassPays([rec] + rest, vendorBudget, weeklyBudget, vendorCum, totalCum)
  {
    var recs := [rec] + rest;
    forall i | 0 < i < |recs|
      ensures recs[i].cand.bill.amount.Some?
      ensures recs[i].payment == Min3(Amount(recs[i].cand), vendorBudget - VendorBefore(recs, vendorCum, i),
                                      weeklyBudget - TotalBefore(recs, totalCum, i))
    {
      BeforeCons(rec, rest, vendorCum, totalCum, i);
    }
  }

  /** The totals before a record of `[rec] + rest` are those before its place in `rest`. */
  lemma BeforeCons(rec: Recommendation, rest: seq<Recommendation>, vendorCum: real, totalCum: real, i: int)
    requires 0 < i <= |rest|
    ensures ([rec] + rest)[i] == rest[i - 1]
    ensures VendorBefore([rec] + rest, vendorCum, i) == VendorBefore(rest, rec.cumulativeVendor, i - 1)
    ensures TotalBefore([rec] + rest, totalCum, i) == TotalBefore(rest, rec.cumulative, i - 1)
  {
    if i > 1 {
      assert ([rec] + rest)[i - 1] == rest[i - 2];
    }
  }

  lemma ConsVendorStops(rec: Recommendation, rest: seq<Recommendation>, vendorBudget: real)
    requires rec.cumulativeVendor < vendorBudget
    requires VendorStopsAtBudget(rest, vendorBudget)
    ensures VendorStopsAtBudget([rec] + rest, vendorBudget)
  {
    forall i | 0 < i < |[rec] + rest| - 1
      ensures ([rec] + rest)[i].cumulativeVendor < vendorBudget
    {
      assert ([rec] + rest)[i] == rest[i - 1];
    }
  }

  lemma ConsPassStops(group: seq<Ledger.Candidate>, rec: Recommendation, rest: seq<Recommendation>,
                      vendorBudget: real, weeklyBudget: real, vendorCum: real, totalCum: real)
    requires |group| > 0 && Payable(group)
    requires |rest| <= |group| - 1
    requires PassStops(group[1..], rest, vendorBudget, weeklyBudget, rec.cumulativeVendor, rec.cumulative)
    ensures PassStops(group, [rec] + rest, vendorBudget, weeklyBudget, vendorCum, totalCum)
  {
    var recs := [rec] + rest;
    var n := |rest|;
    assert VendorBefore(recs, vendorCum, n + 1) == VendorBefore(rest, rec.cumulativeVendor, n);
    assert TotalBefore(recs, totalCum, n + 1) == TotalBefore(rest, rec.cumulative, n);
    if n < |group| - 1 {
      assert group[1..][n] == group[n + 1];
    }
  }

  lemma ConsCands(group: seq<Ledger.Candidate>, rec: Recommendation, rest: seq<Recommendation>)
    requires |group| > 0 && rec.cand == group[0]
    requires |rest| <= |group| - 1
    requires forall i :: 0 <= i < |rest| ==> rest[i].cand == group[1..][i]
    ensures |[rec] + rest| <= |group|
    ensures forall i :: 0 <= i < |[rec] + rest| ==> ([rec] + rest)[i].cand == group[i]
  {
    forall i | 0 < i < |[rec] + rest|
      ensures ([rec] + rest)[i].cand == group[i]
    {
      assert ([rec] + rest)[i] == rest[i - 1];
    }
  }

  lemma ConsPayments(rec: Recommendation, rest: seq<Recommendation>, vendorBudget: real, weeklyBudget: real)
    requires rec.cand.bill.amount.Some? && 0.0 < rec.payment == Amount(rec.cand)
    requires rec.cumulativeVendor < vendorBudget && rec.cumulative < weeklyBudget
    requires PaymentsValid(rest)
    requires WithinBudgets(rest, vendorBudget, weeklyBudget)
    requires forall i :: 0 <= i < |rest| - 1 ==> rest[i].payment == Amount(rest[i].cand)
    ensures PaymentsValid([rec] + rest)
    ensures WithinBudgets([rec] + rest, vendorBudget, weeklyBudget)
    ensures forall i :: 0 <= i < |[rec] + rest| - 1 ==> ([rec] + rest)[i].payment == Amount(([rec] + rest)[i].cand)
  {
    forall i | 0 < i < |[rec] + rest|
      ensures ([rec] + rest)[i] == rest[i - 1]
    {
    }
  }

  lemma ConsRunning(rec: Recommendation, rest: seq<Recommendation>, vendorCum: real, totalCum: real)
    requires rec.cumulativeVendor == vendorCum + rec.payment
    requires rec.cumulative == totalCum + rec.payment
    requires RunningTotal(rest, rec.cumulative)
    requires RunningVendorTotal(rest, rec.cumulativeVendor)
    ensures RunningTotal([rec] + rest, totalCum)
    ensures RunningVendorTotal([rec] + rest, vendorCum)
  {
    var recs := [rec] + rest;
    forall j | 0 < j < |recs|
      ensures recs[j].cumulative == recs[j - 1].cumulative + recs[j].payment
      ensures recs[j].cumulativeVendor == recs[j - 1].cumulativeVendor + recs[j].payment
    {
      var i := j - 1;
      assert recs[j] == rest[j - 1];
      if i > 0 {
        assert recs[i] == rest[i - 1];
      }
    }
  }

  lemma ConsStops(rec: Recommendation, rest: seq<Recommendation>, weeklyBudget: real)
    requires rec.cumulative < weeklyBudget
    requires StopsAtBudget(rest, weeklyBudget)
    ensures StopsAtBudget([rec] + rest, weeklyBudget)
  {
    forall i | 0 < i < |[rec] + rest| - 1
      ensures ([rec] + rest)[i].cumulative < weeklyBudget
    {
      assert ([rec] + rest)[i] == rest[i - 1];
    }
  }

  lemma RunningTotalAppend(a: seq<Recommendation>, b: seq<Recommendation>, start: real)
    requires RunningTotal(a, start) && RunningTotal(b, After(a, start))
    ensures RunningTotal(a + b, start)
  {
    forall j | 0 < j < |a + b|
      ensures (a + b)[j].cumulative == (a + b)[j - 1].cumulative + (a + b)[j].payment
    {
      var i := j - 1;
      if j < |a| {
        assert (a + b)[j] == a[j] && (a + b)[i] == a[i];
      } else if i >= |a| {
        assert (a + b)[j] == b[j - |a|] && (a + b)[i] == b[i - |a|];
      } else {
        assert (a + b)[j] == b[0] && (a + b)[i] == a[|a| - 1];
      }
    }
  }

  lemma VendorRunningAppend(a: seq<Recommendation>, b: seq<Recommendation>)
    requires VendorRunning(a) && VendorRunning(b)
    requires |a| > 0 && |b| > 0 ==> VendorOf(a[|a| - 1]) != VendorOf(b[0])
    ensures VendorRunning(a + b)
  {
    forall j | 0 < j < |a + b|
      ensures (a + b)[j].cumulativeVendor ==
        (if VendorOf((a + b)[j - 1]) == VendorOf((a + b)[j]) then (a + b)[j - 1].cumulativeVendor else 0.0) + (a + b)[j].payment
    {
      var i := j - 1;
      if j < |a| {
        assert (a + b)[j] == a[j] && (a + b)[i] == a[i];
      } else if i >= |a| {
        assert (a + b)[j] == b[j - |a|] && (a + b)[i] == b[i - |a|];
      } else {
        assert (a + b)[j] == b[0] && (a + b)[i] == a[|a| - 1];
      }
    }
  }

  /** One vendor's pass resets the vendor total at its start and keeps it running after. */
  lemma BlockVendorRunning(block: seq<Recommendation>, v: string)
    requires RunningVendorTotal(block, 0.0)
    requires forall i :: 0 <= i < |block| ==> VendorOf(block[i]) == Some(v)
    ensures VendorRunning(block)
  {
    forall j | 0 < j < |block|
      ensures block[j].cumulativeVendor ==
        (if VendorOf(block[j - 1]) == VendorOf(block[j]) then block[j - 1].cumulativeVendor else 0.0) + block[j].payment
    {
      var i := j - 1;
      assert VendorOf(block[i]) == VendorOf(block[j]);
    }
  }

  /** The inner loop meets its own description. */
  lemma WalkVendorIsPass(group: seq<Ledger.Candidate>, vendorBudget: real, weeklyBudget: real,
                         vendorCum: real, totalCum: real)
    requires Payable(group)
    ensures IsPass(group, WalkVendor(group, vendorBudget, weeklyBudget, vendorCum, totalCum),
                   vendorBudget, weeklyBudget, vendorCum, totalCum)
  {
    var recs := WalkVendor(group, vendorBudget, weeklyBudget, vendorCum, totalCum);
    assert forall i :: 0 <= i < |recs| ==> recs[i].payment > 0.0;
  }

  /** The description determines the pass: anything that meets it is what the
      inner loop records. */
  lemma {:induction false} PassUnique(group: seq<Ledger.Candidate>, recs: seq<Recommendation>,
                                      vendorBudget: real, weeklyBudget: real, vendorCum: real, totalCum: real)
    requires Payable(group) && IsPass(group, recs, vendorBudget, weeklyBudget, vendorCum, totalCum)
    ensures recs == WalkVendor(group, vendorBudget, weeklyBudget, vendorCum, totalCum)
    decreases |group|
  {
    if |group| > 0 && |recs| > 0 {
      var p := Min3(Amount(group[0]), vendorBudget - vendorCum, weeklyBudget - totalCum);
      PassHead(group, recs, vendorBudget, weeklyBudget, vendorCum, totalCum);
      if vendorCum + p < vendorBudget && totalCum + p < weeklyBudget {
        PassTail(group, recs, vendorBudget, weeklyBudget, vendorCum, totalCum);
        PassUnique(group[1..], recs[1..], vendorBudget, weeklyBudget, recs[0].cumulativeVendor, recs[0].cumulative);
        Seqs.HeadTail(recs);
      }
    }
  }

  /** The first record of a pass is the loop's first record, and it is the only
      one when it reaches a cap. */
  lemma PassHead(group: seq<Ledger.Candidate>, recs: seq<Recommendation>,
                 vendorBudget: real, weeklyBudget: real, vendorCum: real, totalCum: real)
    requires Payable(group) && IsPass(group, recs, vendorBudget, weeklyBudget, vendorCum, totalCum)
    requires |recs| > 0
    ensures var p := Min3(Amount(group[0]), vendorBudget - vendorCum, weeklyBudget - totalCum);
      && p > 0.0
      && recs[0] == Recommendation(group[0], p, vendorCum + p, totalCum + p)
      && (vendorCum + p >= vendorBudget || totalCum + p >= weeklyBudget ==> |recs| == 1)
  {
  }

  /** The rest of a pass that went on past its first record is a pass over the
      rest of the group, from the totals after that record. */
  lemma PassTail(group: seq<Ledger.Candidate>, recs: seq<Recommendation>,
                 vendorBudget: real, weeklyBudget: real, vendorCum: real, totalCum: real)
    requires Payable(group) && IsPass(group, recs, vendorBudget, weeklyBudget, vendorCum, totalCum)
    requires |recs| > 0
    ensures Payable(group[1..])
    ensures IsPass(group[1..], recs[1..], vendorBudget, weeklyBudget, recs[0].cumulativeVendor, recs[0].cumulative)
  {
    Seqs.HeadTail(recs);
    TailShape(group, recs);
    TailPays(recs, vendorBudget, weeklyBudget, vendorCum, totalCum);
    TailRunning(recs, vendorCum, totalCum);
    TailStops(recs, vendorBudget, weeklyBudget);
    TailPassStops(group, recs, vendorBudget, weeklyBudget, vendorCum, totalCum);
  }

  lemma TailShape(group: seq<Ledger.Candidate>, recs: seq<Recommendation>)
    requires Payable(group) && 0 < |recs| <= |group|
    requires forall i :: 0 <= i < |recs| ==> recs[i].cand == group[i]
    requires forall i :: 0 <= i < |recs| ==> recs[i].payment > 0.0
    ensures Payable(group[1..]) && |recs[1..]| <= |group[1..]|
    ensures forall i :: 0 <= i < |recs[1..]| ==> recs[1..][i].cand == group[1..][i]
    ensures forall i :: 0 <= i < |recs[1..]| ==> recs[1..][i].payment > 0.0
  {
    forall i | 0 <= i < |group[1..]|
      ensures group[1..][i].bill.amount.Some?
    {
      assert group[1..][i] == group[i + 1];
    }
    forall i | 0 <= i < |recs[1..]|
      ensures recs[1..][i].cand == group[1..][i] && recs[1..][i].payment > 0.0
    {
      assert recs[1..][i] == recs[i + 1];
    }
  }

  lemma TailPays(recs: seq<Recommendation>, vendorBudget: real, weeklyBudget: real, vendorCum: real, totalCum: real)
    requires |recs| > 0 && PassPays(recs, vendorBudget, weeklyBudget, vendorCum, totalCum)
    ensures PassPays(recs[1..], vendorBudget, weeklyBudget, recs[0].cumulativeVendor, recs[0].cumulative)
  {
    var rest := recs[1..];
    Seqs.HeadTail(recs);
    forall i | 0 <= i < |rest|
      ensures rest[i].cand.bill.amount.Some?
      ensures rest[i].payment == Min3(Amount(rest[i].cand), vendorBudget - VendorBefore(rest, recs[0].cumulativeVendor, i),
                                      weeklyBudget - TotalBefore(rest, recs[0].cumulative, i))
    {
      BeforeCons(recs[0], rest, vendorCum, totalCum, i + 1);
    }
  }

  lemma TailRunning(recs: seq<Recommendation>, vendorCum: real, totalCum: real)
    requires |recs| > 0 && RunningTotal(recs, totalCum) && RunningVendorTotal(recs, vendorCum)
    ensures RunningTotal(recs[1..], recs[0].cumulative)
    ensures RunningVendorTotal(recs[1..], recs[0].cumulativeVendor)
  {
    var rest := recs[1..];
    if |rest| > 0 {
      assert rest[0] == recs[1];
    }
    forall j | 0 < j < |rest|
      ensures rest[j].cumulative == rest[j - 1].cumulative + rest[j].payment
      ensures rest[j].cumulativeVendor == rest[j - 1].cumulativeVendor + rest[j].payment
    {
      var i := j - 1;
      assert rest[i] == recs[i + 1] && rest[j] == recs[j + 1];
    }
  }

  lemma TailStops(recs: seq<Recommendation>, vendorBudget: real, weeklyBudget: real)
    requires |recs| > 0 && VendorStopsAtBudget(recs, vendorBudget) && StopsAtBudget(recs, weeklyBudget)
    ensures VendorStopsAtBudget(recs[1..], vendorBudget) && StopsAtBudget(recs[1..], weeklyBudget)
  {
    forall i | 0 <= i < |recs[1..]| - 1
      ensures recs[1..][i].cumulativeVendor < vendorBudget && recs[1..][i].cumulative < weeklyBudget
    {
      assert recs[1..][i] == recs[i + 1];
    }
  }

  lemma TailPassStops(group: seq<Ledger.Candidate>, recs: seq<Recommendation>,
                      vendorBudget: real, weeklyBudget: real, vendorCum: real, totalCum: real)
    requires Payable(group) && 0 < |recs| <= |group|
    requires Payable(group[1..])
    requires PassStops(group, recs, vendorBudget, weeklyBudget, vendorCum, totalCum)
    ensures PassStops(group[1..], recs[1..], vendorBudget, weeklyBudget, recs[0].cumulativeVendor, recs[0].cumulative)
  {
    var rest := recs[1..];
    var n := |rest|;
    assert VendorBefore(rest, recs[0].cumulativeVendor, n) == VendorBefore(recs, vendorCum, n + 1) by {
      if n > 0 {
        assert rest[n - 1] == recs[n];
      }
    }
    assert TotalBefore(rest, recs[0].cumulative, n) == TotalBefore(recs, totalCum, n + 1) by {
      if n > 0 {
        assert rest[n - 1] == recs[n];
      }
    }
    if n < |group| - 1 {
      assert group[1..][n] == group[n + 1];
    }
  }

  /** The inner loop's result is characterised by its description. */
  lemma PassIffWalk(group: seq<Ledger.Candidate>, recs: seq<Recommendation>,
                    vendorBudget: real, weeklyBudget: real, vendorCum: real, totalCum: real)
    requires Payable(group)
    ensures IsPass(group, recs, vendorBudget, weeklyBudget, vendorCum, totalCum)
        <==> recs == WalkVendor(group, vendorBudget, weeklyBudget, vendorCum, totalCum)
  {
    WalkVendorIsPass(group, vendorBudget, weeklyBudget, vendorCum, totalCum);
    if IsPass(group, recs, vendorBudget, weeklyBudget, vendorCum, totalCum) {
      PassUnique(group, recs, vendorBudget, weeklyBudget, vendorCum, totalCum);
    }
  }

  /** The vendor total before record `i` of a walk over several vendors: it
      restarts from zero at each new vendor. */
  function VendorSoFar(recs: seq<Recommendation>, i: int): real
    requires 0 <= i < |recs|
  {
    if i > 0 && VendorOf(recs[i - 1]) == VendorOf(recs[i]) then recs[i - 1].cumulativeVendor else 0.0
  }

  /** Each payment of the walk is the least of the invoice amount, its vendor's
      remaining budget and the week's remaining budget (AP_Calc.py:157). */
  predicate GreedyPays(recs: seq<Recommendation>, vendorBudget: real, weeklyBudget: real, totalCum: real) {
    forall i :: 0 <= i < |recs| ==>
      && recs[i].cand.bill.amount.Some?
      && recs[i].payment == Min3(Amount(recs[i].cand), vendorBudget - VendorSoFar(recs, i),
                                 weeklyBudget - TotalBefore(recs, totalCum, i))
  }

  /** A single vendor's pass, started from a zero vendor total, pays greedily. */
  lemma BlockGreedy(block: seq<Recommendation>, v: string, vendorBudget: real, weeklyBudget: real, totalCum: real)
    requires forall i :: 0 <= i < |block| ==> VendorOf(block[i]) == Some(v)
    requires PassPays(block, vendorBudget, weeklyBudget, 0.0, totalCum)
    ensures GreedyPays(block, vendorBudget, weeklyBudget, totalCum)
  {
    forall i | 0 <= i < |block|
      ensures VendorSoFar(block, i) == VendorBefore(block, 0.0, i)
    {
    }
  }

  /** The payments of `rest` are placed after `block` without a change of rule. */
  lemma GreedyAppendAt(block: seq<Recommendation>, rest: seq<Recommendation>, totalCum: real, i: int)
    requires |block| > 0 && |rest| > 0 ==> VendorOf(block[|block| - 1]) != VendorOf(rest[0])
    requires |block| <= i < |block| + |rest|
    ensures (block + rest)[i] == rest[i - |block|]
    ensures VendorSoFar(block + rest, i) == VendorSoFar(rest, i - |block|)
    ensures TotalBefore(block + rest, totalCum, i) == TotalBefore(rest, After(block, totalCum), i - |block|)
  {
    if i > |block| {
      assert (block + rest)[i - 1] == rest[i - |block| - 1];
    } else if i > 0 {
      assert (block + rest)[i - 1] == block[|block| - 1];
    }
  }

  lemma GreedyAppend(block: seq<Recommendation>, rest: seq<Recommendation>, vendorBudget: real, weeklyBudget: real,
                     totalCum: real)
    requires |block| > 0 && |rest| > 0 ==> VendorOf(block[|block| - 1]) != VendorOf(rest[0])
    requires GreedyPays(block, vendorBudget, weeklyBudget, totalCum)
    requires GreedyPays(rest, vendorBudget, weeklyBudget, After(block, totalCum))
    ensures GreedyPays(block + rest, vendorBudget, weeklyBudget, totalCum)
  {
    var recs := block + rest;
    forall i | 0 <= i < |recs|
      ensures recs[i].cand.bill.amount.Some?
      ensures recs[i].payment == Min3(Amount(recs[i].cand), vendorBudget - VendorSoFar(recs, i),
                                      weeklyBudget - TotalBefore(recs, totalCum, i))
    {
      if i < |block| {
        assert recs[i] == block[i];
        if i > 0 {
          assert recs[i - 1] == block[i - 1];
        }
      } else {
        GreedyAppendAt(block, rest, totalCum, i);
      }
    }
  }

  /** A vendor's pass followed by the walk over later vendors pays greedily throughout. */
  lemma GreedyVendorsStep(v: string, block: seq<Recommendation>, rest: seq<Recommendation>,
                          vendorBudget: real, weeklyBudget: real, totalCum: real)
    requires forall i :: 0 <= i < |block| ==> VendorOf(block[i]) == Some(v)
    requires AllAfter(v, rest)
    requires PassPays(block, vendorBudget, weeklyBudget, 0.0, totalCum)
    requires GreedyPays(rest, vendorBudget, weeklyBudget, After(block, totalCum))
    ensures GreedyPays(block + rest, vendorBudget, weeklyBudget, totalCum)
  {
    BlockGreedy(block, v, vendorBudget, weeklyBudget, totalCum);
    if |block| > 0 && |rest| > 0 {
      Text.LexLessIrreflexive(v);
    }
    GreedyAppend(block, rest, vendorBudget, weeklyBudget, totalCum);
  }

  /** The walk over the vendor groups in the given order, carrying the period total. */
  function WalkVendors(order: seq<string>, cands: seq<Ledger.Candidate>, vendorBudget: real, weeklyBudget: real,
                       totalCum: real): (recs: seq<Recommendation>)
    requires Payable(cands)
    requires Grouping.StrictlyAscending(order)
    ensures Drawn(recs, cands)
    ensures NamedIn(recs, order)
    ensures PaymentsValid(recs)
    ensures WithinBudgets(recs, vendorBudget, weeklyBudget)
    ensures RunningTotal(recs, totalCum)
    ensures VendorRunning(recs)
    ensures VendorsInOrder(recs)
    ensures StopsAtBudget(recs, weeklyBudget)
    ensures totalCum >= weeklyBudget ==> recs == []
    ensures GreedyPays(recs, vendorBudget, weeklyBudget, totalCum)
    decreases |order|
  {
    if |order| == 0 then []
    else
      var v := order[0];
      var group := WithVendor(cands, v);
      PayableGroup(cands, v);
      var block := WalkVendor(group, vendorBudget, weeklyBudget, 0.0, totalCum);
      Grouping.AscendingTail(order);
      var rest := WalkVendors(order[1..], cands, vendorBudget, weeklyBudget, After(block, totalCum));
      BlockFacts(order, cands, group, block);
      RestAfter(order, rest);
      VendorsStep(order, cands, vendorBudget, weeklyBudget, totalCum, block, rest);
      NamesAppend(order, block, rest);
      GreedyVendorsStep(v, block, rest, vendorBudget, weeklyBudget, totalCum);
      block + rest
  }

  /** One iteration of the outer loop: a vendor's pass followed by the walk over
      the later vendors keeps every property of the walk. */
  lemma VendorsStep(order: seq<string>, cands: seq<Ledger.Candidate>, vendorBudget: real, weeklyBudget: real,
                    totalCum: real, block: seq<Recommendation>, rest: seq<Recommendation>)
    requires |order| > 0
    requires Drawn(block, cands) && forall i :: 0 <= i < |block| ==> VendorOf(block[i]) == Some(order[0])
    requires PaymentsValid(block) && WithinBudgets(block, vendorBudget, weeklyBudget)
    requires RunningTotal(block, totalCum) && RunningVendorTotal(block, 0.0)
    requires StopsAtBudget(block, weeklyBudget)
    requires totalCum >= weeklyBudget ==> block == []
    requires Drawn(rest, cands)
    requires AllAfter(order[0], rest)
    requires PaymentsValid(rest) && WithinBudgets(rest, vendorBudget, weeklyBudget)
    requires RunningTotal(rest, After(block, totalCum)) && VendorRunning(rest) && VendorsInOrder(rest)
    requires StopsAtBudget(rest, weeklyBudget)
    requires After(block, totalCum) >= weeklyBudget ==> rest == []
    ensures var recs := block + rest;
      && Drawn(recs, cands)
      && PaymentsValid(recs)
      && WithinBudgets(recs, vendorBudget, weeklyBudget)
      && RunningTotal(recs, totalCum)
      && VendorRunning(recs)
      && VendorsInOrder(recs)
      && StopsAtBudget(recs, weeklyBudget)
      && (totalCum >= weeklyBudget ==> recs == [])
  {
    PointwiseAppend(cands, vendorBudget, weeklyBudget, block, rest);
    VendorsAppend(order[0], block, rest);
    TotalsAppend(block, rest, totalCum, weeklyBudget);
  }

  lemma NamesAppend(order: seq<string>, block: seq<Recommendation>, rest: seq<Recommendation>)
    requires |order| > 0
    requires forall i :: 0 <= i < |block| ==> VendorOf(block[i]) == Some(order[0])
    requires NamedIn(rest, order[1..])
    ensures NamedIn(block + rest, order)
  {
    forall i | 0 <= i < |block + rest|
      ensures VendorOf((block + rest)[i]).Some? && VendorOf((block + rest)[i]).value in order
    {
      if i < |block| {
        assert (block + rest)[i] == block[i];
      } else {
        assert (block + rest)[i] == rest[i - |block|];
        var k :| 0 <= k < |order[1..]| && order[1..][k] == VendorOf(rest[i - |block|]).value;
        assert order[k + 1] == order[1..][k];
      }
    }
  }

  lemma TotalsAppend(block: seq<Recommendation>, rest: seq<Recommendation>, totalCum: real, weeklyBudget: real)
    requires RunningTotal(block, totalCum) && RunningTotal(rest, After(block, totalCum))
    requires StopsAtBudget(block, weeklyBudget) && StopsAtBudget(rest, weeklyBudget)
    requires totalCum >= weeklyBudget ==> block == []
    requires After(block, totalCum) >= weeklyBudget ==> rest == []
    ensures RunningTotal(block + rest, totalCum)
    ensures StopsAtBudget(block + rest, weeklyBudget)
    ensures totalCum >= weeklyBudget ==> block + rest == []
  {
    RunningTotalAppend(block, rest, totalCum);
    StopsAppend(block, rest, totalCum, weeklyBudget);
  }

  lemma VendorsAppend(v: string, block: seq<Recommendation>, rest: seq<Recommendation>)
    requires forall i :: 0 <= i < |block| ==> VendorOf(block[i]) == Some(v)
    requires RunningVendorTotal(block, 0.0)
    requires AllAfter(v, rest)
    requires VendorRunning(rest) && VendorsInOrder(rest)
    ensures VendorRunning(block + rest)
    ensures VendorsInOrder(block + rest)
  {
    BlockVendorRunning(block, v);
    if |block| > 0 && |rest| > 0 {
      Text.LexLessIrreflexive(v);
    }
    VendorRunningAppend(block, rest);
    InOrderAppend(v, block, rest);
  }

  lemma PointwiseAppend(cands: seq<Ledger.Candidate>, vendorBudget: real, weeklyBudget: real,
                        block: seq<Recommendation>, rest: seq<Recommendation>)
    requires Drawn(block, cands) && Drawn(rest, cands)
    requires PaymentsValid(block) && WithinBudgets(block, vendorBudget, weeklyBudget)
    requires PaymentsValid(rest) && WithinBudgets(rest, vendorBudget, weeklyBudget)
    ensures var recs := block + rest;
      && Drawn(recs, cands)
      && PaymentsValid(recs)
      && WithinBudgets(recs, vendorBudget, weeklyBudget)
  {
    var recs := block + rest;
    forall i | 0 <= i < |recs|
      ensures recs[i].cand in cands
      ensures recs[i].cand.bill.amount.Some? && 0.0 < recs[i].payment <= Amount(recs[i].cand)
      ensures recs[i].cumulativeVendor <= vendorBudget && recs[i].cumulative <= weeklyBudget
    {
      if i < |block| {
        assert recs[i] == block[i];
      } else {
        assert recs[i] == rest[i - |block|];
      }
    }
  }

  lemma StopsAppend(block: seq<Recommendation>, rest: seq<Recommendation>, totalCum: real, weeklyBudget: real)
    requires StopsAtBudget(block, weeklyBudget) && StopsAtBudget(rest, weeklyBudget)
    requires totalCum >= weeklyBudget ==> block == []
    requires After(block, totalCum) >= weeklyBudget ==> rest == []
    ensures StopsAtBudget(block + rest, weeklyBudget)
    ensures totalCum >= weeklyBudget ==> block + rest == []
  {
    var recs := block + rest;
    forall i | 0 <= i < |recs| - 1
      ensures recs[i].cumulative < weeklyBudget
    {
      if i < |block| {
        assert recs[i] == block[i];
        if i == |block| - 1 {
          assert |rest| > 0;
        }
      } else {
        assert recs[i] == rest[i - |block|];
      }
    }
  }

  lemma BlockFacts(order: seq<string>, cands: seq<Ledger.Candidate>, group: seq<Ledger.Candidate>, block: seq<Recommendation>)
    requires |order| > 0 && group == WithVendor(cands, order[0])
    requires |block| <= |group| && forall i :: 0 <= i < |block| ==> block[i].cand == group[i]
    ensures Drawn(block, cands) && forall i :: 0 <= i < |block| ==> VendorOf(block[i]) == Some(order[0])
  {
    forall i | 0 <= i < |block|
      ensures block[i].cand in cands && VendorOf(block[i]) == Some(order[0])
    {
      assert group[i] in group;
    }
  }

  /** The later vendors of an ascending order all sort after the first. */
  lemma RestAfter(order: seq<string>, rest: seq<Recommendation>)
    requires |order| > 0 && Grouping.StrictlyAscending(order)
    requires NamedIn(rest, order[1..])
    ensures AllAfter(order[0], rest)
  {
    forall i | 0 <= i < |rest|
      ensures Text.LexLess(order[0], VendorOf(rest[i]).value)
    {
      var k :| 0 <= k < |order[1..]| && order[1..][k] == VendorOf(rest[i]).value;
      assert order[k + 1] == order[1..][k];
    }
  }

  lemma InOrderAppend(v: string, block: seq<Recommendation>, rest: seq<Recommendation>)
    requires forall i :: 0 <= i < |block| ==> VendorOf(block[i]) == Some(v)
    requires AllAfter(v, rest)
    requires VendorsInOrder(rest)
    ensures VendorsInOrder(block + rest)
  {
    forall i, j | 0 <= i < j < |block + rest|
      ensures VendorOf((block + rest)[i]) == VendorOf((block + rest)[j])
           || Text.LexLess(VendorOf((block + rest)[i]).value, VendorOf((block + rest)[j]).value)
    {
      if j >= |block| {
        assert (block + rest)[j] == rest[j - |block|];
        if i >= |block| {
          assert (block + rest)[i] == rest[i - |block|];
        }
      }
    }
  }

  /** The vendor names that have candidates, as `groupby("Vendor")` orders them. */
  function VendorOrder(cands: seq<Ledger.Candidate>): seq<string> {
    Grouping.SortedDistinct(Seqs.Map(cands, (c: Ledger.Candidate) => c.bill.vendor))
  }

  /** The allocation loop over the prepared candidates with a zero starting total. */
  function Allocate(cands: seq<Ledger.Candidate>, vendorBudget: real, weeklyBudget: real): (recs: seq<Recommendation>)
    requires Payable(cands)
    ensures forall i :: 0 <= i < |recs| ==> recs[i].cand in cands
    ensures PaymentsValid(recs)
    ensures WithinBudgets(recs, vendorBudget, weeklyBudget)
    ensures RunningTotal(recs, 0.0)
    ensures VendorRunning(recs)
    ensures VendorsInOrder(recs)
    ensures StopsAtBudget(recs, weeklyBudget)
    ensures weeklyBudget <= 0.0 ==> recs == []
    ensures GreedyPays(recs, vendorBudget, weeklyBudget, 0.0)
  {
    WalkVendors(VendorOrder(cands), cands, vendorBudget, weeklyBudget, 0.0)
  }
}
