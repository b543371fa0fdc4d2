/** What the running totals of the allocator mean: sums of the payments made so
    far, overall and per vendor, and hence the budget caps on those sums
    (AP_Calc.py:146-172). */
module Totals {
  import opened Wrappers
  import Seqs
  import Text
  import Ledger
  import Grouping
  import opened Allocation

  /** The sum of the payments in `recs`. */
  function Paid(recs: seq<Recommendation>): real {
    if |recs| == 0 then 0.0 else Paid(recs[..|recs| - 1]) + recs[|recs| - 1].payment
  }

  /** The recommendations for vendor `v`, in order. */
  function RecsOf(recs: seq<Recommendation>, v: string): seq<Recommendation> {
    Seqs.Filter(recs, (r: Recommendation) => VendorOf(r) == Some(v))
  }

  lemma RecsOfCons(r: Recommendation, recs: seq<Recommendation>, v: string)
    ensures RecsOf([r] + recs, v) == (if VendorOf(r) == Some(v) then [r] else []) + RecsOf(recs, v)
  {
    assert ([r] + recs)[0] == r;
    assert ([r] + recs)[1..] == recs;
  }

  lemma RecsOfAppend(a: seq<Recommendation>, b: seq<Recommendation>, v: string)
    ensures RecsOf(a + b, v) == RecsOf(a, v) + RecsOf(b, v)
  {
    Seqs.FilterAppend(a, b, (r: Recommendation) => VendorOf(r) == Some(v));
  }

  lemma {:induction false} RecsOfNone(recs: seq<Recommendation>, v: string)
    requires forall k :: 0 <= k < |recs| ==> VendorOf(recs[k]) != Some(v)
    ensures RecsOf(recs, v) == []
  {
    if |recs| > 0 {
      RecsOfNone(recs[1..], v);
    }
  }

  lemma {:induction false} RecsOfAll(recs: seq<Recommendation>, v: string)
    requires forall k :: 0 <= k < |recs| ==> VendorOf(recs[k]) == Some(v)
    ensures RecsOf(recs, v) == recs
  {
    if |recs| > 0 {
      RecsOfAll(recs[1..], v);
      RecsOfCons(recs[0], recs[1..], v);
      assert [recs[0]] + recs[1..] == recs;
    }
  }

  lemma PaidSnoc(recs: seq<Recommendation>, r: Recommendation)
    ensures Paid(recs + [r]) == Paid(recs) + r.payment
  {
    assert (recs + [r])[..|recs|] == recs;
  }

  /** Each record's `Cumulative` is the sum of the period's payments up to and
      including it. */
  lemma {:induction false} CumulativeIsPaid(recs: seq<Recommendation>, i: int)
    requires RunningTotal(recs, 0.0)
    requires 0 <= i < |recs|
    ensures recs[i].cumulative == Paid(recs[..i + 1])
    decreases i
  {
    assert recs[..i + 1] == recs[..i] + [recs[i]];
    PaidSnoc(recs[..i], recs[i]);
    if i == 0 {
      assert recs[..0] == [];
    } else {
      CumulativeIsPaid(recs, i - 1);
      assert recs[..i - 1 + 1] == recs[..i];
    }
  }

  lemma RecsOfSnoc(recs: seq<Recommendation>, r: Recommendation, v: string)
    ensures RecsOf(recs + [r], v) == if VendorOf(r) == Some(v) then RecsOf(recs, v) + [r] else RecsOf(recs, v)
  {
    RecsOfAppend(recs, [r], v);
    RecsOfCons(r, [], v);
    assert [r] + [] == [r];
    assert RecsOf([], v) == [];
    assert RecsOf(recs, v) + [] == RecsOf(recs, v);
  }

  /** Extending a prefix by a record of vendor `v` adds its payment to `v`'s sum. */
  lemma PaidVendorSnoc(recs: seq<Recommendation>, i: int, v: string)
    requires 0 <= i < |recs| && VendorOf(recs[i]) == Some(v)
    ensures Paid(RecsOf(recs[..i + 1], v)) == Paid(RecsOf(recs[..i], v)) + recs[i].payment
  {
    assert recs[..i + 1] == recs[..i] + [recs[i]];
    RecsOfSnoc(recs[..i], recs[i], v);
    PaidSnoc(RecsOf(recs[..i], v), recs[i]);
  }

  /** The vendor running total at `i`, read off `VendorRunning`. */
  lemma VendorRunningAt(recs: seq<Recommendation>, i: int)
    requires VendorRunning(recs) && 0 <= i < |recs|
    ensures i == 0 ==> recs[i].cumulativeVendor == recs[i].payment
    ensures i > 0 ==> (recs[i].cumulativeVendor ==
      (if VendorOf(recs[i - 1]) == VendorOf(recs[i]) then recs[i - 1].cumulativeVendor else 0.0) + recs[i].payment)
  {
  }

  /** Each record's `CumulativeVendor` is the sum of its vendor's payments up to
      and including it. */
  lemma {:induction false} CumulativeVendorIsPaid(recs: seq<Recommendation>, i: int)
    requires VendorRunning(recs) && VendorsInOrder(recs)
    requires 0 <= i < |recs|
    ensures recs[i].cumulativeVendor == Paid(RecsOf(recs[..i + 1], VendorOf(recs[i]).value))
    decreases i
  {
    var v := VendorOf(recs[i]).value;
    PaidVendorSnoc(recs, i, v);
    VendorRunningAt(recs, i);
    if i == 0 {
      assert recs[..0] == [];
    } else if VendorOf(recs[i - 1]) == Some(v) {
      CumulativeVendorIsPaid(recs, i - 1);
      assert recs[..i - 1 + 1] == recs[..i];
    } else {
      EarlierVendorsDiffer(recs, i);
      RecsOfNone(recs[..i], v);
    }
  }

  /** When the vendor changes at `i`, no earlier record has `i`'s vendor. */
  lemma EarlierVendorsDiffer(recs: seq<Recommendation>, i: int)
    requires VendorsInOrder(recs)
    requires 0 < i < |recs| && VendorOf(recs[i - 1]) != VendorOf(recs[i])
    ensures forall k :: 0 <= k < |recs[..i]| ==> VendorOf(recs[..i][k]) != VendorOf(recs[i])
  {
    var w := VendorOf(recs[i - 1]).value;
    var v := VendorOf(recs[i]).value;
    assert Text.LexLess(w, v);
    forall k | 0 <= k < i
      ensures VendorOf(recs[k]) != Some(v)
    {
      if k < i - 1 && VendorOf(recs[k]) == Some(v) {
        assert Text.LexLess(v, w);
        Text.LexLessAsymmetric(v, w);
      }
    }
  }

  /** The position of the last record for `v`, or -1 when there is none. */
  ghost function LastOf(recs: seq<Recommendation>, v: string): (r: int)
    ensures -1 <= r < |recs|
    ensures r >= 0 ==> VendorOf(recs[r]) == Some(v)
    ensures forall k :: r < k < |recs| ==> VendorOf(recs[k]) != Some(v)
  {
    if |recs| == 0 then -1
    else if VendorOf(recs[|recs| - 1]) == Some(v) then |recs| - 1
    else LastOf(recs[..|recs| - 1], v)
  }

  /** The total paid to any one vendor in a period never exceeds the vendor budget. */
  lemma VendorPaidWithinBudget(recs: seq<Recommendation>, vendorBudget: real, weeklyBudget: real, v: string)
    requires VendorRunning(recs) && VendorsInOrder(recs)
    requires WithinBudgets(recs, vendorBudget, weeklyBudget)
    ensures RecsOf(recs, v) == [] || Paid(RecsOf(recs, v)) <= vendorBudget
  {
    var r := LastOf(recs, v);
    if r == -1 {
      RecsOfNone(recs, v);
    } else {
      assert recs == recs[..r + 1] + recs[r + 1..];
      RecsOfAppend(recs[..r + 1], recs[r + 1..], v);
      RecsOfNone(recs[r + 1..], v);
      assert RecsOf(recs, v) == RecsOf(recs[..r + 1], v);
      CumulativeVendorIsPaid(recs, r);
    }
  }

  /** The total paid in a period never exceeds the weekly budget. */
  lemma PeriodPaidWithinBudget(recs: seq<Recommendation>, vendorBudget: real, weeklyBudget: real)
    requires RunningTotal(recs, 0.0) && WithinBudgets(recs, vendorBudget, weeklyBudget)
    ensures recs == [] || Paid(recs) <= weeklyBudget
  {
    if |recs| > 0 {
      CumulativeIsPaid(recs, |recs| - 1);
      assert recs[..|recs|] == recs;
    }
  }

  /** `rs` recommends, in order, the first candidates of `group`, and pays all
      but its last one in full. */
  predicate PaidPrefix(rs: seq<Recommendation>, group: seq<Ledger.Candidate>)
    requires Payable(group)
  {
    && |rs| <= |group|
    && (forall i :: 0 <= i < |rs| ==> rs[i].cand == group[i])
    && (forall i :: 0 <= i < |rs| - 1 ==> rs[i].payment == Amount(group[i]))
  }

  /** The walk of the first vendor in `order` gives exactly that vendor's records. */
  lemma HeadVendorRecs(order: seq<string>, block: seq<Recommendation>, rest: seq<Recommendation>)
    requires |order| > 0
    requires forall i :: 0 <= i < |block| ==> VendorOf(block[i]) == Some(order[0])
    requires AllAfter(order[0], rest)
    ensures RecsOf(block + rest, order[0]) == block
  {
    var v := order[0];
    RecsOfAppend(block, rest, v);
    RecsOfAll(block, v);
    forall k | 0 <= k < |rest|
      ensures VendorOf(rest[k]) != Some(v)
    {
      Text.LexLessIrreflexive(v);
    }
    RecsOfNone(rest, v);
    assert block + [] == block;
  }

  /** The pass over the first vendor of `order`. */
  function HeadWalk(order: seq<string>, cands: seq<Ledger.Candidate>, vendorBudget: real, weeklyBudget: real,
                    totalCum: real): seq<Recommendation>
    requires |order| > 0 && Payable(cands)
  {
    PayableGroup(cands, order[0]);
    WalkVendor(WithVendor(cands, order[0]), vendorBudget, weeklyBudget, 0.0, totalCum)
  }

  /** The walk's records for its first vendor are exactly that vendor's pass. */
  lemma HeadRecs(order: seq<string>, cands: seq<Ledger.Candidate>, vendorBudget: real, weeklyBudget: real, totalCum: real)
    requires |order| > 0 && Payable(cands) && Grouping.StrictlyAscending(order)
    ensures RecsOf(WalkVendors(order, cands, vendorBudget, weeklyBudget, totalCum), order[0])
         == HeadWalk(order, cands, vendorBudget, weeklyBudget, totalCum)
  {
    PayableGroup(cands, order[0]);
    var group := WithVendor(cands, order[0]);
    var block := HeadWalk(order, cands, vendorBudget, weeklyBudget, totalCum);
    var rest := WalkVendors(order[1..], cands, vendorBudget, weeklyBudget, After(block, totalCum));
    BlockFacts(order, cands, group, block);
    RestAfter(order, rest);
    HeadVendorRecs(order, block, rest);
  }

  /** For any other vendor, the walk's records are those of the walk over the later vendors. */
  lemma OtherRecs(order: seq<string>, cands: seq<Ledger.Candidate>, vendorBudget: real, weeklyBudget: real,
                  totalCum: real, v: string)
    requires |order| > 0 && Payable(cands) && Grouping.StrictlyAscending(order) && v != order[0]
    requires Grouping.StrictlyAscending(order[1..])
    ensures RecsOf(WalkVendors(order, cands, vendorBudget, weeklyBudget, totalCum), v)
         == RecsOf(WalkVendors(order[1..], cands, vendorBudget, weeklyBudget,
                               After(HeadWalk(order, cands, vendorBudget, weeklyBudget, totalCum), totalCum)), v)
  {
    PayableGroup(cands, order[0]);
    var group := WithVendor(cands, order[0]);
    var block := HeadWalk(order, cands, vendorBudget, weeklyBudget, totalCum);
    var rest := WalkVendors(order[1..], cands, vendorBudget, weeklyBudget, After(block, totalCum));
    BlockFacts(order, cands, group, block);
    RecsOfAppend(block, rest, v);
    RecsOfNone(block, v);
  }

  /** Within one vendor, the walk over the vendor groups recommends a prefix of
      that vendor's candidates in sort order, every one but the last paid in full. */
  lemma {:induction false} WalkVendorsPrefix(order: seq<string>, cands: seq<Ledger.Candidate>,
                                             vendorBudget: real, weeklyBudget: real, totalCum: real, v: string)
    requires Payable(cands) && Grouping.StrictlyAscending(order)
    ensures Payable(WithVendor(cands, v))
    ensures PaidPrefix(RecsOf(WalkVendors(order, cands, vendorBudget, weeklyBudget, totalCum), v), WithVendor(cands, v))
    decreases |order|
  {
    PayableGroup(cands, v);
    if |order| == 0 {
      RecsOfNone(WalkVendors(order, cands, vendorBudget, weeklyBudget, totalCum), v);
    } else if order[0] == v {
      HeadRecs(order, cands, vendorBudget, weeklyBudget, totalCum);
    } else {
      Grouping.AscendingTail(order);
      OtherRecs(order, cands, vendorBudget, weeklyBudget, totalCum, v);
      WalkVendorsPrefix(order[1..], cands, vendorBudget, weeklyBudget,
                        After(HeadWalk(order, cands, vendorBudget, weeklyBudget, totalCum), totalCum), v);
    }
  }

  /** The records of the vendors that sort before `v`. */
  function Earlier(recs: seq<Recommendation>, v: string): seq<Recommendation> {
    Seqs.Filter(recs, (r: Recommendation) => VendorOf(r).Some? && Text.LexLess(VendorOf(r).value, v))
  }

  lemma AfterAppend(a: seq<Recommendation>, b: seq<Recommendation>, start: real)
    ensures After(a + b, start) == After(b, After(a, start))
  {
    if |b| > 0 {
      assert (a + b)[|a + b| - 1] == b[|b| - 1];
    } else {
      assert a + b == a;
    }
  }

  /** The walk is the first vendor's pass followed by the walk over the others. */
  lemma WalkVendorsUnfold(order: seq<string>, cands: seq<Ledger.Candidate>, vendorBudget: real, weeklyBudget: real,
                          totalCum: real)
    requires |order| > 0 && Payable(cands) && Grouping.StrictlyAscending(order)
    ensures Grouping.StrictlyAscending(order[1..])
    ensures var block := HeadWalk(order, cands, vendorBudget, weeklyBudget, totalCum);
      && (forall i :: 0 <= i < |block| ==> VendorOf(block[i]) == Some(order[0]))
      && WalkVendors(order, cands, vendorBudget, weeklyBudget, totalCum)
         == block + WalkVendors(order[1..], cands, vendorBudget, weeklyBudget, After(block, totalCum))
  {
    Grouping.AscendingTail(order);
    PayableGroup(cands, order[0]);
    var group := WithVendor(cands, order[0]);
    var block := HeadWalk(order, cands, vendorBudget, weeklyBudget, totalCum);
    BlockFacts(order, cands, group, block);
  }

  /** No record of `v`'s pass or of a later vendor's is earlier than `v`. */
  lemma EarlierNone(v: string, block: seq<Recommendation>, rest: seq<Recommendation>)
    requires forall i :: 0 <= i < |block| ==> VendorOf(block[i]) == Some(v)
    requires AllAfter(v, rest)
    ensures Earlier(block + rest, v) == []
  {
    var recs := block + rest;
    forall i | 0 <= i < |recs|
      ensures !(VendorOf(recs[i]).Some? && Text.LexLess(VendorOf(recs[i]).value, v))
    {
      if i < |block| {
        assert recs[i] == block[i];
        Text.LexLessIrreflexive(v);
      } else {
        assert recs[i] == rest[i - |block|];
        Text.LexLessAsymmetric(v, VendorOf(recs[i]).value);
      }
    }
    Seqs.FilterNone(recs, (r: Recommendation) => VendorOf(r).Some? && Text.LexLess(VendorOf(r).value, v));
  }

  /** A pass of a vendor before `v` is wholly earlier than `v`. */
  lemma EarlierBlock(w: string, v: string, block: seq<Recommendation>, rest: seq<Recommendation>)
    requires Text.LexLess(w, v)
    requires forall i :: 0 <= i < |block| ==> VendorOf(block[i]) == Some(w)
    ensures Earlier(block + rest, v) == block + Earlier(rest, v)
  {
    var p := (r: Recommendation) => VendorOf(r).Some? && Text.LexLess(VendorOf(r).value, v);
    Seqs.FilterAppend(block, rest, p);
    Seqs.FilterAll(block, p);
  }

  /** The first vendor's records are its pass from the starting week total. */
  lemma HeadPass(order: seq<string>, cands: seq<Ledger.Candidate>, vendorBudget: real, weeklyBudget: real, totalCum: real)
    requires |order| > 0 && Payable(cands) && Grouping.StrictlyAscending(order)
    ensures Payable(WithVendor(cands, order[0]))
    ensures var recs := WalkVendors(order, cands, vendorBudget, weeklyBudget, totalCum);
      RecsOf(recs, order[0]) == WalkVendor(WithVendor(cands, order[0]), vendorBudget, weeklyBudget, 0.0, After(Earlier(recs, order[0]), totalCum))
  {
    PayableGroup(cands, order[0]);
    WalkVendorsUnfold(order, cands, vendorBudget, weeklyBudget, totalCum);
    var block := HeadWalk(order, cands, vendorBudget, weeklyBudget, totalCum);
    var rest := WalkVendors(order[1..], cands, vendorBudget, weeklyBudget, After(block, totalCum));
    HeadRecs(order, cands, vendorBudget, weeklyBudget, totalCum);
    RestAfter(order, rest);
    EarlierNone(order[0], block, rest);
  }

  /** For a later vendor, the week total before its pass is the same whether
      counted from the start of the walk or after the first vendor's pass. */
  lemma OtherStart(order: seq<string>, cands: seq<Ledger.Candidate>, vendorBudget: real, weeklyBudget: real,
                   totalCum: real, v: string)
    requires |order| > 0 && Payable(cands) && Grouping.StrictlyAscending(order) && v in order[1..]
    ensures Grouping.StrictlyAscending(order[1..])
    ensures var block := HeadWalk(order, cands, vendorBudget, weeklyBudget, totalCum);
      var rest := WalkVendors(order[1..], cands, vendorBudget, weeklyBudget, After(block, totalCum));
      After(Earlier(WalkVendors(order, cands, vendorBudget, weeklyBudget, totalCum), v), totalCum)
      == After(Earlier(rest, v), After(block, totalCum))
  {
    WalkVendorsUnfold(order, cands, vendorBudget, weeklyBudget, totalCum);
    var block := HeadWalk(order, cands, vendorBudget, weeklyBudget, totalCum);
    var rest := WalkVendors(order[1..], cands, vendorBudget, weeklyBudget, After(block, totalCum));
    var k :| 0 <= k < |order[1..]| && order[1..][k] == v;
    assert order[k + 1] == v;
    EarlierBlock(order[0], v, block, rest);
    AfterAppend(block, Earlier(rest, v), totalCum);
  }

  /** Each vendor's records in the walk are exactly the inner loop over that
      vendor's candidates, started from a zero vendor total and from the week
      total the earlier vendors left. */
  lemma {:induction false} WalkVendorsPass(order: seq<string>, cands: seq<Ledger.Candidate>,
                                           vendorBudget: real, weeklyBudget: real, totalCum: real, v: string)
    requires Payable(cands) && Grouping.StrictlyAscending(order) && v in order
    ensures Payable(WithVendor(cands, v))
    ensures var recs := WalkVendors(order, cands, vendorBudget, weeklyBudget, totalCum);
      RecsOf(recs, v) == WalkVendor(WithVendor(cands, v), vendorBudget, weeklyBudget, 0.0, After(Earlier(recs, v), totalCum))
    decreases |order|
  {
    PayableGroup(cands, v);
    if order[0] == v {
      HeadPass(order, cands, vendorBudget, weeklyBudget, totalCum);
    } else {
      assert v in order[1..] by {
        var k :| 0 <= k < |order| && order[k] == v;
        assert order[1..][k - 1] == v;
      }
      OtherStart(order, cands, vendorBudget, weeklyBudget, totalCum, v);
      OtherRecs(order, cands, vendorBudget, weeklyBudget, totalCum, v);
      WalkVendorsPass(order[1..], cands, vendorBudget, weeklyBudget,
                      After(HeadWalk(order, cands, vendorBudget, weeklyBudget, totalCum), totalCum), v);
    }
  }

  /** The vendors of the allocation: a vendor without candidates has no records. */
  lemma AbsentVendor(cands: seq<Ledger.Candidate>, vendorBudget: real, weeklyBudget: real, v: string)
    requires Payable(cands) && v !in VendorOrder(cands)
    ensures WithVendor(cands, v) == []
    ensures RecsOf(Allocate(cands, vendorBudget, weeklyBudget), v) == []
  {
    var keys := Seqs.Map(cands, (c: Ledger.Candidate) => c.bill.vendor);
    forall i | 0 <= i < |cands|
      ensures cands[i].bill.vendor != Some(v)
    {
      assert keys[i] == cands[i].bill.vendor;
    }
    Seqs.FilterNone(cands, (c: Ledger.Candidate) => c.bill.vendor == Some(v));
    var recs := Allocate(cands, vendorBudget, weeklyBudget);
    forall k | 0 <= k < |recs|
      ensures VendorOf(recs[k]) != Some(v)
    {
      assert recs[k].cand in cands;
    }
    RecsOfNone(recs, v);
  }

  /** Each vendor's records in the allocation are exactly the inner loop over
      that vendor's candidates, from the week total the earlier vendors left:
      so a vendor's pass stops only where the source's loop breaks. */
  lemma AllocatePass(cands: seq<Ledger.Candidate>, vendorBudget: real, weeklyBudget: real, v: string)
    requires Payable(cands)
    ensures Payable(WithVendor(cands, v))
    ensures var recs := Allocate(cands, vendorBudget, weeklyBudget);
      RecsOf(recs, v) == WalkVendor(WithVendor(cands, v), vendorBudget, weeklyBudget, 0.0, After(Earlier(recs, v), 0.0))
  {
    PayableGroup(cands, v);
    if v in VendorOrder(cands) {
      WalkVendorsPass(VendorOrder(cands), cands, vendorBudget, weeklyBudget, 0.0, v);
    } else {
      AbsentVendor(cands, vendorBudget, weeklyBudget, v);
    }
  }

  /** The per-vendor prefix property of the whole allocation. */
  lemma AllocatePrefix(cands: seq<Ledger.Candidate>, vendorBudget: real, weeklyBudget: real, v: string)
    requires Payable(cands)
    ensures Payable(WithVendor(cands, v))
    ensures PaidPrefix(RecsOf(Allocate(cands, vendorBudget, weeklyBudget), v), WithVendor(cands, v))
  {
    WalkVendorsPrefix(VendorOrder(cands), cands, vendorBudget, weeklyBudget, 0.0, v);
  }
}
