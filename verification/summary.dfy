/** The per-vendor summary of a period's recommendations: one entry per vendor
    in ascending name order, with the document numbers joined by ", " and the
    payments summed (AP_Calc.py:174-186). */
module Summary {
  import opened Wrappers
  import Seqs
  import Text
  import Grouping
  import opened Allocation
  import opened Totals

  datatype VendorSummary = VendorSummary(vendor: string, docNums: string, total: real)

  /** `astype(str)` of a document number: a missing one prints as "None". */
  function DocText(r: Recommendation): string {
    match r.cand.bill.docNum
    case None => "None"
    case Some(d) => d
  }

  function Entry(recs: seq<Recommendation>, v: string): VendorSummary {
    var mine := RecsOf(recs, v);
    VendorSummary(v, Text.Join(Seqs.Map(mine, DocText), ", "), Paid(mine))
  }

  function Vendors(es: seq<VendorSummary>): (names: seq<string>)
    ensures |names| == |es| && forall i :: 0 <= i < |es| ==> names[i] == es[i].vendor
  {
    seq(|es|, i requires 0 <= i < |es| => es[i].vendor)
  }

  /** The vendors that appear in `recs`, each once, in ascending order. */
  function VendorKeys(recs: seq<Recommendation>): seq<string> {
    Grouping.SortedDistinct(Seqs.Map(recs, VendorOf))
  }

  /** `None` for an empty recommendation list, otherwise one entry per vendor. */
  function Summarize(recs: seq<Recommendation>): (r: Option<seq<VendorSummary>>)
    ensures r.None? <==> recs == []
    ensures r.Some? ==> Grouping.StrictlyAscending(Vendors(r.value))
    ensures r.Some? ==> forall v :: v in Vendors(r.value) <==> exists k :: 0 <= k < |recs| && VendorOf(recs[k]) == Some(v)
  {
    if |recs| == 0 then None
    else
      var keys := VendorKeys(recs);
      var es := seq(|keys|, i requires 0 <= i < |keys| => Entry(recs, keys[i]));
      assert Vendors(es) == keys;
      assert forall v :: v in keys <==> exists k :: 0 <= k < |recs| && VendorOf(recs[k]) == Some(v) by {
        forall v
          ensures v in keys <==> exists k :: 0 <= k < |recs| && VendorOf(recs[k]) == Some(v)
        {
          Seqs.MapMember(recs, VendorOf, Some(v));
        }
      }
      Some(es)
  }

  /** The sum of the entries' totals. */
  function Total(es: seq<VendorSummary>): real {
    if |es| == 0 then 0.0 else es[0].total + Total(es[1..])
  }

  /** The sum over the vendors `vs` of what each was paid in `recs`. */
  function PaidBy(recs: seq<Recommendation>, vs: seq<string>): real {
    if |vs| == 0 then 0.0 else Paid(RecsOf(recs, vs[0])) + PaidBy(recs, vs[1..])
  }

  lemma {:induction false} PaidByEmpty(vs: seq<string>)
    ensures PaidBy([], vs) == 0.0
  {
    if |vs| > 0 {
      PaidByEmpty(vs[1..]);
    }
  }

  lemma {:induction false} PaidBySnoc(recs: seq<Recommendation>, r: Recommendation, vs: seq<string>)
    requires Grouping.StrictlyAscending(vs)
    requires VendorOf(r).Some? && VendorOf(r).value in vs
    ensures PaidBy(recs + [r], vs) == PaidBy(recs, vs) + r.payment
  {
    var v := vs[0];
    RecsOfSnoc(recs, r, v);
    if VendorOf(r) == Some(v) {
      PaidSnoc(RecsOf(recs, v), r);
      forall j | 1 <= j < |vs|
        ensures vs[j] != v
      {
        Text.LexLessIrreflexive(v);
      }
      assert v !in vs[1..];
      PaidByUntouched(recs, r, vs[1..]);
    } else {
      assert VendorOf(r).value in vs[1..];
      PaidBySnoc(recs, r, vs[1..]);
    }
  }

  /** A record whose vendor is not among `vs` changes none of their sums. */
  lemma {:induction false} PaidByUntouched(recs: seq<Recommendation>, r: Recommendation, vs: seq<string>)
    requires VendorOf(r).Some? && VendorOf(r).value !in vs
    ensures PaidBy(recs + [r], vs) == PaidBy(recs, vs)
  {
    if |vs| > 0 {
      RecsOfSnoc(recs, r, vs[0]);
      PaidByUntouched(recs, r, vs[1..]);
    }
  }

  /** Summing per vendor over every vendor present gives the period total. */
  lemma {:induction false} PaidByAll(recs: seq<Recommendation>, vs: seq<string>)
    requires Grouping.StrictlyAscending(vs)
    requires forall k :: 0 <= k < |recs| ==> VendorOf(recs[k]).Some? && VendorOf(recs[k]).value in vs
    ensures PaidBy(recs, vs) == Paid(recs)
    decreases |recs|
  {
    if |recs| == 0 {
      PaidByEmpty(vs);
    } else {
      var init := recs[..|recs| - 1];
      var r := recs[|recs| - 1];
      assert recs == init + [r];
      PaidByAll(init, vs);
      PaidBySnoc(init, r, vs);
    }
  }

  lemma {:induction false} TotalIsPaidBy(recs: seq<Recommendation>, vs: seq<string>, es: seq<VendorSummary>)
    requires |es| == |vs| && forall i :: 0 <= i < |vs| ==> es[i] == Entry(recs, vs[i])
    ensures Total(es) == PaidBy(recs, vs)
  {
    if |vs| > 0 {
      TotalIsPaidBy(recs, vs[1..], es[1..]);
    }
  }

  /** The entries of a non-empty summary, one per vendor key, in key order. */
  lemma SummarizeShape(recs: seq<Recommendation>)
    requires recs != []
    ensures |Summarize(recs).value| == |VendorKeys(recs)|
    ensures forall i :: 0 <= i < |VendorKeys(recs)| ==> Summarize(recs).value[i] == Entry(recs, VendorKeys(recs)[i])
  {
  }

  /** Every vendor named by a record is one of the summary's keys. */
  lemma KeysCover(recs: seq<Recommendation>)
    requires forall k :: 0 <= k < |recs| ==> VendorOf(recs[k]).Some?
    ensures forall k :: 0 <= k < |recs| ==> VendorOf(recs[k]).Some? && VendorOf(recs[k]).value in VendorKeys(recs)
  {
    forall k | 0 <= k < |recs|
      ensures VendorOf(recs[k]).value in VendorKeys(recs)
    {
      Seqs.MapMember(recs, VendorOf, VendorOf(recs[k]));
    }
  }

  lemma ConservesOver(recs: seq<Recommendation>, keys: seq<string>, es: seq<VendorSummary>)
    requires Grouping.StrictlyAscending(keys)
    requires forall k :: 0 <= k < |recs| ==> VendorOf(recs[k]).Some? && VendorOf(recs[k]).value in keys
    requires |es| == |keys| && forall i :: 0 <= i < |keys| ==> es[i] == Entry(recs, keys[i])
    ensures Total(es) == Paid(recs)
  {
    TotalIsPaidBy(recs, keys, es);
    PaidByAll(recs, keys);
  }

  /** The summary neither loses nor invents money: its totals add up to the sum
      of the payments, when every record names a vendor. */
  lemma SummaryConserves(recs: seq<Recommendation>)
    requires recs != []
    requires forall k :: 0 <= k < |recs| ==> VendorOf(recs[k]).Some?
    ensures Total(Summarize(recs).value) == Paid(recs)
  {
    SummarizeShape(recs);
    KeysCover(recs);
    ConservesOver(recs, VendorKeys(recs), Summarize(recs).value);
  }

  /** Every entry lists its vendor's payments and their sum. */
  lemma SummaryEntries(recs: seq<Recommendation>)
    requires recs != []
    ensures forall e :: e in Summarize(recs).value ==>
      && e.total == Paid(RecsOf(recs, e.vendor))
      && e.docNums == Text.Join(Seqs.Map(RecsOf(recs, e.vendor), DocText), ", ")
      && RecsOf(recs, e.vendor) != []
  {
    var es := Summarize(recs).value;
    forall e | e in es
      ensures RecsOf(recs, e.vendor) != []
    {
      assert e.vendor in Vendors(es);
      var k :| 0 <= k < |recs| && VendorOf(recs[k]) == Some(e.vendor);
      assert recs[k] in RecsOf(recs, e.vendor);
    }
  }

  /** For an allocation, no vendor's summary total exceeds the vendor budget. */
  lemma SummaryWithinVendorBudget(recs: seq<Recommendation>, vendorBudget: real, weeklyBudget: real)
    requires recs != []
    requires VendorRunning(recs) && VendorsInOrder(recs)
    requires WithinBudgets(recs, vendorBudget, weeklyBudget)
    ensures forall e :: e in Summarize(recs).value ==> e.total <= vendorBudget
  {
    SummaryEntries(recs);
    forall e | e in Summarize(recs).value
      ensures e.total <= vendorBudget
    {
      VendorPaidWithinBudget(recs, vendorBudget, weeklyBudget, e.vendor);
    }
  }
}
