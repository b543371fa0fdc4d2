/** `filter_and_recommend` end to end (AP_Calc.py:75-186): the filtered,
    merged and sorted candidates, minus the documents already recommended,
    allocated under the period's budgets and summarised per vendor. */
module Recommend {
  import opened Wrappers
  import Seqs
  import Report
  import Ledger
  import Ordering
  import opened Allocation
  import Summary

  /** A budget row of the Config sheet with a vendor budget: its week ending
      (missing when the cell is empty) and the vendor budget. */
  datatype VendorBudgetRow = VendorBudgetRow(weekEnding: Option<int>, vendorBudget: real)

  /** What one call returns: the recommendations, and their summary when there are any. */
  datatype Output = Output(recs: seq<Recommendation>, summary: Option<seq<Summary.VendorSummary>>)

  /** The vendor budget of the first row whose week ending is `week`. */
  function VendorBudgetFor(rows: seq<VendorBudgetRow>, week: int): (r: Option<real>)
    ensures r.None? <==> forall i :: 0 <= i < |rows| ==> rows[i].weekEnding != Some(week)
    ensures r.Some? ==> exists i :: 0 <= i < |rows| && rows[i].weekEnding == Some(week) && rows[i].vendorBudget == r.value
                                    && forall k :: 0 <= k < i ==> rows[k].weekEnding != Some(week)
  {
    if |rows| == 0 then None
    else if rows[0].weekEnding == Some(week) then Some(rows[0].vendorBudget)
    else
      var r := VendorBudgetFor(rows[1..], week);
      assert r.Some? ==> exists i :: 0 <= i < |rows[1..]| && rows[1..][i].weekEnding == Some(week) && rows[1..][i].vendorBudget == r.value
                                    && forall k :: 0 <= k < i ==> rows[1..][k].weekEnding != Some(week);
      assert r.None? ==> forall i :: 0 <= i < |rows[1..]| ==> rows[1..][i].weekEnding != Some(week);
      assert r.None? ==> forall i :: 1 <= i < |rows| ==> rows[i] == rows[1..][i - 1];
      r
  }

  /** `~isin(already_recommended)`. */
  predicate NotYetRecommended(already: set<Option<string>>, c: Ledger.Candidate) {
    c.bill.docNum !in already
  }

  /** The candidates in allocation order. */
  function Candidates(p: Ledger.Parsers, ledger: seq<Report.RawRecord>, exclusions: seq<string>,
                      table: Ledger.VendorTable, already: set<Option<string>>): (cs: seq<Ledger.Candidate>)
    ensures Payable(cs)
  {
    var bills := Ledger.Filtered(p, ledger, exclusions);
    var sorted := Ordering.Sort(Ledger.Merge(table, bills));
    var cs := Seqs.Filter(sorted, (c: Ledger.Candidate) => NotYetRecommended(already, c));
    assert forall i :: 0 <= i < |cs| ==> cs[i].bill.amount.Some? by {
      forall i | 0 <= i < |cs|
        ensures cs[i].bill.amount.Some?
      {
        assert cs[i] in sorted;
        assert cs[i] in multiset(sorted);
        assert cs[i].bill in bills;
      }
    }
    cs
  }

  /** Every candidate comes from an eligible ledger row, is not already
      recommended, and carries its urgency flag. */
  lemma CandidateEligible(p: Ledger.Parsers, ledger: seq<Report.RawRecord>, exclusions: seq<string>,
                          table: Ledger.VendorTable, already: set<Option<string>>, c: Ledger.Candidate)
    requires c in Candidates(p, ledger, exclusions, table, already)
    ensures exists r :: r in ledger && Ledger.Eligible(p, exclusions, r) && c.bill == Ledger.Coerce(p, Ledger.NormalizeRecord(r))
    ensures c.bill.docNum !in already
    ensures c.urgent == Ledger.IsUrgent(c.bill)
  {
    var bills := Ledger.Filtered(p, ledger, exclusions);
    var sorted := Ordering.Sort(Ledger.Merge(table, bills));
    assert c in multiset(sorted);
    Ledger.FilteredMember(p, ledger, exclusions, c.bill);
  }

  /** Conversely, every eligible ledger row whose document is not already
      recommended reaches the candidates. */
  lemma EligibleBecomesCandidate(p: Ledger.Parsers, ledger: seq<Report.RawRecord>, exclusions: seq<string>,
                                 table: Ledger.VendorTable, already: set<Option<string>>, r: Report.RawRecord)
    requires r in ledger && Ledger.Eligible(p, exclusions, r)
    requires Ledger.Coerce(p, Ledger.NormalizeRecord(r)).docNum !in already
    ensures exists c :: c in Candidates(p, ledger, exclusions, table, already) && c.bill == Ledger.Coerce(p, Ledger.NormalizeRecord(r))
  {
    var b := Ledger.Coerce(p, Ledger.NormalizeRecord(r));
    var bills := Ledger.Filtered(p, ledger, exclusions);
    Ledger.FilteredMember(p, ledger, exclusions, b);
    Ledger.MergeCovers(table, bills, b);
    var merged := Ledger.Merge(table, bills);
    var c :| c in merged && c.bill == b;
    var sorted := Ordering.Sort(merged);
    assert c in multiset(merged);
    assert c in sorted;
    assert NotYetRecommended(already, c);
    assert c in Candidates(p, ledger, exclusions, table, already);
  }

  /** A ledger row becomes a candidate exactly when it is eligible and its
      document is not already recommended. */
  lemma CandidateIff(p: Ledger.Parsers, ledger: seq<Report.RawRecord>, exclusions: seq<string>,
                     table: Ledger.VendorTable, already: set<Option<string>>, b: Ledger.Bill)
    ensures (exists c :: c in Candidates(p, ledger, exclusions, table, already) && c.bill == b) <==>
              (exists r :: r in ledger && Ledger.Eligible(p, exclusions, r) && b == Ledger.Coerce(p, Ledger.NormalizeRecord(r))
                           && b.docNum !in already)
  {
    if exists c :: c in Candidates(p, ledger, exclusions, table, already) && c.bill == b {
      var c :| c in Candidates(p, ledger, exclusions, table, already) && c.bill == b;
      CandidateEligible(p, ledger, exclusions, table, already, c);
    }
    if exists r :: r in ledger && Ledger.Eligible(p, exclusions, r) && b == Ledger.Coerce(p, Ledger.NormalizeRecord(r))
                   && b.docNum !in already {
      var r :| r in ledger && Ledger.Eligible(p, exclusions, r) && b == Ledger.Coerce(p, Ledger.NormalizeRecord(r))
               && b.docNum !in already;
      EligibleBecomesCandidate(p, ledger, exclusions, table, already, r);
    }
  }

  /** Dropping candidates keeps the rest in sort order. */
  lemma {:induction false} FilterSorted(s: seq<Ledger.Candidate>, already: set<Option<string>>)
    requires Ordering.Sorted(s)
    ensures Ordering.Sorted(Seqs.Filter(s, (c: Ledger.Candidate) => NotYetRecommended(already, c)))
  {
    if |s| > 0 {
      var rest := Seqs.Filter(s[1..], (c: Ledger.Candidate) => NotYetRecommended(already, c));
      assert Ordering.Sorted(s[1..]) by {
        forall i, j | 0 <= i < j < |s[1..]|
          ensures !Ordering.Before(Ordering.KeyOf(s[1..][j]), Ordering.KeyOf(s[1..][i]))
        {
          assert s[1..][i] == s[i + 1] && s[1..][j] == s[j + 1];
        }
      }
      FilterSorted(s[1..], already);
      if NotYetRecommended(already, s[0]) {
        forall y | y in rest
          ensures !Ordering.Before(Ordering.KeyOf(y), Ordering.KeyOf(s[0]))
        {
          var j :| 0 <= j < |s[1..]| && s[1..][j] == y;
          assert s[j + 1] == y;
        }
        Ordering.SortedCons(s[0], rest);
      }
    }
  }

  /** The candidates are in the order of the three sort columns. */
  lemma CandidatesSorted(p: Ledger.Parsers, ledger: seq<Report.RawRecord>, exclusions: seq<string>,
                         table: Ledger.VendorTable, already: set<Option<string>>)
    ensures Ordering.Sorted(Candidates(p, ledger, exclusions, table, already))
  {
    var sorted := Ordering.Sort(Ledger.Merge(table, Ledger.Filtered(p, ledger, exclusions)));
    FilterSorted(sorted, already);
  }

  /** The whole call. With no vendor budget for the week the result is empty;
      otherwise the candidates are allocated greedily under the week's vendor
      budget and weekly budget, and the output carries the per-vendor summary
      of the allocation (none when it is empty). */
  function FilterAndRecommend(p: Ledger.Parsers, ledger: seq<Report.RawRecord>, weeklyBudget: real,
                              exclusions: seq<string>, table: Ledger.VendorTable, week: int,
                              already: set<Option<string>>, budgets: seq<VendorBudgetRow>): (out: Output)
    ensures VendorBudgetFor(budgets, week).None? ==> out == Output([], None)
    ensures out.summary.None? <==> out.recs == []
    ensures forall i :: 0 <= i < |out.recs| ==> out.recs[i].cand in Candidates(p, ledger, exclusions, table, already)
    ensures PaymentsValid(out.recs)
    ensures RunningTotal(out.recs, 0.0) && VendorRunning(out.recs) && VendorsInOrder(out.recs)
    ensures StopsAtBudget(out.recs, weeklyBudget)
    ensures VendorBudgetFor(budgets, week).Some? ==>
              WithinBudgets(out.recs, VendorBudgetFor(budgets, week).value, weeklyBudget)
    ensures VendorBudgetFor(budgets, week).Some? ==>
              out.recs == Allocate(Candidates(p, ledger, exclusions, table, already),
                                   VendorBudgetFor(budgets, week).value, weeklyBudget)
    ensures VendorBudgetFor(budgets, week).Some? ==>
              GreedyPays(out.recs, VendorBudgetFor(budgets, week).value, weeklyBudget, 0.0)
    ensures out.summary == Summary.Summarize(out.recs)
  {
    match VendorBudgetFor(budgets, week)
    case None => Output([], None)
    case Some(vendorBudget) =>
      var recs := Allocate(Candidates(p, ledger, exclusions, table, already), vendorBudget, weeklyBudget);
      Output(recs, Summary.Summarize(recs))
  }

  /** No recommendation pays a document listed in `already`, and every one
      pays a bill from an eligible ledger row. */
  lemma RecommendedEligible(p: Ledger.Parsers, ledger: seq<Report.RawRecord>, weeklyBudget: real,
                            exclusions: seq<string>, table: Ledger.VendorTable, week: int,
                            already: set<Option<string>>, budgets: seq<VendorBudgetRow>)
    ensures var out := FilterAndRecommend(p, ledger, weeklyBudget, exclusions, table, week, already, budgets);
            forall i :: 0 <= i < |out.recs| ==>
              && out.recs[i].cand.bill.docNum !in already
              && exists r :: r in ledger && Ledger.Eligible(p, exclusions, r)
                             && out.recs[i].cand.bill == Ledger.Coerce(p, Ledger.NormalizeRecord(r))
  {
    var out := FilterAndRecommend(p, ledger, weeklyBudget, exclusions, table, week, already, budgets);
    DrawnEligible(p, ledger, exclusions, table, already, out.recs);
  }

  lemma DrawnEligible(p: Ledger.Parsers, ledger: seq<Report.RawRecord>, exclusions: seq<string>,
                      table: Ledger.VendorTable, already: set<Option<string>>, recs: seq<Recommendation>)
    requires forall i :: 0 <= i < |recs| ==> recs[i].cand in Candidates(p, ledger, exclusions, table, already)
    ensures forall i :: 0 <= i < |recs| ==>
              && recs[i].cand.bill.docNum !in already
              && exists r :: r in ledger && Ledger.Eligible(p, exclusions, r)
                             && recs[i].cand.bill == Ledger.Coerce(p, Ledger.NormalizeRecord(r))
  {
    forall i | 0 <= i < |recs|
      ensures recs[i].cand.bill.docNum !in already
      ensures exists r :: r in ledger && Ledger.Eligible(p, exclusions, r)
                          && recs[i].cand.bill == Ledger.Coerce(p, Ledger.NormalizeRecord(r))
    {
      CandidateEligible(p, ledger, exclusions, table, already, recs[i].cand);
    }
  }

  /** Calling again on the ledger and vendor table as the previous call left
      them, with their vendor names normalised in place, gives the same result. */
  lemma RenormalizingChangesNothing(p: Ledger.Parsers, ledger: seq<Report.RawRecord>, weeklyBudget: real,
                                    exclusions: seq<string>, table: Ledger.VendorTable, week: int,
                                    already: set<Option<string>>, budgets: seq<VendorBudgetRow>)
    ensures FilterAndRecommend(p, Ledger.Normalized(ledger), weeklyBudget, exclusions, Ledger.NormalizeTable(table), week, already, budgets)
         == FilterAndRecommend(p, ledger, weeklyBudget, exclusions, table, week, already, budgets)
  {
    Ledger.FilteredNormalized(p, ledger, exclusions);
    Ledger.MergeNormalized(table, Ledger.Filtered(p, ledger, exclusions));
  }

  // ---- A worked example ----

  /** An urgent Acme bill (50 days past due) with no priority column in the vendor table. */
  function AcmeCandidate(doc: string, amount: real, due: int): Ledger.Candidate {
    Ledger.Candidate(
      Ledger.Bill("45+", Some(19730), Some("Bill"), Some(doc), Some("acme"), Some(due), Some(50.0), Some(amount), None),
      true, Some(0.0))
  }

  /** Exactly one vendor name is present. */
  lemma OneVendorOrder(cands: seq<Ledger.Candidate>, v: string)
    requires |cands| > 0 && forall i :: 0 <= i < |cands| ==> cands[i].bill.vendor == Some(v)
    ensures VendorOrder(cands) == [v]
  {
    var r := VendorOrder(cands);
    var keys := Seqs.Map(cands, (c: Ledger.Candidate) => c.bill.vendor);
    assert keys[0] == Some(v);
    assert v in r;
    forall w | w in r
      ensures w == v
    {
      var i :| 0 <= i < |keys| && keys[i] == Some(w);
    }
    if |r| > 1 {
      assert r[0] in r && r[1] in r;
      Text.LexLessIrreflexive(v);
    }
  }

  /** With a single vendor, the allocation is that vendor's pass. */
  lemma OneVendorAllocate(cands: seq<Ledger.Candidate>, v: string, vendorBudget: real, weeklyBudget: real)
    requires |cands| > 0 && Payable(cands)
    requires forall i :: 0 <= i < |cands| ==> cands[i].bill.vendor == Some(v)
    ensures Allocate(cands, vendorBudget, weeklyBudget) == WalkVendor(cands, vendorBudget, weeklyBudget, 0.0, 0.0)
  {
    OneVendorOrder(cands, v);
    Seqs.FilterAll(cands, (c: Ledger.Candidate) => c.bill.vendor == Some(v));
    assert WithVendor(cands, v) == cands;
    var block := WalkVendor(cands, vendorBudget, weeklyBudget, 0.0, 0.0);
    assert [v][1..] == [];
    assert WalkVendors([v], cands, vendorBudget, weeklyBudget, 0.0)
        == block + WalkVendors([], cands, vendorBudget, weeklyBudget, After(block, 0.0));
    assert block + [] == block;
  }

  /** The bill due first sorts first. */
  lemma AcmeSorted(early: Ledger.Candidate, late: Ledger.Candidate)
    requires early == AcmeCandidate("D2", 200.0, 19737) && late == AcmeCandidate("D1", 100.0, 19754)
    ensures Ordering.Sort([late, early]) == [early, late]
  {
    assert [late, early][1..] == [early];
    assert Ordering.Sort([early]) == [early];
    assert Ordering.Before(Ordering.KeyOf(early), Ordering.KeyOf(late));
    assert Ordering.Insert(late, [early]) == [early] + Ordering.Insert(late, []);
  }

  /** Acme's pass: 200 in full, then the 50 left of both budgets. */
  lemma AcmeWalk(early: Ledger.Candidate, late: Ledger.Candidate)
    requires early == AcmeCandidate("D2", 200.0, 19737) && late == AcmeCandidate("D1", 100.0, 19754)
    ensures WalkVendor([early, late], 250.0, 250.0, 0.0, 0.0)
         == [Recommendation(early, 200.0, 200.0, 200.0), Recommendation(late, 50.0, 250.0, 250.0)]
  {
    assert [early, late][1..] == [late];
    assert Min3(100.0, 50.0, 50.0) == 50.0;
    assert WalkVendor([late], 250.0, 250.0, 200.0, 200.0) == [Recommendation(late, 50.0, 250.0, 250.0)];
    assert Min3(200.0, 250.0, 250.0) == 200.0;
  }

  /** Two urgent Acme bills of 200 (due 2024-01-15) and 100 (due 2024-02-01),
      a weekly and a vendor budget of 250: the earlier-due bill sorts first and
      is paid in full, the other gets the 50 left, and both totals end at 250. */
  lemma AcmeExample()
    ensures var early := AcmeCandidate("D2", 200.0, 19737);
            var late := AcmeCandidate("D1", 100.0, 19754);
      && Ordering.Sort([late, early]) == [early, late]
      && Allocate([early, late], 250.0, 250.0)
         == [Recommendation(early, 200.0, 200.0, 200.0), Recommendation(late, 50.0, 250.0, 250.0)]
  {
    var early := AcmeCandidate("D2", 200.0, 19737);
    var late := AcmeCandidate("D1", 100.0, 19754);
    var cands := [early, late];
    AcmeSorted(early, late);
    OneVendorAllocate(cands, "acme", 250.0, 250.0);
    AcmeWalk(early, late);
  }
}
