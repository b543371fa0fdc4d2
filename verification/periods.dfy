/** The per-period loop of main.py (main.py:77-100): the budget periods are
    processed in sheet order, each through `filter_and_recommend`, with the
    document numbers recommended so far carried from one period to the next;
    every non-empty period's rows are tagged with its week ending and
    appended to the output. */
module Periods {
  import opened Wrappers
  import Seqs
  import Report
  import Ledger
  import opened Allocation
  import Recommend
  import Config

  /** What stays fixed across the periods: the ledger, the parsers, the
      exclusion list, the vendor table and the vendor-budget rows. */
  datatype Setting = Setting(
    p: Ledger.Parsers,
    ledger: seq<Report.RawRecord>,
    exclusions: seq<string>,
    table: Ledger.VendorTable,
    budgets: seq<Recommend.VendorBudgetRow>)

  /** An output row: a recommendation tagged with its period's week ending. */
  datatype OutputRow = OutputRow(rec: Recommendation, weekEnding: int)

  /** The loop state: the document numbers recommended so far, and one batch
      of output rows per period that recommended something. */
  datatype RunState = RunState(already: set<Option<string>>, batches: seq<seq<OutputRow>>)

  function DocOf(row: OutputRow): Option<string> {
    row.rec.cand.bill.docNum
  }

  function DocNums(recs: seq<Recommendation>): (ds: set<Option<string>>)
    ensures forall i :: 0 <= i < |recs| ==> recs[i].cand.bill.docNum in ds
    ensures forall d :: d in ds ==> exists i :: 0 <= i < |recs| && recs[i].cand.bill.docNum == d
  {
    set i | 0 <= i < |recs| :: recs[i].cand.bill.docNum
  }

  /** `recommended["Week Ending"] = week_ending`. */
  function Tag(recs: seq<Recommendation>, week: int): (rows: seq<OutputRow>)
    ensures |rows| == |recs|
    ensures forall i :: 0 <= i < |rows| ==> rows[i].rec == recs[i] && rows[i].weekEnding == week
  {
    seq(|recs|, i requires 0 <= i < |recs| => OutputRow(recs[i], week))
  }

  /** The recommendations of one period, given the documents already recommended. */
  function PeriodRecs(s: Setting, already: set<Option<string>>, weeklyBudget: real, week: int): seq<Recommendation> {
    Recommend.FilterAndRecommend(s.p, s.ledger, weeklyBudget, s.exclusions, s.table, week, already, s.budgets).recs
  }

  /** One turn of the loop: a period without a week ending or a weekly
      budget, or one that recommends nothing, leaves the state as it is;
      otherwise its documents join `already` and its tagged rows become the
      next batch. */
  function Step(s: Setting, st: RunState, period: Config.Period): (next: RunState)
    ensures period.weekEnding.None? || period.weeklyBudget.None? ==> next == st
    ensures st.already <= next.already
    ensures period.weekEnding.Some? && period.weeklyBudget.Some? ==>
              var recs := PeriodRecs(s, st.already, period.weeklyBudget.value, period.weekEnding.value);
              && (recs == [] ==> next == st)
              && (recs != [] ==> next == RunState(st.already + DocNums(recs), st.batches + [Tag(recs, period.weekEnding.value)]))
  {
    if period.weekEnding.None? || period.weeklyBudget.None? then st
    else
      var week := period.weekEnding.value;
      var recs := PeriodRecs(s, st.already, period.weeklyBudget.value, week);
      if recs == [] then st
      else RunState(st.already + DocNums(recs), st.batches + [Tag(recs, week)])
  }

  /** The loop over the periods in order; each period adds at most one batch. */
  function Run(s: Setting, periods: seq<Config.Period>, st: RunState): (end: RunState)
    ensures |st.batches| <= |end.batches| <= |st.batches| + |periods|
    decreases |periods|
  {
    if |periods| == 0 then st else Run(s, periods[1..], Step(s, st, periods[0]))
  }

  /** `pd.concat` of the batches in processing order. */
  function Output(st: RunState): seq<OutputRow> {
    Seqs.Flatten(st.batches)
  }

  /** The loop invariant: every batch is non-empty and carries one week
      ending, its documents are all in `already`, and no document appears in
      two batches. */
  ghost predicate Valid(st: RunState) {
    && (forall b :: 0 <= b < |st.batches| ==> st.batches[b] != [])
    && (forall b, i :: 0 <= b < |st.batches| && 0 <= i < |st.batches[b]| ==>
          st.batches[b][i].weekEnding == st.batches[b][0].weekEnding)
    && (forall b, i :: 0 <= b < |st.batches| && 0 <= i < |st.batches[b]| ==> DocOf(st.batches[b][i]) in st.already)
    && (forall b1, b2, i, j :: 0 <= b1 < b2 < |st.batches| && 0 <= i < |st.batches[b1]| && 0 <= j < |st.batches[b2]| ==>
          DocOf(st.batches[b1][i]) != DocOf(st.batches[b2][j]))
  }

  /** A period's recommendations never repeat a document already recommended. */
  lemma PeriodRecsFresh(s: Setting, already: set<Option<string>>, weeklyBudget: real, week: int)
    ensures forall i :: 0 <= i < |PeriodRecs(s, already, weeklyBudget, week)| ==>
              PeriodRecs(s, already, weeklyBudget, week)[i].cand.bill.docNum !in already
  {
    Recommend.RecommendedEligible(s.p, s.ledger, weeklyBudget, s.exclusions, s.table, week, already, s.budgets);
  }

  /** Adding a non-empty single-week batch of fresh documents keeps the invariant. */
  lemma AddBatchValid(st: RunState, batch: seq<OutputRow>, docs: set<Option<string>>)
    requires Valid(st)
    requires batch != [] && forall i :: 0 <= i < |batch| ==> batch[i].weekEnding == batch[0].weekEnding
    requires forall i :: 0 <= i < |batch| ==> DocOf(batch[i]) !in st.already && DocOf(batch[i]) in docs
    ensures Valid(RunState(st.already + docs, st.batches + [batch]))
  {
    var next := RunState(st.already + docs, st.batches + [batch]);
    var n := |st.batches|;
    assert forall b :: 0 <= b < n ==> next.batches[b] == st.batches[b];
    assert next.batches[n] == batch;
    forall b1, b2, i, j | 0 <= b1 < b2 < |next.batches| && 0 <= i < |next.batches[b1]| && 0 <= j < |next.batches[b2]|
      ensures DocOf(next.batches[b1][i]) != DocOf(next.batches[b2][j])
    {
      if b2 == n {
        assert DocOf(st.batches[b1][i]) in st.already;
      }
    }
  }

  /** A period's non-empty batch of fresh recommendations keeps the invariant. */
  lemma FreshBatchValid(st: RunState, recs: seq<Recommendation>, week: int)
    requires Valid(st) && recs != []
    requires forall i :: 0 <= i < |recs| ==> recs[i].cand.bill.docNum !in st.already
    ensures Valid(RunState(st.already + DocNums(recs), st.batches + [Tag(recs, week)]))
  {
    AddBatchValid(st, Tag(recs, week), DocNums(recs));
  }

  lemma StepValid(s: Setting, st: RunState, period: Config.Period)
    requires Valid(st)
    ensures Valid(Step(s, st, period))
  {
    if Step(s, st, period) != st {
      var week := period.weekEnding.value;
      var recs := PeriodRecs(s, st.already, period.weeklyBudget.value, week);
      PeriodRecsFresh(s, st.already, period.weeklyBudget.value, week);
      FreshBatchValid(st, recs, week);
    }
  }

  /** The invariant holds after any number of periods. */
  lemma {:induction false} RunValid(s: Setting, periods: seq<Config.Period>, st: RunState)
    requires Valid(st)
    ensures Valid(Run(s, periods, st))
    decreases |periods|
  {
    if |periods| > 0 {
      StepValid(s, st, periods[0]);
      RunValid(s, periods[1..], Step(s, st, periods[0]));
    }
  }

  /** Running over two lists of periods is running over the first, then the second. */
  lemma {:induction false} RunAppend(s: Setting, p1: seq<Config.Period>, p2: seq<Config.Period>, st: RunState)
    ensures Run(s, p1 + p2, st) == Run(s, p2, Run(s, p1, st))
    decreases |p1|
  {
    if |p1| > 0 {
      assert (p1 + p2)[0] == p1[0];
      assert (p1 + p2)[1..] == p1[1..] + p2;
      RunAppend(s, p1[1..], p2, Step(s, st, p1[0]));
    } else {
      assert p1 + p2 == p2;
    }
  }

  /** `next` keeps everything `st` has: its documents and, as a prefix, its batches. */
  predicate Extends(st: RunState, next: RunState) {
    st.already <= next.already && |st.batches| <= |next.batches| && next.batches[..|st.batches|] == st.batches
  }

  lemma StepExtends(s: Setting, st: RunState, period: Config.Period)
    ensures Extends(st, Step(s, st, period))
  {
    var next := Step(s, st, period);
    if next != st {
      assert next.batches[..|st.batches|] == st.batches;
    }
  }

  lemma ExtendsTrans(a: RunState, b: RunState, c: RunState)
    requires Extends(a, b) && Extends(b, c)
    ensures Extends(a, c)
  {
    assert c.batches[..|b.batches|][..|a.batches|] == c.batches[..|a.batches|];
  }

  /** The loop only ever adds: earlier batches and documents are kept. */
  lemma {:induction false} RunExtends(s: Setting, periods: seq<Config.Period>, st: RunState)
    ensures var end := Run(s, periods, st);
            st.already <= end.already && |st.batches| <= |end.batches| && end.batches[..|st.batches|] == st.batches
    decreases |periods|
  {
    if |periods| > 0 {
      var next := Step(s, st, periods[0]);
      StepExtends(s, st, periods[0]);
      RunExtends(s, periods[1..], next);
      ExtendsTrans(st, next, Run(s, periods[1..], next));
    }
  }

  /** Every output row of `st` carries one of the week endings `weeks`. */
  ghost predicate WeeksIn(st: RunState, weeks: set<Option<int>>) {
    forall b, i :: 0 <= b < |st.batches| && 0 <= i < |st.batches[b]| ==> Some(st.batches[b][i].weekEnding) in weeks
  }

  lemma StepWeeks(s: Setting, st: RunState, period: Config.Period, weeks: set<Option<int>>)
    requires WeeksIn(st, weeks) && period.weekEnding in weeks
    ensures WeeksIn(Step(s, st, period), weeks)
  {
    var next := Step(s, st, period);
    if next != st {
      var week := period.weekEnding.value;
      var recs := PeriodRecs(s, st.already, period.weeklyBudget.value, week);
      AddBatchWeeks(st, Tag(recs, week), DocNums(recs), week, weeks);
    }
  }

  lemma AddBatchWeeks(st: RunState, batch: seq<OutputRow>, docs: set<Option<string>>, week: int, weeks: set<Option<int>>)
    requires WeeksIn(st, weeks) && Some(week) in weeks
    requires forall i :: 0 <= i < |batch| ==> batch[i].weekEnding == week
    ensures WeeksIn(RunState(st.already + docs, st.batches + [batch]), weeks)
  {
    var next := RunState(st.already + docs, st.batches + [batch]);
    assert forall b :: 0 <= b < |st.batches| ==> next.batches[b] == st.batches[b];
    assert next.batches[|st.batches|] == batch;
  }

  /** Every output row carries the week ending of a period that was run. */
  lemma {:induction false} RunWeeks(s: Setting, periods: seq<Config.Period>, st: RunState, weeks: set<Option<int>>)
    requires WeeksIn(st, weeks)
    requires forall k :: 0 <= k < |periods| ==> periods[k].weekEnding in weeks
    ensures WeeksIn(Run(s, periods, st), weeks)
    decreases |periods|
  {
    if |periods| > 0 {
      StepWeeks(s, st, periods[0], weeks);
      RunWeeks(s, periods[1..], Step(s, st, periods[0]), weeks);
    }
  }

  /** Rows of different week endings never share a document number. */
  predicate FreshAcrossWeeks(rows: seq<OutputRow>) {
    forall i, j :: 0 <= i < |rows| && 0 <= j < |rows| && rows[i].weekEnding != rows[j].weekEnding ==>
      DocOf(rows[i]) != DocOf(rows[j])
  }

  /** Under the loop invariant, the concatenated output repeats no document
      across week endings. */
  lemma OutputFresh(st: RunState)
    requires Valid(st)
    ensures FreshAcrossWeeks(Output(st))
  {
    var rows := Output(st);
    forall i, j | 0 <= i < |rows| && 0 <= j < |rows| && rows[i].weekEnding != rows[j].weekEnding
      ensures DocOf(rows[i]) != DocOf(rows[j])
    {
      Seqs.FlattenMember(st.batches, i);
      Seqs.FlattenMember(st.batches, j);
      var b1, k1 :| 0 <= b1 < |st.batches| && 0 <= k1 < |st.batches[b1]| && rows[i] == st.batches[b1][k1];
      var b2, k2 :| 0 <= b2 < |st.batches| && 0 <= k2 < |st.batches[b2]| && rows[j] == st.batches[b2][k2];
      assert b1 != b2 by {
        assert st.batches[b1][k1].weekEnding == st.batches[b1][0].weekEnding;
        assert st.batches[b2][k2].weekEnding == st.batches[b2][0].weekEnding;
      }
    }
  }

  /** Every row of the concatenated output carries one of the week endings `weeks`. */
  lemma OutputWeeks(st: RunState, weeks: set<Option<int>>)
    requires WeeksIn(st, weeks)
    ensures forall i :: 0 <= i < |Output(st)| ==> Some(Output(st)[i].weekEnding) in weeks
  {
    forall i | 0 <= i < |Output(st)|
      ensures Some(Output(st)[i].weekEnding) in weeks
    {
      Seqs.FlattenMember(st.batches, i);
    }
  }

  /** The configured start: nothing recommended yet, no output. */
  function Start(): RunState {
    RunState({}, [])
  }

  /** main.py with the files already read: check the workbook's sheets, select
      the exclusions, periods and vendor budgets from the Config sheet, and run
      the periods; a missing sheet is reported instead. */
  function Process(sheets: set<string>, configRows: seq<Config.ConfigRow>, table: Ledger.VendorTable,
                   p: Ledger.Parsers, ledger: seq<Report.RawRecord>): (r: Result<seq<OutputRow>, set<string>>)
    ensures r.Failure? <==> Config.ValidateConfig(sheets).Fail?
    ensures r.Failure? ==> r.error == Config.ValidateConfig(sheets).error
    ensures r.Success? ==>
              var rows := Config.NormalizeTypes(configRows);
              r.value == Output(Run(Setting(p, ledger, Config.Exclusions(rows), table, Config.VendorBudgets(rows)),
                                    Config.Periods(rows), Start()))
    ensures r.Success? ==> FreshAcrossWeeks(r.value)
    ensures r.Success? ==> forall i :: 0 <= i < |r.value| ==> BudgetWeek(configRows, r.value[i].weekEnding)
  {
    match Config.ValidateConfig(sheets)
    case Fail(missing) => Failure(missing)
    case Pass =>
      var rows := Config.NormalizeTypes(configRows);
      var s := Setting(p, ledger, Config.Exclusions(rows), table, Config.VendorBudgets(rows));
      var periods := Config.Periods(rows);
      var out := Output(Run(s, periods, Start()));
      RunOutputFacts(s, periods, out);
      BudgetRowWeeks(configRows, out);
      Success(out)
  }

  /** `week` is the week ending of one of the periods. */
  predicate PeriodWeek(periods: seq<Config.Period>, week: int) {
    exists k :: 0 <= k < |periods| && periods[k].weekEnding == Some(week)
  }

  /** The output of a whole run repeats no document across week endings, and
      every row carries the week ending of one of the periods. */
  lemma RunOutputFacts(s: Setting, periods: seq<Config.Period>, out: seq<OutputRow>)
    requires out == Output(Run(s, periods, Start()))
    ensures FreshAcrossWeeks(out)
    ensures forall i :: 0 <= i < |out| ==> PeriodWeek(periods, out[i].weekEnding)
  {
    var weeks := set k | 0 <= k < |periods| :: periods[k].weekEnding;
    RunValid(s, periods, Start());
    RunWeeks(s, periods, Start(), weeks);
    OutputFresh(Run(s, periods, Start()));
    OutputWeeks(Run(s, periods, Start()), weeks);
    forall i | 0 <= i < |out|
      ensures PeriodWeek(periods, out[i].weekEnding)
    {
      assert Some(out[i].weekEnding) in weeks;
    }
  }

  /** `week` is the week ending of a row of the Config sheet typed "budget"
      (after normalisation) that has a weekly budget. */
  predicate BudgetWeek(configRows: seq<Config.ConfigRow>, week: int) {
    exists k :: 0 <= k < |configRows| && Config.IsWeeklyBudget(Config.NormalizeType(configRows[k]))
                && configRows[k].weekEnding == Some(week)
  }

  /** A week ending of the selected periods is that of a "budget" row with a
      weekly budget. */
  lemma BudgetRowWeek(configRows: seq<Config.ConfigRow>, week: int)
    requires PeriodWeek(Config.Periods(Config.NormalizeTypes(configRows)), week)
    ensures BudgetWeek(configRows, week)
  {
    var rows := Config.NormalizeTypes(configRows);
    var periods := Config.Periods(rows);
    var j :| 0 <= j < |periods| && periods[j].weekEnding == Some(week);
    assert periods[j] in periods;
    var k :| 0 <= k < |rows| && Config.IsWeeklyBudget(rows[k]) && periods[j] == Config.ToPeriod(rows[k]);
    assert rows[k] == Config.NormalizeType(configRows[k]);
  }

  lemma BudgetRowWeeks(configRows: seq<Config.ConfigRow>, out: seq<OutputRow>)
    requires forall i :: 0 <= i < |out| ==> PeriodWeek(Config.Periods(Config.NormalizeTypes(configRows)), out[i].weekEnding)
    ensures forall i :: 0 <= i < |out| ==> BudgetWeek(configRows, out[i].weekEnding)
  {
    forall i | 0 <= i < |out|
      ensures BudgetWeek(configRows, out[i].weekEnding)
    {
      BudgetRowWeek(configRows, out[i].weekEnding);
    }
  }

}
