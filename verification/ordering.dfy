/** The allocation order: `sort_values(by=["Is_Past_Due_45", "priority",
    "Due Date"], ascending=[False, False, True])`, a stable sort with missing
    values last in every column (AP_Calc.py:103-114). */
module Ordering {
  import opened Wrappers
  import Seqs
  import Ledger

  /** The three sort columns of a candidate. */
  datatype SortKey = SortKey(urgent: bool, priority: Option<real>, due: Option<int>)

  function KeyOf(c: Ledger.Candidate): SortKey {
    SortKey(c.urgent, c.priority, c.bill.dueDate)
  }

  /** Descending order of the priority column (a number, possibly fractional),
      a missing value after every present one. */
  predicate DescBefore(a: Option<real>, b: Option<real>) {
    a.Some? && (b.None? || a.value > b.value)
  }

  /** Ascending order of a column, a missing value after every present one. */
  predicate AscBefore(a: Option<int>, b: Option<int>) {
    a.Some? && (b.None? || a.value < b.value)
  }

  /** `a` sorts strictly before `b`: urgent first, then higher priority, then
      earlier due date. */
  predicate Before(a: SortKey, b: SortKey): (r: bool)
    ensures r ==> a != b
    ensures a.urgent != b.urgent ==> (r <==> a.urgent)
    ensures a.urgent == b.urgent && a.priority.Some? && (b.priority.None? || a.priority.value > b.priority.value) ==> r
    ensures a.urgent == b.urgent && a.priority == b.priority && a.due.Some? && (b.due.None? || a.due.value < b.due.value) ==> r
  {
    if a.urgent != b.urgent then a.urgent
    else if a.priority != b.priority then DescBefore(a.priority, b.priority)
    else AscBefore(a.due, b.due)
  }

  lemma BeforeIrreflexive(a: SortKey)
    ensures !Before(a, a)
  {
  }

  lemma BeforeTransitive(a: SortKey, b: SortKey, c: SortKey)
    requires Before(a, b) && Before(b, c)
    ensures Before(a, c)
  {
  }

  /** Two different keys are always ordered, so only equal keys tie. */
  lemma BeforeTotal(a: SortKey, b: SortKey)
    requires a != b
    ensures Before(a, b) || Before(b, a)
  {
  }

  /** No later element sorts strictly before an earlier one. */
  predicate Sorted(s: seq<Ledger.Candidate>) {
    forall i, j :: 0 <= i < j < |s| ==> !Before(KeyOf(s[j]), KeyOf(s[i]))
  }

  /** Inserts `c` after every element that sorts strictly before it and before
      the first one that does not, so `c` precedes the elements it ties with. */
  function Insert(c: Ledger.Candidate, s: seq<Ledger.Candidate>): (r: seq<Ledger.Candidate>)
    ensures multiset(r) == multiset(s) + multiset{c}
  {
    if |s| == 0 then [c]
    else if Before(KeyOf(s[0]), KeyOf(c)) then
      assert s == [s[0]] + s[1..];
      [s[0]] + Insert(c, s[1..])
    else [c] + s
  }

  lemma SortedCons(x: Ledger.Candidate, s: seq<Ledger.Candidate>)
    requires Sorted(s)
    requires forall y :: y in s ==> !Before(KeyOf(y), KeyOf(x))
    ensures Sorted([x] + s)
  {
    forall i, j | 0 <= i < j < |[x] + s|
      ensures !Before(KeyOf(([x] + s)[j]), KeyOf(([x] + s)[i]))
    {
      if i == 0 {
        assert ([x] + s)[j] in s;
      } else {
        assert ([x] + s)[i] == s[i - 1] && ([x] + s)[j] == s[j - 1];
      }
    }
  }

  lemma {:induction false} InsertSorted(c: Ledger.Candidate, s: seq<Ledger.Candidate>)
    requires Sorted(s)
    ensures Sorted(Insert(c, s))
  {
    if |s| == 0 {
    } else if Before(KeyOf(s[0]), KeyOf(c)) {
      var tail := s[1..];
      InsertSorted(c, tail);
      var r := Insert(c, tail);
      forall y | y in r
        ensures !Before(KeyOf(y), KeyOf(s[0]))
      {
        assert y in multiset(r);
        if y == c {
          BeforeIrreflexive(KeyOf(c));
          if Before(KeyOf(c), KeyOf(s[0])) {
            BeforeTransitive(KeyOf(c), KeyOf(s[0]), KeyOf(c));
          }
        } else {
          assert y in multiset(tail);
          var j :| 0 <= j < |tail| && tail[j] == y;
          assert s[j + 1] == y;
        }
      }
      SortedCons(s[0], r);
    } else {
      forall y | y in s
        ensures !Before(KeyOf(y), KeyOf(c))
      {
        var j :| 0 <= j < |s| && s[j] == y;
        if KeyOf(c) != KeyOf(s[0]) {
          BeforeTotal(KeyOf(c), KeyOf(s[0]));
          if Before(KeyOf(y), KeyOf(c)) {
            BeforeTransitive(KeyOf(y), KeyOf(c), KeyOf(s[0]));
          }
        }
      }
      SortedCons(c, s);
    }
  }

  /** The stable sort: a sorted permutation of its input. */
  function Sort(s: seq<Ledger.Candidate>): (r: seq<Ledger.Candidate>)
    ensures multiset(r) == multiset(s)
    ensures Sorted(r)
  {
    if |s| == 0 then []
    else
      var rest := Sort(s[1..]);
      InsertSorted(s[0], rest);
      assert s == [s[0]] + s[1..];
      Insert(s[0], rest)
  }

  /** The candidates whose sort key is `k`, in order. */
  function WithKey(s: seq<Ledger.Candidate>, k: SortKey): seq<Ledger.Candidate> {
    Seqs.Filter(s, (c: Ledger.Candidate) => KeyOf(c) == k)
  }

  lemma WithKeyCons(x: Ledger.Candidate, s: seq<Ledger.Candidate>, k: SortKey)
    ensures WithKey([x] + s, k) == (if KeyOf(x) == k then [x] else []) + WithKey(s, k)
  {
    assert ([x] + s)[0] == x;
    assert ([x] + s)[1..] == s;
  }

  /** Inserting past an element that sorts strictly before `c`. */
  lemma InsertPast(c: Ledger.Candidate, s: seq<Ledger.Candidate>)
    requires |s| > 0 && Before(KeyOf(s[0]), KeyOf(c))
    ensures Insert(c, s) == [s[0]] + Insert(c, s[1..])
  {
  }

  lemma SwapEmpty(x: seq<Ledger.Candidate>, y: seq<Ledger.Candidate>, w: seq<Ledger.Candidate>)
    requires x == [] || y == []
    ensures x + (y + w) == y + (x + w)
  {
    if x == [] {
      assert x + (y + w) == y + w && x + w == w;
    } else {
      assert y + w == w && y + (x + w) == x + w;
    }
  }

  lemma {:induction false} InsertWithKey(c: Ledger.Candidate, s: seq<Ledger.Candidate>, k: SortKey)
    ensures WithKey(Insert(c, s), k) == (if KeyOf(c) == k then [c] else []) + WithKey(s, k)
  {
    if |s| == 0 {
      WithKeyCons(c, [], k);
      assert [c] + [] == [c];
    } else if Before(KeyOf(s[0]), KeyOf(c)) {
      var tail := s[1..];
      var t := Insert(c, tail);
      var ofHead := if KeyOf(s[0]) == k then [s[0]] else [];
      var ofC := if KeyOf(c) == k then [c] else [];
      InsertPast(c, s);
      InsertWithKey(c, tail, k);
      WithKeyCons(s[0], t, k);
      WithKeyCons(s[0], tail, k);
      Seqs.HeadTail(s);
      BeforeIrreflexive(KeyOf(c));
      SwapEmpty(ofHead, ofC, WithKey(tail, k));
    } else {
      WithKeyCons(c, s, k);
    }
  }

  /** Stability: the candidates that tie on all three columns keep their
      input order, so ties resolve in ledger order. */
  lemma {:induction false} SortStable(s: seq<Ledger.Candidate>, k: SortKey)
    ensures WithKey(Sort(s), k) == WithKey(s, k)
  {
    if |s| > 0 {
      SortStable(s[1..], k);
      InsertWithKey(s[0], Sort(s[1..]), k);
      WithKeyCons(s[0], s[1..], k);
      Seqs.HeadTail(s);
    }
  }

  /** Urgent bills sort before all non-urgent ones. */
  lemma UrgentFirst(s: seq<Ledger.Candidate>, i: int, j: int)
    requires Sorted(s)
    requires 0 <= i < |s| && 0 <= j < |s|
    requires s[i].urgent && !s[j].urgent
    ensures i < j
  {
  }

  /** Among candidates of equal urgency, a higher priority sorts first, and a
      present priority before a missing one. */
  lemma HigherPriorityFirst(s: seq<Ledger.Candidate>, i: int, j: int)
    requires Sorted(s)
    requires 0 <= i < |s| && 0 <= j < |s|
    requires s[i].urgent == s[j].urgent
    requires DescBefore(s[i].priority, s[j].priority)
    ensures i < j
  {
  }

  /** Among candidates of equal urgency and priority, an earlier due date sorts
      first, and a present due date before a missing one. */
  lemma EarlierDueFirst(s: seq<Ledger.Candidate>, i: int, j: int)
    requires Sorted(s)
    requires 0 <= i < |s| && 0 <= j < |s|
    requires s[i].urgent == s[j].urgent && s[i].priority == s[j].priority
    requires AscBefore(s[i].bill.dueDate, s[j].bill.dueDate)
    ensures i < j
  {
  }
}
