/** The bill ledger and the filtering steps `filter_and_recommend` applies to it
    before sorting (AP_Calc.py:83-109). */
module Ledger {
  import opened Wrappers
  import Seqs
  import Text
  import Report

  /** 2024-01-01 as a day number (days since 1970-01-01): only bills dated
      strictly after it are candidates. */
  const Cutoff: int := 19723
  /** A bill this many days past due, or more, is urgent. */
  const UrgentDays: real := 45.0
  const BillType: string := "Bill"

  /** pandas' `to_datetime` and `to_numeric` with `errors="coerce"`: a text
      that does not parse becomes a missing value. */
  datatype Parsers = Parsers(date: string -> Option<int>, number: string -> Option<real>)

  /** A ledger row after coercion: dates as day numbers, amounts as numbers. */
  datatype Bill = Bill(
    agingCategory: string,
    date: Option<int>,
    txnType: Option<string>,
    docNum: Option<string>,
    vendor: Option<string>,
    dueDate: Option<int>,
    pastDue: Option<real>,
    amount: Option<real>,
    openBalance: Option<string>)

  function Parse<T>(cell: Option<string>, parse: string -> Option<T>): Option<T> {
    match cell
    case None => None
    case Some(text) => parse(text)
  }

  /** Coerces "Date", "Due Date", "Past Due" and "Amount"; the other columns keep their text. */
  function Coerce(p: Parsers, r: Report.RawRecord): (b: Bill)
    ensures b.vendor == r.vendor && b.txnType == r.txnType && b.docNum == r.docNum
    ensures r.amount.None? ==> b.amount.None?
    ensures r.date.None? ==> b.date.None?
  {
    Bill(r.agingCategory, Parse(r.date, p.date), r.txnType, r.docNum, r.vendor,
         Parse(r.dueDate, p.date), Parse(r.pastDue, p.number), Parse(r.amount, p.number), r.openBalance)
  }

  /** `.str.lower().str.strip()`, the vendor-name key used for exclusions, the
      priority table and grouping. */
  function NormalizeName(s: string): string {
    Text.Strip(Text.Lower(s))
  }

  /** Normalising a normalised name changes nothing, so normalising the
      caller's frames in place on every period does not change later periods. */
  lemma NormalizeNameIdempotent(s: string)
    ensures NormalizeName(NormalizeName(s)) == NormalizeName(s)
  {
    var x := Text.Lower(s);
    Text.LowerStripCommute(x);
    Text.LowerIdempotent(s);
    Text.StripIdempotent(x);
  }

  /** A missing vendor stays missing. */
  function NormalizeVendor(v: Option<string>): Option<string> {
    match v
    case None => None
    case Some(s) => Some(NormalizeName(s))
  }

  lemma NormalizeVendorIdempotent(v: Option<string>)
    ensures NormalizeVendor(NormalizeVendor(v)) == NormalizeVendor(v)
  {
    if v.Some? {
      NormalizeNameIdempotent(v.value);
    }
  }

  function NormalizeRecord(r: Report.RawRecord): Report.RawRecord {
    r.(vendor := NormalizeVendor(r.vendor))
  }

  function NormalizeExclusions(exclusions: seq<string>): seq<string> {
    Seqs.Map(exclusions, NormalizeName)
  }

  /** `isin`: a missing vendor is never excluded. */
  predicate Excluded(vendor: Option<string>, normalized: seq<string>) {
    vendor.Some? && vendor.value in normalized
  }

  predicate IsRecent(b: Bill) {
    b.date.Some? && b.date.value > Cutoff
  }

  /** Every test a ledger row must pass to reach the sort, stated on the row itself. */
  predicate Eligible(p: Parsers, exclusions: seq<string>, r: Report.RawRecord) {
    var n := NormalizeRecord(r);
    var b := Coerce(p, n);
    && !Excluded(n.vendor, NormalizeExclusions(exclusions))
    && n.txnType == Some(BillType)
    && b.amount.Some?
    && IsRecent(b)
  }

  function Normalized(ledger: seq<Report.RawRecord>): seq<Report.RawRecord> {
    Seqs.Map(ledger, NormalizeRecord)
  }

  function DropExcluded(rows: seq<Report.RawRecord>, exclusions: seq<string>): seq<Report.RawRecord> {
    var normalized := NormalizeExclusions(exclusions);
    Seqs.Filter(rows, (r: Report.RawRecord) => !Excluded(r.vendor, normalized))
  }

  function KeepBills(rows: seq<Report.RawRecord>): seq<Report.RawRecord> {
    Seqs.Filter(rows, (r: Report.RawRecord) => r.txnType == Some(BillType))
  }

  function CoerceAll(p: Parsers, rows: seq<Report.RawRecord>): seq<Bill> {
    Seqs.Map(rows, (r: Report.RawRecord) => Coerce(p, r))
  }

  function DropMissingAmount(bills: seq<Bill>): seq<Bill> {
    Seqs.Filter(bills, (b: Bill) => b.amount.Some?)
  }

  function KeepRecent(bills: seq<Bill>): seq<Bill> {
    Seqs.Filter(bills, IsRecent)
  }

  /** The filter steps in the source's order: normalise vendors, drop excluded
      vendors, keep "Bill" rows, coerce, drop missing amounts, keep recent dates. */
  function Filtered(p: Parsers, ledger: seq<Report.RawRecord>, exclusions: seq<string>): (bs: seq<Bill>)
    ensures |bs| <= |ledger|
    ensures forall i :: 0 <= i < |bs| ==>
              && !Excluded(bs[i].vendor, NormalizeExclusions(exclusions))
              && bs[i].txnType == Some(BillType) && bs[i].amount.Some? && IsRecent(bs[i])
  {
    var rows := KeepBills(DropExcluded(Normalized(ledger), exclusions));
    var coerced := CoerceAll(p, rows);
    var bs := KeepRecent(DropMissingAmount(coerced));
    assert forall i :: 0 <= i < |bs| ==>
             && !Excluded(bs[i].vendor, NormalizeExclusions(exclusions))
             && bs[i].txnType == Some(BillType) && bs[i].amount.Some? && IsRecent(bs[i]) by {
      forall i | 0 <= i < |bs|
        ensures && !Excluded(bs[i].vendor, NormalizeExclusions(exclusions))
                && bs[i].txnType == Some(BillType) && bs[i].amount.Some? && IsRecent(bs[i])
      {
        assert bs[i] in bs;
        Seqs.MapMember(rows, (r: Report.RawRecord) => Coerce(p, r), bs[i]);
        var z :| z in rows && bs[i] == Coerce(p, z);
      }
    }
    bs
  }

  /** A bill survives the filters exactly when it is the coerced, normalised
      form of an eligible ledger row. */
  lemma FilteredMember(p: Parsers, ledger: seq<Report.RawRecord>, exclusions: seq<string>, b: Bill)
    ensures b in Filtered(p, ledger, exclusions) <==>
              exists r :: r in ledger && Eligible(p, exclusions, r) && b == Coerce(p, NormalizeRecord(r))
  {
    var s3 := KeepBills(DropExcluded(Normalized(ledger), exclusions));
    Seqs.MapMember(s3, (r: Report.RawRecord) => Coerce(p, r), b);
    if b in Filtered(p, ledger, exclusions) {
      var z :| z in s3 && b == Coerce(p, z);
      PassedMember(ledger, exclusions, z);
      var r :| r in ledger && z == NormalizeRecord(r);
      assert Eligible(p, exclusions, r);
    }
    if exists r :: r in ledger && Eligible(p, exclusions, r) && b == Coerce(p, NormalizeRecord(r)) {
      var r :| r in ledger && Eligible(p, exclusions, r) && b == Coerce(p, NormalizeRecord(r));
      PassedMember(ledger, exclusions, NormalizeRecord(r));
      assert NormalizeRecord(r) in s3;
    }
  }

  /** The rows that reach coercion: normalised ledger rows of type "Bill"
      whose vendor is not excluded. */
  lemma PassedMember(ledger: seq<Report.RawRecord>, exclusions: seq<string>, z: Report.RawRecord)
    ensures z in KeepBills(DropExcluded(Normalized(ledger), exclusions)) <==>
              && (exists r :: r in ledger && z == NormalizeRecord(r))
              && !Excluded(z.vendor, NormalizeExclusions(exclusions))
              && z.txnType == Some(BillType)
  {
    Seqs.MapMember(ledger, NormalizeRecord, z);
  }

  /** Normalising an already normalised ledger changes nothing, so the
      in-place normalisation of the caller's frame does not change what later
      calls see. */
  lemma NormalizedTwice(ledger: seq<Report.RawRecord>)
    ensures Normalized(Normalized(ledger)) == Normalized(ledger)
  {
    forall i | 0 <= i < |ledger|
      ensures NormalizeRecord(NormalizeRecord(ledger[i])) == NormalizeRecord(ledger[i])
    {
      NormalizeVendorIdempotent(ledger[i].vendor);
    }
  }

  lemma FilteredNormalized(p: Parsers, ledger: seq<Report.RawRecord>, exclusions: seq<string>)
    ensures Filtered(p, Normalized(ledger), exclusions) == Filtered(p, ledger, exclusions)
  {
    NormalizedTwice(ledger);
  }


  datatype VendorEntry = VendorEntry(vendor: Option<string>, priority: Option<real>)

  /** The Vendors sheet; `hasPriority` says whether it has a "priority" column. */
  datatype VendorTable = VendorTable(entries: seq<VendorEntry>, hasPriority: bool)

  /** A filtered bill joined with its urgency flag and its vendor's priority. */
  datatype Candidate = Candidate(bill: Bill, urgent: bool, priority: Option<real>)

  /** `Past Due >= 45`; a missing value compares false. */
  predicate IsUrgent(b: Bill) {
    b.pastDue.Some? && b.pastDue.value >= UrgentDays
  }

  /** The table rows whose normalised vendor equals `key`; as in a pandas
      merge, a missing key matches a missing vendor. */
  function MatchesIn(entries: seq<VendorEntry>, key: Option<string>): seq<VendorEntry> {
    Seqs.Filter(entries, (e: VendorEntry) => NormalizeVendor(e.vendor) == key)
  }

  function Matches(t: VendorTable, key: Option<string>): seq<VendorEntry> {
    MatchesIn(t.entries, key)
  }

  /** `filtered_df.get("priority", 0)`: the merged column when the table has
      one (missing for an unmatched vendor), else 0 for every row. */
  function PriorityFrom(t: VendorTable, e: Option<VendorEntry>): Option<real> {
    if !t.hasPriority then Some(0.0)
    else match e
      case None => None
      case Some(entry) => entry.priority
  }

  /** The left merge of one bill: one candidate per matching table row, or a
      single candidate when none matches. */
  function MergeRow(t: VendorTable, b: Bill): (cs: seq<Candidate>)
    ensures |cs| == if |Matches(t, b.vendor)| == 0 then 1 else |Matches(t, b.vendor)|
    ensures forall i :: 0 <= i < |cs| ==> cs[i].bill == b && cs[i].urgent == IsUrgent(b)
    ensures !t.hasPriority ==> forall i :: 0 <= i < |cs| ==> cs[i].priority == Some(0.0)
    ensures t.hasPriority && |Matches(t, b.vendor)| == 0 ==> cs == [Candidate(b, IsUrgent(b), None)]
    ensures t.hasPriority && |Matches(t, b.vendor)| > 0 ==>
              forall i :: 0 <= i < |cs| ==> cs[i].priority == Matches(t, b.vendor)[i].priority
  {
    var ms := Matches(t, b.vendor);
    if |ms| == 0 then [Candidate(b, IsUrgent(b), PriorityFrom(t, None))]
    else
      seq(|ms|, i requires 0 <= i < |ms| => Candidate(b, IsUrgent(b), PriorityFrom(t, Some(ms[i]))))
  }

  /** A vendor missing from a table that has a "priority" column gets a
      missing priority, not 0. */
  lemma AbsentVendorHasNoPriority(t: VendorTable, b: Bill)
    requires t.hasPriority
    requires forall e :: e in t.entries ==> NormalizeVendor(e.vendor) != b.vendor
    ensures MergeRow(t, b) == [Candidate(b, IsUrgent(b), None)]
  {
    var ms := Matches(t, b.vendor);
    if |ms| > 0 {
      assert ms[0] in t.entries;
    }
  }

  /** `filtered_df.merge(vendor_table, how="left")`: ledger order is kept, and
      each bill appears once per matching table row (at least once). */
  function Merge(t: VendorTable, bills: seq<Bill>): (cs: seq<Candidate>)
    ensures forall c :: c in cs ==> c.bill in bills && c.urgent == IsUrgent(c.bill)
  {
    if |bills| == 0 then []
    else MergeRow(t, bills[0]) + Merge(t, bills[1..])
  }

  /** No bill is lost by the merge. */
  lemma {:induction false} MergeCovers(t: VendorTable, bills: seq<Bill>, b: Bill)
    requires b in bills
    ensures exists c :: c in Merge(t, bills) && c.bill == b
  {
    var head := MergeRow(t, bills[0]);
    assert head[0] in Merge(t, bills);
    if b != bills[0] {
      MergeCovers(t, bills[1..], b);
      var c :| c in Merge(t, bills[1..]) && c.bill == b;
      assert c in Merge(t, bills);
    }
  }

  /** Normalised names that are pairwise distinct, as in a Vendors sheet
      listing each vendor once. */
  predicate UniqueVendors(t: VendorTable) {
    forall i, j :: 0 <= i < j < |t.entries| ==> NormalizeVendor(t.entries[i].vendor) != NormalizeVendor(t.entries[j].vendor)
  }

  lemma {:induction false} NoMatches(entries: seq<VendorEntry>, key: Option<string>)
    requires forall e :: e in entries ==> NormalizeVendor(e.vendor) != key
    ensures MatchesIn(entries, key) == []
  {
    if |entries| > 0 {
      NoMatches(entries[1..], key);
    }
  }

  lemma {:induction false} UniqueMatchesAtMostOne(entries: seq<VendorEntry>, key: Option<string>)
    requires forall i, j :: 0 <= i < j < |entries| ==> NormalizeVendor(entries[i].vendor) != NormalizeVendor(entries[j].vendor)
    ensures |MatchesIn(entries, key)| <= 1
  {
    if |entries| > 0 {
      var tail := entries[1..];
      if NormalizeVendor(entries[0].vendor) == key {
        forall e | e in tail
          ensures NormalizeVendor(e.vendor) != key
        {
          var j :| 0 <= j < |tail| && tail[j] == e;
          assert entries[j + 1] == e;
        }
        NoMatches(tail, key);
        assert MatchesIn(entries, key) == [entries[0]] + MatchesIn(tail, key);
      } else {
        UniqueMatchesAtMostOne(tail, key);
      }
    }
  }

  /** When the Vendors sheet names each vendor once, the merge pairs every
      bill with exactly one candidate, position for position. */
  lemma {:induction false} MergeUnique(t: VendorTable, bills: seq<Bill>)
    requires UniqueVendors(t)
    ensures |Merge(t, bills)| == |bills|
    ensures forall i :: 0 <= i < |bills| ==> Merge(t, bills)[i].bill == bills[i]
  {
    if |bills| > 0 {
      UniqueMatchesAtMostOne(t.entries, bills[0].vendor);
      MergeUnique(t, bills[1..]);
    }
  }

  function NormalizeEntry(e: VendorEntry): VendorEntry {
    e.(vendor := NormalizeVendor(e.vendor))
  }

  /** The table after `vendor_table["vendor"].str.lower().str.strip()`. */
  function NormalizeTable(t: VendorTable): VendorTable {
    t.(entries := Seqs.Map(t.entries, NormalizeEntry))
  }

  lemma MatchesCons(e: VendorEntry, rest: seq<VendorEntry>, key: Option<string>)
    ensures MatchesIn([e] + rest, key) == (if NormalizeVendor(e.vendor) == key then [e] else []) + MatchesIn(rest, key)
  {
    assert ([e] + rest)[0] == e;
    assert ([e] + rest)[1..] == rest;
  }

  lemma {:induction false} MatchesNormalized(entries: seq<VendorEntry>, key: Option<string>)
    ensures MatchesIn(Seqs.Map(entries, NormalizeEntry), key) == Seqs.Map(MatchesIn(entries, key), NormalizeEntry)
  {
    if |entries| > 0 {
      var e := entries[0];
      var rest := entries[1..];
      assert entries == [e] + rest;
      Seqs.MapCons(e, rest, NormalizeEntry);
      MatchesNormalized(rest, key);
      NormalizeVendorIdempotent(e.vendor);
      MatchesCons(e, rest, key);
      MatchesCons(NormalizeEntry(e), Seqs.Map(rest, NormalizeEntry), key);
      var tail := MatchesIn(rest, key);
      if NormalizeVendor(e.vendor) == key {
        Seqs.MapCons(e, tail, NormalizeEntry);
      }
    }
  }

  /** The merge of a bill depends only on the priorities of its matching rows. */
  lemma MergeRowByPriorities(t: VendorTable, u: VendorTable, b: Bill)
    requires t.hasPriority == u.hasPriority
    requires |Matches(t, b.vendor)| == |Matches(u, b.vendor)|
    requires forall i :: 0 <= i < |Matches(t, b.vendor)| ==> Matches(t, b.vendor)[i].priority == Matches(u, b.vendor)[i].priority
    ensures MergeRow(t, b) == MergeRow(u, b)
  {
    var x := MergeRow(t, b);
    var y := MergeRow(u, b);
    forall i | 0 <= i < |x|
      ensures x[i] == y[i]
    {
    }
  }

  /** The in-place normalisation of the vendor table does not change the merge. */
  lemma MergeRowNormalized(t: VendorTable, b: Bill)
    ensures MergeRow(NormalizeTable(t), b) == MergeRow(t, b)
  {
    MatchesNormalized(t.entries, b.vendor);
    MergeRowByPriorities(NormalizeTable(t), t, b);
  }

  lemma {:induction false} MergeNormalized(t: VendorTable, bills: seq<Bill>)
    ensures Merge(NormalizeTable(t), bills) == Merge(t, bills)
  {
    if |bills| > 0 {
      MergeRowNormalized(t, bills[0]);
      MergeNormalized(t, bills[1..]);
    }
  }
}
