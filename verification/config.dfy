/** The configuration workbook: the sheet check of `validate_config_file`
    (main.py:14-21) and the selection of exclusion and budget rows from the
    Config sheet (main.py:50, 56-75). */
module Config {
  import opened Wrappers
  import Seqs
  import Text
  import Ledger
  import Recommend

  const ConfigSheet: string := "Config"
  const VendorsSheet: string := "Vendors"

  function RequiredSheets(): set<string> {
    {ConfigSheet, VendorsSheet}
  }

  /** Passes when both required sheets are present; otherwise fails naming
      exactly the missing ones. */
  function ValidateConfig(sheets: set<string>): (r: Outcome<set<string>>)
    ensures r.Pass? <==> ConfigSheet in sheets && VendorsSheet in sheets
    ensures r.Fail? ==> r.error != {} && forall s :: s in r.error <==> (s == ConfigSheet || s == VendorsSheet) && s !in sheets
  {
    if RequiredSheets() <= sheets then Pass else Fail(RequiredSheets() - sheets)
  }

  /** A row of the Config sheet, with its column names already normalised. */
  datatype ConfigRow = ConfigRow(
    configType: Option<string>,
    vendorName: Option<string>,
    weekEnding: Option<int>,
    weeklyBudget: Option<real>,
    vendorBudget: Option<real>)

  /** A weekly budget period as selected: its week ending and weekly budget. */
  datatype Period = Period(weekEnding: Option<int>, weeklyBudget: Option<real>)

  /** `budget["config type"] = budget["config type"].str.strip().str.lower()`:
      the type column rewritten in place before any row is selected. */
  function NormalizeType(row: ConfigRow): (n: ConfigRow)
    ensures n.configType.None? <==> row.configType.None?
    ensures row.configType.Some? ==> n.configType == Some(Text.Lower(Text.Strip(row.configType.value)))
    ensures n.vendorName == row.vendorName && n.weekEnding == row.weekEnding
    ensures n.weeklyBudget == row.weeklyBudget && n.vendorBudget == row.vendorBudget
  {
    match row.configType
    case None => row
    case Some(t) => row.(configType := Some(Text.Lower(Text.Strip(t))))
  }

  /** Normalising the type column twice is normalising it once. */
  lemma NormalizeTypeIdempotent(row: ConfigRow)
    ensures NormalizeType(NormalizeType(row)) == NormalizeType(row)
  {
    if row.configType.Some? {
      var t := row.configType.value;
      var x := Text.Strip(t);
      Text.LowerStripCommute(x);
      Text.StripIdempotent(t);
      Text.LowerIdempotent(x);
    }
  }

  function NormalizeTypes(rows: seq<ConfigRow>): seq<ConfigRow> {
    Seqs.Map(rows, NormalizeType)
  }

  /** The type column, after normalisation, equals `kind`. */
  predicate HasType(row: ConfigRow, kind: string) {
    row.configType == Some(kind)
  }

  predicate IsExclusion(row: ConfigRow) {
    HasType(row, "exclusion") && row.vendorName.Some?
  }

  predicate IsWeeklyBudget(row: ConfigRow) {
    HasType(row, "budget") && row.weeklyBudget.Some?
  }

  predicate IsVendorBudget(row: ConfigRow) {
    HasType(row, "budget") && row.vendorBudget.Some?
  }

  function ExclusionName(row: ConfigRow): string {
    Text.Lower(row.vendorName.GetOr(""))
  }

  function ToPeriod(row: ConfigRow): Period {
    Period(row.weekEnding, row.weeklyBudget)
  }

  function ToVendorBudget(row: ConfigRow): Recommend.VendorBudgetRow {
    Recommend.VendorBudgetRow(row.weekEnding, row.vendorBudget.GetOr(0.0))
  }

  /** The lower-cased vendor names of the exclusion rows, in sheet order. */
  function Exclusions(rows: seq<ConfigRow>): (r: seq<string>)
    ensures |r| <= |rows|
    ensures forall x :: x in r <==> exists i :: 0 <= i < |rows| && IsExclusion(rows[i]) && x == Text.Lower(rows[i].vendorName.value)
  {
    var kept := Seqs.Filter(rows, IsExclusion);
    var r := Seqs.Map(kept, ExclusionName);
    assert forall x :: x in r <==> exists i :: 0 <= i < |rows| && IsExclusion(rows[i]) && x == Text.Lower(rows[i].vendorName.value) by {
      forall x
        ensures x in r <==> exists i :: 0 <= i < |rows| && IsExclusion(rows[i]) && x == Text.Lower(rows[i].vendorName.value)
      {
        Seqs.MapMember(kept, ExclusionName, x);
        if exists i :: 0 <= i < |rows| && IsExclusion(rows[i]) && x == Text.Lower(rows[i].vendorName.value) {
          var i :| 0 <= i < |rows| && IsExclusion(rows[i]) && x == Text.Lower(rows[i].vendorName.value);
          assert rows[i] in kept;
        }
      }
    }
    r
  }

  /** The selection reads the sheet row by row: selecting from two blocks of
      rows gives the two selections one after the other. */
  lemma ExclusionsAppend(a: seq<ConfigRow>, b: seq<ConfigRow>)
    ensures Exclusions(a + b) == Exclusions(a) + Exclusions(b)
  {
    Seqs.FilterAppend(a, b, IsExclusion);
    Seqs.MapAppend(Seqs.Filter(a, IsExclusion), Seqs.Filter(b, IsExclusion), ExclusionName);
  }

  /** A ledger vendor is excluded exactly when an exclusion row names it, up
      to case and surrounding whitespace. */
  lemma ExcludedIff(rows: seq<ConfigRow>, vendor: string)
    ensures Ledger.Excluded(Some(Ledger.NormalizeName(vendor)), Ledger.NormalizeExclusions(Exclusions(rows))) <==>
              exists i :: 0 <= i < |rows| && IsExclusion(rows[i]) && Ledger.NormalizeName(rows[i].vendorName.value) == Ledger.NormalizeName(vendor)
  {
    var ex := Exclusions(rows);
    var key := Ledger.NormalizeName(vendor);
    Seqs.MapMember(ex, Ledger.NormalizeName, key);
    if key in Ledger.NormalizeExclusions(ex) {
      var x :| x in ex && key == Ledger.NormalizeName(x);
      var i :| 0 <= i < |rows| && IsExclusion(rows[i]) && x == Text.Lower(rows[i].vendorName.value);
      Text.LowerIdempotent(rows[i].vendorName.value);
    }
    if exists i :: 0 <= i < |rows| && IsExclusion(rows[i]) && Ledger.NormalizeName(rows[i].vendorName.value) == key {
      var i :| 0 <= i < |rows| && IsExclusion(rows[i]) && Ledger.NormalizeName(rows[i].vendorName.value) == key;
      var x := Text.Lower(rows[i].vendorName.value);
      assert x in ex;
      Text.LowerIdempotent(rows[i].vendorName.value);
    }
  }

  /** The budget periods: the "budget" rows with a weekly budget, in sheet order. */
  function Periods(rows: seq<ConfigRow>): (r: seq<Period>)
    ensures |r| <= |rows|
    ensures forall i :: 0 <= i < |r| ==> r[i].weeklyBudget.Some?
    ensures forall p :: p in r <==> exists i :: 0 <= i < |rows| && IsWeeklyBudget(rows[i]) && p == ToPeriod(rows[i])
  {
    var kept := Seqs.Filter(rows, IsWeeklyBudget);
    var r := Seqs.Map(kept, ToPeriod);
    assert forall i :: 0 <= i < |r| ==> r[i].weeklyBudget.Some? by {
      forall i | 0 <= i < |r|
        ensures r[i].weeklyBudget.Some?
      {
        assert kept[i] in kept;
      }
    }
    assert forall p :: p in r <==> exists i :: 0 <= i < |rows| && IsWeeklyBudget(rows[i]) && p == ToPeriod(rows[i]) by {
      forall p
        ensures p in r <==> exists i :: 0 <= i < |rows| && IsWeeklyBudget(rows[i]) && p == ToPeriod(rows[i])
      {
        Seqs.MapMember(kept, ToPeriod, p);
        if exists i :: 0 <= i < |rows| && IsWeeklyBudget(rows[i]) && p == ToPeriod(rows[i]) {
          var i :| 0 <= i < |rows| && IsWeeklyBudget(rows[i]) && p == ToPeriod(rows[i]);
          assert rows[i] in kept;
        }
      }
    }
    r
  }

  /** Periods keep the sheet's row order. */
  lemma PeriodsAppend(a: seq<ConfigRow>, b: seq<ConfigRow>)
    ensures Periods(a + b) == Periods(a) + Periods(b)
  {
    Seqs.FilterAppend(a, b, IsWeeklyBudget);
    Seqs.MapAppend(Seqs.Filter(a, IsWeeklyBudget), Seqs.Filter(b, IsWeeklyBudget), ToPeriod);
  }

  /** The vendor-budget table: the "budget" rows with a vendor budget, in sheet order. */
  function VendorBudgets(rows: seq<ConfigRow>): (r: seq<Recommend.VendorBudgetRow>)
    ensures |r| <= |rows|
    ensures forall v :: v in r <==> exists i :: 0 <= i < |rows| && IsVendorBudget(rows[i]) && v == ToVendorBudget(rows[i])
  {
    var kept := Seqs.Filter(rows, IsVendorBudget);
    var r := Seqs.Map(kept, ToVendorBudget);
    assert forall v :: v in r <==> exists i :: 0 <= i < |rows| && IsVendorBudget(rows[i]) && v == ToVendorBudget(rows[i]) by {
      forall v
        ensures v in r <==> exists i :: 0 <= i < |rows| && IsVendorBudget(rows[i]) && v == ToVendorBudget(rows[i])
      {
        Seqs.MapMember(kept, ToVendorBudget, v);
        if exists i :: 0 <= i < |rows| && IsVendorBudget(rows[i]) && v == ToVendorBudget(rows[i]) {
          var i :| 0 <= i < |rows| && IsVendorBudget(rows[i]) && v == ToVendorBudget(rows[i]);
          assert rows[i] in kept;
        }
      }
    }
    r
  }

  lemma VendorBudgetsCons(row: ConfigRow, rest: seq<ConfigRow>)
    ensures VendorBudgets([row] + rest) ==
              (if IsVendorBudget(row) then [ToVendorBudget(row)] else []) + VendorBudgets(rest)
  {
    Seqs.FilterAppend([row], rest, IsVendorBudget);
    Seqs.MapAppend(Seqs.Filter([row], IsVendorBudget), Seqs.Filter(rest, IsVendorBudget), ToVendorBudget);
  }

  /** The vendor budget used for a week is that of the first "budget" row of the
      sheet that has a vendor budget and that week ending; there is none
      exactly when no such row has that week ending. */
  lemma {:induction false} VendorBudgetLookup(rows: seq<ConfigRow>, week: int)
    ensures Recommend.VendorBudgetFor(VendorBudgets(rows), week) == FirstVendorBudget(rows, week)
  {
    if |rows| > 0 {
      VendorBudgetLookup(rows[1..], week);
      VendorBudgetsCons(rows[0], rows[1..]);
      assert [rows[0]] + rows[1..] == rows;
      var x := ToVendorBudget(rows[0]);
      var tail := VendorBudgets(rows[1..]);
      if IsVendorBudget(rows[0]) {
        assert ([x] + tail)[0] == x;
        assert ([x] + tail)[1..] == tail;
      } else {
        assert [] + tail == tail;
      }
    }
  }

  /** A "budget" row with a vendor budget for `week`. */
  predicate BudgetFor(row: ConfigRow, week: int) {
    IsVendorBudget(row) && row.weekEnding == Some(week)
  }

  /** The sheet-level statement of the lookup: the first row, in sheet order,
      that is a "budget" row with a vendor budget for `week`. */
  function FirstVendorBudget(rows: seq<ConfigRow>, week: int): (r: Option<real>)
    ensures r.None? <==> forall i :: 0 <= i < |rows| ==> !BudgetFor(rows[i], week)
    ensures r.Some? ==> exists i :: 0 <= i < |rows| && BudgetFor(rows[i], week) && r.value == rows[i].vendorBudget.value
                          && forall k :: 0 <= k < i ==> !BudgetFor(rows[k], week)
  {
    if |rows| == 0 then None
    else if BudgetFor(rows[0], week) then Some(rows[0].vendorBudget.value)
    else
      var tail := rows[1..];
      var r := FirstVendorBudget(tail, week);
      assert forall i :: 1 <= i < |rows| ==> rows[i] == tail[i - 1];
      assert r.Some? ==> exists i :: 0 <= i < |rows| && BudgetFor(rows[i], week) && r.value == rows[i].vendorBudget.value
                          && forall k :: 0 <= k < i ==> !BudgetFor(rows[k], week) by {
        if r.Some? {
          var i :| 0 <= i < |tail| && BudgetFor(tail[i], week) && r.value == tail[i].vendorBudget.value
                   && forall k :: 0 <= k < i ==> !BudgetFor(tail[k], week);
          assert rows[i + 1] == tail[i];
        }
      }
      r
  }
}
