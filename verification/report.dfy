/** The report normaliser: flattens the Aged Payables report's section/row tree
    into one record per nested data row (AP_Calc.py, `extract_data_to_dataframe`). */
module Report {
  import opened Wrappers
  import Seqs

  /** An entry of a `ColData` list; `value` is None when the key is absent. */
  datatype Cell = Cell(value: Option<string>)

  /** A row nested in a section: its `type` key and its `ColData` list. */
  datatype Row = Row(kind: Option<string>, cols: seq<Cell>)

  /** A top-level entry of `Rows.Row`. `header` is `Header.ColData`, None when
      either key is absent; `rows` is `Rows.Row`, empty when either key is absent. */
  datatype Section = Section(header: Option<seq<Cell>>, rows: seq<Row>)

  /** `EmptyHeader` is the IndexError of reading element 0 of an empty
      `Header.ColData`; `ColumnCount` is the DataFrame constructor rejecting
      rows whose widest one does not hold exactly nine values. */
  datatype FlattenError = EmptyHeader | ColumnCount(passed: nat)

  const NoCategory: string := "No Category"
  const DataKind: string := "Data"
  /** The nine column names: "Aging Category" and the eight `ColData` values. */
  const ColumnNames: seq<string> := ["Aging Category", "Date", "Transaction Type", "Doc Num",
                                     "Vendor", "Due Date", "Past Due", "Amount", "Open Balance"]

  /** One collected list: the section header followed by the row's values. */
  datatype Line = Line(category: string, values: seq<Option<string>>)

  /** A row of the flattened frame, every cell still the report's text. */
  datatype RawRecord = RawRecord(
    agingCategory: string,
    date: Option<string>,
    txnType: Option<string>,
    docNum: Option<string>,
    vendor: Option<string>,
    dueDate: Option<string>,
    pastDue: Option<string>,
    amount: Option<string>,
    openBalance: Option<string>)

  predicate HasEmptyHeader(s: Section) {
    s.header == Some([])
  }

  predicate NoEmptyHeader(sections: seq<Section>) {
    forall i :: 0 <= i < |sections| ==> !HasEmptyHeader(sections[i])
  }

  /** The section's first header value, or "No Category" when there is none. */
  function Category(s: Section): string
    requires !HasEmptyHeader(s)
  {
    match s.header
    case None => NoCategory
    case Some(cols) => cols[0].value.GetOr(NoCategory)
  }

  /** Only rows typed exactly "Data" are emitted: the match is case-sensitive. */
  predicate IsData(r: Row) {
    r.kind == Some(DataKind)
  }

  function Values(r: Row): seq<Option<string>> {
    Seqs.Map(r.cols, (c: Cell) => c.value)
  }

  /** The lines one section contributes, in row order. */
  function RowLines(category: string, rows: seq<Row>): seq<Line>
  {
    if |rows| == 0 then []
    else
      var last := rows[|rows| - 1];
      RowLines(category, rows[..|rows| - 1]) + (if IsData(last) then [Line(category, Values(last))] else [])
  }

  /** The lines of the whole report, in section order. */
  function Lines(sections: seq<Section>): seq<Line>
    requires NoEmptyHeader(sections)
  {
    if |sections| == 0 then []
    else
      var last := sections[|sections| - 1];
      Lines(sections[..|sections| - 1]) + RowLines(Category(last), last.rows)
  }

  /** The number of rows typed "Data" in `rows`. */
  function DataCount(rows: seq<Row>): nat {
    if |rows| == 0 then 0
    else (if IsData(rows[0]) then 1 else 0) + DataCount(rows[1..])
  }

  /** The number of rows typed "Data" nested one level under the sections. */
  function TotalDataCount(sections: seq<Section>): nat {
    if |sections| == 0 then 0
    else DataCount(sections[0].rows) + TotalDataCount(sections[1..])
  }

  /** The width of the widest collected list (header included). */
  function MaxWidth(lines: seq<Line>): (w: nat)
    ensures forall i :: 0 <= i < |lines| ==> 1 + |lines[i].values| <= w
    ensures |lines| > 0 ==> exists i :: 0 <= i < |lines| && w == 1 + |lines[i].values|
  {
    if |lines| == 0 then 0
    else
      var rest := MaxWidth(lines[1..]);
      if rest < 1 + |lines[0].values| then 1 + |lines[0].values| else rest
  }

  /** The cell at position `k` of a padded list. */
  function Field(values: seq<Option<string>>, k: nat): Option<string> {
    if k < |values| then values[k] else None
  }

  /** The cell of a record under one of the eight value columns, looked up by
      its column name; None for any other name. */
  function Column(rec: RawRecord, name: string): Option<string> {
    if name == "Date" then rec.date
    else if name == "Transaction Type" then rec.txnType
    else if name == "Doc Num" then rec.docNum
    else if name == "Vendor" then rec.vendor
    else if name == "Due Date" then rec.dueDate
    else if name == "Past Due" then rec.pastDue
    else if name == "Amount" then rec.amount
    else if name == "Open Balance" then rec.openBalance
    else None
  }

  function ToRecord(l: Line): RawRecord {
    RawRecord(l.category, Field(l.values, 0), Field(l.values, 1), Field(l.values, 2), Field(l.values, 3),
              Field(l.values, 4), Field(l.values, 5), Field(l.values, 6), Field(l.values, 7))
  }

  /** Column `k` of a collected list's record is value `k - 1` of the list. */
  lemma ColumnOfRecord(l: Line, k: int)
    requires 1 <= k < |ColumnNames|
    ensures Column(ToRecord(l), ColumnNames[k]) == Field(l.values, k - 1)
  {
    var rec := ToRecord(l);
    if k == 1 { assert ColumnNames[k] == "Date"; }
    else if k == 2 { assert ColumnNames[k] == "Transaction Type"; }
    else if k == 3 { assert ColumnNames[k] == "Doc Num"; }
    else if k == 4 { assert ColumnNames[k] == "Vendor"; }
    else if k == 5 { assert ColumnNames[k] == "Due Date"; }
    else if k == 6 { assert ColumnNames[k] == "Past Due"; }
    else if k == 7 { assert ColumnNames[k] == "Amount"; }
    else { assert ColumnNames[k] == "Open Balance"; }
  }

  /** `pd.DataFrame(data, columns=...)`: the widest list must match the nine
      column names; shorter lists are padded with missing values. Column `k`
      of a record holds value `k - 1` of its list, after the category. */
  function Frame(lines: seq<Line>): (r: Result<seq<RawRecord>, FlattenError>)
    ensures r.Success? <==> |lines| == 0 || MaxWidth(lines) == |ColumnNames|
    ensures r.Success? ==> |r.value| == |lines|
    ensures r.Success? ==> forall i :: 0 <= i < |lines| ==>
              r.value[i].agingCategory == lines[i].category && |lines[i].values| <= 8
    ensures r.Success? ==> forall i, k :: 0 <= i < |lines| && 1 <= k < |ColumnNames| ==>
              Column(r.value[i], ColumnNames[k]) == (if k - 1 < |lines[i].values| then lines[i].values[k - 1] else None)
    ensures r.Failure? ==> r.error == ColumnCount(MaxWidth(lines))
  {
    if |lines| > 0 && MaxWidth(lines) != |ColumnNames| then Failure(ColumnCount(MaxWidth(lines)))
    else
      var recs := Seqs.Map(lines, ToRecord);
      assert forall i, k :: 0 <= i < |lines| && 1 <= k < |ColumnNames| ==>
               Column(recs[i], ColumnNames[k]) == Field(lines[i].values, k - 1) by {
        forall i, k | 0 <= i < |lines| && 1 <= k < |ColumnNames|
          ensures Column(recs[i], ColumnNames[k]) == Field(lines[i].values, k - 1)
        {
          ColumnOfRecord(lines[i], k);
        }
      }
      Success(recs)
  }

  /** The nested loop of `extract_data_to_dataframe`: it raises on the first
      section whose header list is empty, otherwise collects one list per
      "Data" row and hands them to the frame constructor. */
  method Flatten(sections: seq<Section>) returns (r: Result<seq<RawRecord>, FlattenError>)
    ensures r == Failure(EmptyHeader) <==> !NoEmptyHeader(sections)
    ensures NoEmptyHeader(sections) ==> r == Frame(Lines(sections))
  {
    var data: seq<Line> := [];
    var i := 0;
    while i < |sections|
      invariant 0 <= i <= |sections|
      invariant NoEmptyHeader(sections[..i])
      invariant data == Lines(sections[..i])
    {
      var section := sections[i];
      if HasEmptyHeader(section) {
        return Failure(EmptyHeader);
      }
      var header := Category(section);
      var j := 0;
      while j < |section.rows|
        invariant 0 <= j <= |section.rows|
        invariant data == Lines(sections[..i]) + RowLines(header, section.rows[..j])
      {
        var row := section.rows[j];
        RowLinesStep(header, section.rows, j);
        if IsData(row) {
          data := data + [Line(header, Values(row))];
        }
        j := j + 1;
      }
      assert section.rows[..j] == section.rows;
      LinesStep(sections, i);
      i := i + 1;
    }
    assert sections[..i] == sections;
    r := Frame(data);
  }

  lemma RowLinesStep(category: string, rows: seq<Row>, j: nat)
    requires j < |rows|
    ensures RowLines(category, rows[..j + 1])
         == RowLines(category, rows[..j]) + (if IsData(rows[j]) then [Line(category, Values(rows[j]))] else [])
  {
    assert rows[..j + 1][..j] == rows[..j];
  }

  lemma LinesStep(sections: seq<Section>, i: nat)
    requires i < |sections| && NoEmptyHeader(sections[..i]) && !HasEmptyHeader(sections[i])
    ensures NoEmptyHeader(sections[..i + 1])
    ensures Lines(sections[..i + 1]) == Lines(sections[..i]) + RowLines(Category(sections[i]), sections[i].rows)
  {
    assert sections[..i + 1] == sections[..i] + [sections[i]];
    NoEmptyHeaderAppend(sections[..i], [sections[i]]);
    assert sections[..i + 1][..i] == sections[..i];
  }

  /** Rows are emitted in row order: the lines of a split row list are the
      lines of its two halves, one after the other. */
  lemma {:induction false} RowLinesAppend(category: string, a: seq<Row>, b: seq<Row>)
    ensures RowLines(category, a + b) == RowLines(category, a) + RowLines(category, b)
  {
    if |b| == 0 {
      assert a + b == a;
    } else {
      assert (a + b)[..|a + b| - 1] == a + b[..|b| - 1];
      RowLinesAppend(category, a, b[..|b| - 1]);
    }
  }

  lemma NoEmptyHeaderAppend(a: seq<Section>, b: seq<Section>)
    requires NoEmptyHeader(a) && NoEmptyHeader(b)
    ensures NoEmptyHeader(a + b)
  {
    forall i | 0 <= i < |a + b|
      ensures !HasEmptyHeader((a + b)[i])
    {
      if i < |a| {
        assert (a + b)[i] == a[i];
      } else {
        assert (a + b)[i] == b[i - |a|];
      }
    }
  }

  lemma NoEmptyHeaderPrefix(s: seq<Section>, n: nat)
    requires NoEmptyHeader(s) && n <= |s|
    ensures NoEmptyHeader(s[..n])
  {
    forall i | 0 <= i < n
      ensures !HasEmptyHeader(s[..n][i])
    {
      assert s[..n][i] == s[i];
    }
  }

  /** Sections are emitted in section order. */
  lemma {:induction false} LinesAppend(a: seq<Section>, b: seq<Section>)
    requires NoEmptyHeader(a) && NoEmptyHeader(b)
    ensures NoEmptyHeader(a + b)
    ensures Lines(a + b) == Lines(a) + Lines(b)
  {
    NoEmptyHeaderAppend(a, b);
    if |b| == 0 {
      assert a + b == a;
    } else {
      var init := b[..|b| - 1];
      NoEmptyHeaderPrefix(b, |b| - 1);
      NoEmptyHeaderAppend(a, init);
      assert (a + b)[..|a + b| - 1] == a + init;
      assert (a + b)[|a + b| - 1] == b[|b| - 1];
      LinesAppend(a, init);
    }
  }

  /** Exactly one line per "Data" row of a section. */
  lemma {:induction false} RowLinesCount(category: string, rows: seq<Row>)
    ensures |RowLines(category, rows)| == DataCount(rows)
  {
    if |rows| > 0 {
      var init := rows[..|rows| - 1];
      var last := rows[|rows| - 1];
      RowLinesCount(category, init);
      DataCountAppend(init, [last]);
      assert init + [last] == rows;
    }
  }

  lemma {:induction false} DataCountAppend(a: seq<Row>, b: seq<Row>)
    ensures DataCount(a + b) == DataCount(a) + DataCount(b)
  {
    if |a| == 0 {
      assert a + b == b;
    } else {
      assert (a + b)[1..] == a[1..] + b;
      DataCountAppend(a[1..], b);
    }
  }

  /** Exactly one line per "Data" row nested one level under a section. */
  lemma {:induction false} LinesCount(sections: seq<Section>)
    requires NoEmptyHeader(sections)
    ensures |Lines(sections)| == TotalDataCount(sections)
  {
    if |sections| > 0 {
      var rest := sections[1..];
      assert NoEmptyHeader(rest) by {
        forall i | 0 <= i < |rest|
          ensures !HasEmptyHeader(rest[i])
        {
          assert rest[i] == sections[i + 1];
        }
      }
      LinesCount(rest);
      LinesAppend([sections[0]], rest);
      assert [sections[0]] + rest == sections;
      assert [sections[0]][..0] == [];
      RowLinesCount(Category(sections[0]), sections[0].rows);
    }
  }

  /** Every line comes from a "Data" row and carries its section's category. */
  lemma {:induction false} RowLinesMember(category: string, rows: seq<Row>, l: Line)
    ensures l in RowLines(category, rows) <==>
              exists j :: 0 <= j < |rows| && IsData(rows[j]) && l == Line(category, Values(rows[j]))
  {
    if |rows| > 0 {
      var init := rows[..|rows| - 1];
      RowLinesMember(category, init, l);
      if l in RowLines(category, rows) && l !in RowLines(category, init) {
        assert IsData(rows[|rows| - 1]) && l == Line(category, Values(rows[|rows| - 1]));
      }
      if exists j :: 0 <= j < |rows| && IsData(rows[j]) && l == Line(category, Values(rows[j])) {
        var j :| 0 <= j < |rows| && IsData(rows[j]) && l == Line(category, Values(rows[j]));
        if j < |rows| - 1 {
          assert init[j] == rows[j];
        }
      }
    }
  }

  /** `l` is the category of `s` followed by the values of one of its "Data" rows. */
  ghost predicate LineOfSection(s: Section, l: Line)
    requires !HasEmptyHeader(s)
  {
    exists j :: 0 <= j < |s.rows| && IsData(s.rows[j]) && l == Line(Category(s), Values(s.rows[j]))
  }

  /** Every report line comes from a "Data" row of some section. */
  lemma {:induction false} LinesFromSections(sections: seq<Section>, l: Line)
    requires NoEmptyHeader(sections)
    ensures l in Lines(sections) ==> exists i :: 0 <= i < |sections| && LineOfSection(sections[i], l)
  {
    if |sections| > 0 && l in Lines(sections) {
      var n := |sections| - 1;
      var init := sections[..n];
      var last := sections[n];
      NoEmptyHeaderPrefix(sections, n);
      assert Lines(sections) == Lines(init) + RowLines(Category(last), last.rows);
      if l in Lines(init) {
        LinesFromSections(init, l);
        var i :| 0 <= i < n && LineOfSection(init[i], l);
        assert init[i] == sections[i];
        assert LineOfSection(sections[i], l);
      } else {
        RowLinesMember(Category(last), last.rows, l);
        assert LineOfSection(sections[n], l);
      }
    }
  }

  /** Every "Data" row of every section gives a report line. */
  lemma {:induction false} SectionsGiveLines(sections: seq<Section>, l: Line)
    requires NoEmptyHeader(sections)
    ensures (exists i :: 0 <= i < |sections| && LineOfSection(sections[i], l)) ==> l in Lines(sections)
  {
    if exists i :: 0 <= i < |sections| && LineOfSection(sections[i], l) {
      var i :| 0 <= i < |sections| && LineOfSection(sections[i], l);
      var n := |sections| - 1;
      var init := sections[..n];
      var last := sections[n];
      NoEmptyHeaderPrefix(sections, n);
      assert Lines(sections) == Lines(init) + RowLines(Category(last), last.rows);
      if i < n {
        assert init[i] == sections[i];
        assert LineOfSection(init[i], l);
        SectionsGiveLines(init, l);
      } else {
        RowLinesMember(Category(last), last.rows, l);
      }
    }
  }

  /** A report line is exactly the category of some section followed by the
      values of one of its "Data" rows. */
  lemma LinesMember(sections: seq<Section>, l: Line)
    requires NoEmptyHeader(sections)
    ensures l in Lines(sections) <==> exists i :: 0 <= i < |sections| && LineOfSection(sections[i], l)
  {
    LinesFromSections(sections, l);
    SectionsGiveLines(sections, l);
  }
}
