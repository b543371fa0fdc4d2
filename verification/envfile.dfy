/** The `.env` rewrite of `update_env_file` (api_qbo.py:41-72): the file's
    lines are read, the first line starting with `key=` is replaced by
    `key=value\n`, or that line is appended when none starts so, and the lines
    are written back. */
module EnvFile {
  import opened Wrappers
  import Text
  import Seqs

  function Prefix(key: string): string {
    key + "="
  }

  /** The line written for `key`. */
  function Entry(key: string, value: string): string {
    key + "=" + value + "\n"
  }

  lemma EntryHasPrefix(key: string, value: string)
    ensures Text.StartsWith(Entry(key, value), Prefix(key))
  {
    assert Entry(key, value)[..|Prefix(key)|] == Prefix(key);
  }

  /** The position of the first line starting with `prefix`. */
  function FirstMatch(lines: seq<string>, prefix: string): (r: Option<nat>)
    ensures r.None? <==> forall k :: 0 <= k < |lines| ==> !Text.StartsWith(lines[k], prefix)
    ensures r.Some? ==> r.value < |lines| && Text.StartsWith(lines[r.value], prefix)
                        && forall k :: 0 <= k < r.value ==> !Text.StartsWith(lines[k], prefix)
  {
    if |lines| == 0 then None
    else if Text.StartsWith(lines[0], prefix) then Some(0)
    else
      var tail := lines[1..];
      assert forall k :: 1 <= k < |lines| ==> lines[k] == tail[k - 1];
      match FirstMatch(tail, prefix)
      case None => None
      case Some(i) => Some(i + 1)
  }

  /** The list rewrite: the first `key=` line replaced, or the entry appended. */
  function UpdateLines(lines: seq<string>, key: string, value: string): (r: seq<string>)
    ensures (forall k :: 0 <= k < |lines| ==> !Text.StartsWith(lines[k], Prefix(key))) ==>
              r == lines + [Entry(key, value)]
    ensures (exists k :: 0 <= k < |lines| && Text.StartsWith(lines[k], Prefix(key))) ==>
              && |r| == |lines|
              && exists i :: 0 <= i < |lines| && Text.StartsWith(lines[i], Prefix(key))
                             && (forall k :: 0 <= k < i ==> !Text.StartsWith(lines[k], Prefix(key)))
                             && r[i] == Entry(key, value)
                             && forall k :: 0 <= k < |lines| && k != i ==> r[k] == lines[k]
  {
    match FirstMatch(lines, Prefix(key))
    case None => lines + [Entry(key, value)]
    case Some(i) => lines[i := Entry(key, value)]
  }

  /** The loop of the source, with its early `break`, computes the rewrite. */
  method UpdateLinesLoop(lines: seq<string>, key: string, value: string) returns (r: seq<string>)
    ensures r == UpdateLines(lines, key, value)
  {
    r := lines;
    var updated := false;
    var i := 0;
    while i < |r|
      invariant 0 <= i <= |r| == |lines|
      invariant !updated ==> r == lines && forall k :: 0 <= k < i ==> !Text.StartsWith(lines[k], Prefix(key))
      invariant updated ==> r == UpdateLines(lines, key, value)
      decreases |r| - i, if updated then 0 else 1
    {
      if Text.StartsWith(r[i], Prefix(key)) {
        assert FirstMatch(lines, Prefix(key)) == Some(i);
        r := r[i := Entry(key, value)];
        updated := true;
        break;
      }
      i := i + 1;
    }
    if !updated {
      r := r + [Entry(key, value)];
    }
  }

  /** A missing file reads as no lines. */
  function UpdateEnvFile(file: Option<seq<string>>, key: string, value: string): (r: seq<string>)
    ensures file.None? ==> r == [Entry(key, value)]
    ensures file.Some? ==> |r| == |file.value| || |r| == |file.value| + 1
  {
    UpdateLines(file.GetOr([]), key, value)
  }

  /** Writing the same entry twice leaves the lines as writing it once. */
  lemma UpdateIdempotent(lines: seq<string>, key: string, value: string)
    ensures UpdateLines(UpdateLines(lines, key, value), key, value) == UpdateLines(lines, key, value)
  {
    var once := UpdateLines(lines, key, value);
    EntryHasPrefix(key, value);
    match FirstMatch(lines, Prefix(key))
    case None =>
      assert once[|lines|] == Entry(key, value);
      assert FirstMatch(once, Prefix(key)) == Some(|lines|);
    case Some(i) =>
      assert FirstMatch(once, Prefix(key)) == Some(i);
  }

  // ---- The file as text ----

  /** The length of the first line of `text`, its '\n' included. */
  function LineEnd(text: string): (e: nat)
    requires |text| > 0
    ensures 0 < e <= |text|
    ensures '\n' !in text[..e - 1]
    ensures e < |text| ==> text[e - 1] == '\n'
  {
    if text[0] == '\n' || |text| == 1 then 1
    else
      var e := 1 + LineEnd(text[1..]);
      assert text[..e - 1] == [text[0]] + text[1..][..e - 2];
      e
  }

  /** A line as `readlines` can return it: non-empty, '\n' only at its end. */
  predicate LineShaped(line: string) {
    |line| > 0 && '\n' !in line[..|line| - 1]
  }

  predicate EndsWithNewline(line: string) {
    |line| > 0 && line[|line| - 1] == '\n'
  }

  /** A line ending in its only '\n'. */
  predicate Terminated(line: string) {
    LineShaped(line) && EndsWithNewline(line)
  }

  predicate AllTerminated(lines: seq<string>) {
    forall i :: 0 <= i < |lines| ==> Terminated(lines[i])
  }

  /** `readlines`: the text cut after every '\n'. */
  function ReadLines(text: string): (ls: seq<string>)
    ensures Seqs.Flatten(ls) == text
    ensures forall i :: 0 <= i < |ls| ==> LineShaped(ls[i])
    ensures forall i :: 0 <= i < |ls| - 1 ==> EndsWithNewline(ls[i])
    decreases |text|
  {
    if |text| == 0 then []
    else
      var e := LineEnd(text);
      var rest := ReadLines(text[e..]);
      assert text == text[..e] + text[e..];
      assert text[..e][..e - 1] == text[..e - 1];
      [text[..e]] + rest
  }

  lemma {:induction false} LineEndOf(line: string, rest: string)
    requires Terminated(line)
    ensures LineEnd(line + rest) == |line|
    decreases |line|
  {
    var t := line + rest;
    if |line| > 1 {
      assert line[0] in line[..|line| - 1];
      assert t[1..] == line[1..] + rest;
      assert line[1..][..|line[1..]| - 1] == line[1..|line| - 1];
      LineEndOf(line[1..], rest);
    }
  }

  /** Reading back what was written gives the same lines, when every line ends
      in its only '\n'. */
  lemma {:induction false} ReadWrite(lines: seq<string>)
    requires AllTerminated(lines)
    ensures ReadLines(Seqs.Flatten(lines)) == lines
  {
    if |lines| > 0 {
      var text := Seqs.Flatten(lines);
      assert Terminated(lines[0]);
      LineEndOf(lines[0], Seqs.Flatten(lines[1..]));
      assert text[..|lines[0]|] == lines[0];
      assert text[|lines[0]|..] == Seqs.Flatten(lines[1..]);
      assert AllTerminated(lines[1..]) by {
        forall i | 0 <= i < |lines[1..]|
          ensures Terminated(lines[1..][i])
        {
          assert lines[1..][i] == lines[i + 1];
        }
      }
      ReadWrite(lines[1..]);
      assert lines == [lines[0]] + lines[1..];
    }
  }

  /** The source's update on the file text: `readlines`, the rewrite, then
      `writelines`, which joins the lines as they are. With no `key=` line the
      entry lands directly after the old text, whether or not that text ended
      in '\n'. */
  function UpdateTextAsWritten(text: Option<string>, key: string, value: string): (r: string)
    ensures text.None? ==> r == Entry(key, value)
    ensures text.Some? && FirstMatch(ReadLines(text.value), Prefix(key)).None? ==> r == text.value + Entry(key, value)
  {
    var lines := match text case None => [] case Some(t) => ReadLines(t);
    Seqs.FlattenSnoc(lines, Entry(key, value));
    Seqs.Flatten(UpdateLines(lines, key, value))
  }

  /** A text with no '\n' before its last character reads as one line. */
  lemma SingleLine(line: string)
    requires LineShaped(line)
    ensures ReadLines(line) == [line]
  {
    var e := LineEnd(line);
    assert line[..e] == line && line[e..] == "";
  }

  /** A one-line file without a `key=` line gets the entry appended to its text. */
  lemma AppendsToSingleLine(line: string, key: string, value: string)
    requires LineShaped(line) && !Text.StartsWith(line, Prefix(key))
    ensures UpdateTextAsWritten(Some(line), key, value) == line + Entry(key, value)
  {
    SingleLine(line);
    assert FirstMatch([line], Prefix(key)) == None;
    var out := [line, Entry(key, value)];
    assert UpdateLines([line], key, value) == out;
    assert out[1..] == [Entry(key, value)] && out[1..][1..] == [];
    assert Seqs.Flatten(out[1..]) == Entry(key, value) + Seqs.Flatten([]);
  }

  /** A file whose last line has no '\n': the entry is glued onto that line,
      so reading the file back finds no `K=` line at all. */
  lemma GluedEntry()
    ensures UpdateTextAsWritten(Some("A=1"), "K", "v") == "A=1K=v\n"
    ensures ReadLines("A=1K=v\n") == ["A=1K=v\n"]
    ensures FirstMatch(ReadLines(UpdateTextAsWritten(Some("A=1"), "K", "v")), Prefix("K")).None?
  {
    assert Prefix("K") == "K=" && Entry("K", "v") == "K=v\n";
    assert "A=1"[..2] == "A=";
    AppendsToSingleLine("A=1", "K", "v");
    var glued := "A=1K=v\n";
    assert glued[..|glued| - 1] == "A=1K=v";
    SingleLine(glued);
    assert glued[..2] == "A=";
  }

  /** The second application of the same update changes the file again. */
  lemma AsWrittenNotIdempotent()
    ensures UpdateTextAsWritten(Some(UpdateTextAsWritten(Some("A=1"), "K", "v")), "K", "v") != UpdateTextAsWritten(Some("A=1"), "K", "v")
  {
    GluedEntry();
    var once := "A=1K=v\n";
    assert Prefix("K") == "K=";
    assert once[..|once| - 1] == "A=1K=v";
    assert once[..2] == "A=";
    AppendsToSingleLine(once, "K", "v");
  }

  /** The lines with the last one given its missing '\n'. */
  function Terminate(lines: seq<string>): seq<string> {
    if |lines| == 0 || EndsWithNewline(lines[|lines| - 1]) then lines
    else lines[..|lines| - 1] + [lines[|lines| - 1] + "\n"]
  }

  /** `text` with a '\n' added when its last character is not one. */
  function WithFinalNewline(text: string): string {
    if |text| > 0 && text[|text| - 1] != '\n' then text + "\n" else text
  }

  /** The text joined from `init` and a last line ends as that line does. */
  lemma TerminateLast(init: seq<string>, last: string)
    requires |last| > 0
    ensures Seqs.Flatten(Terminate(init + [last])) == WithFinalNewline(Seqs.Flatten(init + [last]))
  {
    var ls := init + [last];
    var t := Seqs.Flatten(ls);
    assert ls[..|ls| - 1] == init && ls[|ls| - 1] == last;
    Seqs.FlattenSnoc(init, last);
    assert t[|t| - 1] == last[|last| - 1];
    if !EndsWithNewline(last) {
      Seqs.FlattenSnoc(init, last + "\n");
      assert Seqs.Flatten(init) + (last + "\n") == t + "\n";
    }
  }

  /** Terminating the last line read is terminating the text. */
  lemma TerminateText(t: string)
    ensures Seqs.Flatten(Terminate(ReadLines(t))) == WithFinalNewline(t)
  {
    var ls := ReadLines(t);
    if |ls| > 0 {
      var n := |ls| - 1;
      assert ls == ls[..n] + [ls[n]];
      assert LineShaped(ls[n]);
      TerminateLast(ls[..n], ls[n]);
    }
  }

  /** Adding the '\n' does not change which lines start with `key=`. */
  lemma TerminateKeepsMatch(lines: seq<string>, key: string)
    ensures FirstMatch(Terminate(lines), Prefix(key)).None? <==> FirstMatch(lines, Prefix(key)).None?
  {
    var ls := Terminate(lines);
    if ls != lines {
      var n := |lines| - 1;
      var l := lines[n];
      var pre := Prefix(key);
      assert Text.StartsWith(l + "\n", pre) <==> Text.StartsWith(l, pre) by {
        assert pre[|pre| - 1] == '=';
        if Text.StartsWith(l, pre) {
          assert (l + "\n")[..|pre|] == l[..|pre|];
        }
      }
      assert forall k :: 0 <= k < n ==> ls[k] == lines[k];
      assert ls[n] == l + "\n";
    }
  }

  /** The update with the last line terminated before anything is appended:
      with no `key=` line the entry follows the text on a line of its own. */
  function UpdateText(text: Option<string>, key: string, value: string): (r: string)
    ensures text.None? ==> r == Entry(key, value)
    ensures text.Some? && FirstMatch(ReadLines(text.value), Prefix(key)).None? ==> r == WithFinalNewline(text.value) + Entry(key, value)
  {
    var lines := match text case None => [] case Some(t) => Terminate(ReadLines(t));
    var t := text.GetOr("");
    TerminateText(t);
    TerminateKeepsMatch(ReadLines(t), key);
    Seqs.FlattenSnoc(lines, Entry(key, value));
    Seqs.Flatten(UpdateLines(lines, key, value))
  }

  lemma TerminateLines(lines: seq<string>)
    requires forall i :: 0 <= i < |lines| ==> LineShaped(lines[i])
    requires forall i :: 0 <= i < |lines| - 1 ==> EndsWithNewline(lines[i])
    ensures AllTerminated(Terminate(lines))
  {
    var ls := Terminate(lines);
    if ls != lines {
      var n := |lines| - 1;
      var l := lines[n];
      assert (l + "\n")[..|l + "\n"| - 1] == l;
      assert '\n' !in l by {
        assert l == l[..|l| - 1] + [l[|l| - 1]];
      }
      assert Terminated(l + "\n");
      forall i | 0 <= i < |ls|
        ensures Terminated(ls[i])
      {
        if i < n {
          assert ls[i] == lines[i];
        }
      }
    }
  }

  lemma EntryTerminated(key: string, value: string)
    requires '\n' !in key && '\n' !in value
    ensures Terminated(Entry(key, value))
  {
    var e := Entry(key, value);
    assert e[..|e| - 1] == key + "=" + value;
  }

  lemma UpdateKeepsTerminated(lines: seq<string>, key: string, value: string)
    requires AllTerminated(lines) && Terminated(Entry(key, value))
    ensures AllTerminated(UpdateLines(lines, key, value))
  {
    var r := UpdateLines(lines, key, value);
    match FirstMatch(lines, Prefix(key))
    case None =>
      assert forall i :: 0 <= i < |r| ==> r[i] == if i < |lines| then lines[i] else Entry(key, value);
    case Some(i) =>
  }

  /** The lines the corrected update starts from, all terminated. */
  function StartLines(text: Option<string>): (ls: seq<string>)
    ensures AllTerminated(ls)
  {
    match text
    case None => []
    case Some(t) =>
      TerminateLines(ReadLines(t));
      Terminate(ReadLines(t))
  }

  /** What the corrected update writes reads back as the rewritten lines. */
  lemma UpdateTextReadsBack(text: Option<string>, key: string, value: string)
    requires '\n' !in key && '\n' !in value
    ensures ReadLines(UpdateText(text, key, value)) == UpdateLines(StartLines(text), key, value)
    ensures AllTerminated(UpdateLines(StartLines(text), key, value))
  {
    EntryTerminated(key, value);
    UpdateKeepsTerminated(StartLines(text), key, value);
    ReadWrite(UpdateLines(StartLines(text), key, value));
  }

  /** After the corrected update the file sets `key` to `value`: the first
      `key=` line read back is the new entry. */
  lemma UpdateTextSetsKey(text: Option<string>, key: string, value: string)
    requires '\n' !in key && '\n' !in value
    ensures var ls := ReadLines(UpdateText(text, key, value));
            exists i :: 0 <= i < |ls| && ls[i] == Entry(key, value)
                        && forall k :: 0 <= k < i ==> !Text.StartsWith(ls[k], Prefix(key))
  {
    UpdateTextReadsBack(text, key, value);
    var lines := StartLines(text);
    var ls := UpdateLines(lines, key, value);
    if forall k :: 0 <= k < |lines| ==> !Text.StartsWith(lines[k], Prefix(key)) {
      assert ls[|lines|] == Entry(key, value);
    }
  }

  /** The corrected update applied twice gives the file it gives once. */
  lemma UpdateTextIdempotent(text: Option<string>, key: string, value: string)
    requires '\n' !in key && '\n' !in value
    ensures UpdateText(Some(UpdateText(text, key, value)), key, value) == UpdateText(text, key, value)
  {
    UpdateTextReadsBack(text, key, value);
    var once := UpdateLines(StartLines(text), key, value);
    assert |once| > 0;
    assert Terminated(once[|once| - 1]);
    assert StartLines(Some(UpdateText(text, key, value))) == once;
    UpdateIdempotent(StartLines(text), key, value);
  }
}
