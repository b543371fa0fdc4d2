/** The group keys of `groupby("Vendor")`: the distinct non-missing names in
    ascending order, as pandas produces them with its default `sort=True` and
    `dropna=True` (AP_Calc.py:140-141, 180). */
module Grouping {
  import opened Wrappers
  import Seqs
  import Text

  predicate StrictlyAscending(names: seq<string>) {
    forall i, j :: 0 <= i < j < |names| ==> Text.LexLess(names[i], names[j])
  }

  predicate HasName(keys: seq<Option<string>>) {
    exists i :: 0 <= i < |keys| && keys[i].Some?
  }

  /** The least present name. */
  function Least(keys: seq<Option<string>>): (m: string)
    requires HasName(keys)
    ensures Some(m) in keys
  {
    if keys[0].None? then
      assert HasName(keys[1..]) by {
        var i :| 0 <= i < |keys| && keys[i].Some?;
        assert keys[1..][i - 1] == keys[i];
      }
      Least(keys[1..])
    else if !HasName(keys[1..]) then keys[0].value
    else
      var t := Least(keys[1..]);
      if Text.LexLess(t, keys[0].value) then t else keys[0].value
  }

  /** No present name sorts strictly before `Least`. */
  lemma {:induction false} LeastMinimal(keys: seq<Option<string>>, v: string)
    requires HasName(keys)
    requires Some(v) in keys
    ensures !Text.LexLess(v, Least(keys))
  {
    var m := Least(keys);
    var tail := keys[1..];
    if keys[0] == Some(v) {
      if m != v {
        assert HasName(tail);
        var t := Least(tail);
        Text.LexLessAsymmetric(t, v);
      } else {
        Text.LexLessIrreflexive(v);
      }
    } else {
      assert Some(v) in tail;
      assert HasName(tail);
      var t := Least(tail);
      LeastMinimal(tail, v);
      if keys[0].Some? && m != t {
        var h := keys[0].value;
        if Text.LexLess(v, h) {
          if v == t {
          } else {
            Text.LexLessTotal(v, t);
            Text.LexLessTransitive(t, v, h);
          }
        }
      }
    }
  }

  function Without(keys: seq<Option<string>>, name: string): seq<Option<string>> {
    Seqs.Filter(keys, (k: Option<string>) => k != Some(name))
  }

  /** Dropping the first name keeps the order ascending. */
  lemma AscendingTail(names: seq<string>)
    requires |names| > 0 && StrictlyAscending(names)
    ensures StrictlyAscending(names[1..])
  {
    forall i, j | 0 <= i < j < |names[1..]|
      ensures Text.LexLess(names[1..][i], names[1..][j])
    {
      assert names[1..][i] == names[i + 1] && names[1..][j] == names[j + 1];
    }
  }

  lemma AscendingCons(m: string, rest: seq<string>)
    requires StrictlyAscending(rest)
    requires forall v :: v in rest ==> Text.LexLess(m, v)
    ensures StrictlyAscending([m] + rest)
  {
    forall i, j | 0 <= i < j < |[m] + rest|
      ensures Text.LexLess(([m] + rest)[i], ([m] + rest)[j])
    {
      assert ([m] + rest)[j] == rest[j - 1];
      if i > 0 {
        assert ([m] + rest)[i] == rest[i - 1];
      }
    }
  }

  /** The group keys: every present name once, in ascending order. */
  function SortedDistinct(keys: seq<Option<string>>): (r: seq<string>)
    ensures forall v :: v in r <==> Some(v) in keys
    ensures StrictlyAscending(r)
    decreases |keys|
  {
    if !HasName(keys) then []
    else
      var m := Least(keys);
      var rest := Without(keys, m);
      Seqs.FilterShrinks(keys, (k: Option<string>) => k != Some(m), Some(m));
      var r := SortedDistinct(rest);
      LeastFirst(keys, m, r);
      AscendingCons(m, r);
      [m] + r
  }

  lemma LeastFirst(keys: seq<Option<string>>, m: string, r: seq<string>)
    requires HasName(keys) && m == Least(keys)
    requires forall v :: v in r <==> Some(v) in Without(keys, m)
    ensures forall v :: v in r ==> Text.LexLess(m, v)
  {
    forall v | v in r
      ensures Text.LexLess(m, v)
    {
      LeastMinimal(keys, v);
      Text.LexLessTotal(m, v);
    }
  }
}
