/**
 * Keys of factor levels (src/input_factors.rs).
 *
 * A factor level is an ordered list of factor names with one value each.
 * Its key writes every pair as `name:value` and separates the pairs by `_`,
 * e.g. `len:1024_position:Mid`.  The short key does the same with the short
 * names and values, which default to the long ones.
 *
 * The traits `InputFactors`, `AlgFactors`, `Data` and `Variant` all have
 * this shape (names, values, optional short forms and two keys built by the
 * same join), so the single datatype `Factors` models all of them.
 */
module FactorKeys {
  import opened Wrappers

  /** One `name:value` pair of a key. */
  function Pair(name: string, value: string): string
  {
    name + ":" + value
  }

  /**
   * The key of the given names and values: the pairs in order, separated
   * by single underscores.  The three cases are those of `join`.
   */
  function Joined(names: seq<string>, values: seq<string>): string
    requires |names| == |values|
    decreases |names|
  {
    if |names| == 0 then ""
    else if |names| == 1 then Pair(names[0], values[0])
    else Pair(names[0], values[0]) + "_" + Joined(names[1..], values[1..])
  }

  /** Appending one more pair to a non-empty key appends `_name:value`. */
  lemma {:induction false} JoinedSnoc(names: seq<string>, values: seq<string>, name: string, value: string)
    requires |names| == |values| >= 1
    ensures Joined(names + [name], values + [value]) == Joined(names, values) + "_" + Pair(name, value)
    decreases |names|
  {
    if |names| == 1 {
      assert (names + [name])[1..] == [name];
      assert (values + [value])[1..] == [value];
    } else {
      assert (names + [name])[1..] == names[1..] + [name];
      assert (values + [value])[1..] == values[1..] + [value];
      JoinedSnoc(names[1..], values[1..], name, value);
    }
  }

  /** The key of two pairs, written out. */
  lemma Joined2(n0: string, n1: string, v0: string, v1: string)
    ensures Joined([n0, n1], [v0, v1]) == Pair(n0, v0) + "_" + Pair(n1, v1)
  {
    assert [n0, n1][1..] == [n1] && [v0, v1][1..] == [v1];
  }

  /** The key of three pairs, written out. */
  lemma Joined3(n0: string, n1: string, n2: string, v0: string, v1: string, v2: string)
    ensures Joined([n0, n1, n2], [v0, v1, v2]) == Pair(n0, v0) + "_" + Pair(n1, v1) + "_" + Pair(n2, v2)
  {
    assert [n0, n1, n2][1..] == [n1, n2] && [v0, v1, v2][1..] == [v1, v2];
    Joined2(n1, n2, v1, v2);
  }

  /** The key of four pairs, written out. */
  lemma Joined4(n0: string, n1: string, n2: string, n3: string, v0: string, v1: string, v2: string, v3: string)
    ensures Joined([n0, n1, n2, n3], [v0, v1, v2, v3]) == Pair(n0, v0) + "_" + Pair(n1, v1) + "_" + Pair(n2, v2) + "_" + Pair(n3, v3)
  {
    assert [n0, n1, n2, n3][1..] == [n1, n2, n3] && [v0, v1, v2, v3][1..] == [v1, v2, v3];
    Joined3(n1, n2, n3, v1, v2, v3);
  }

  /**
   * `join`: the first pair, then `_name:value` for every further pair,
   * appended to a growing string.
   */
  method Join(names: seq<string>, values: seq<string>) returns (s: string)
    requires |names| == |values|
    ensures s == Joined(names, values)
  {
    var n := |names|;
    if n == 0 {
      s := "";
    } else if n == 1 {
      s := names[0] + ":" + values[0];
    } else {
      s := "";
      s := s + (names[0] + ":" + values[0]);
      assert names[..1] == [names[0]] && values[..1] == [values[0]];
      for i := 1 to n
        invariant s == Joined(names[..i], values[..i])
      {
        JoinedSnoc(names[..i], values[..i], names[i], values[i]);
        assert names[..i + 1] == names[..i] + [names[i]];
        assert values[..i + 1] == values[..i] + [values[i]];
        s := s + ("_" + names[i] + ":" + values[i]);
      }
      assert names[..n] == names && values[..n] == values;
    }
  }

  /** The sum, over all pairs, of |name| + |value| + 1 (the colon). */
  function PairsLength(names: seq<string>, values: seq<string>): nat
    requires |names| == |values|
    decreases |names|
  {
    if |names| == 0 then 0
    else |names[0]| + |values[0]| + 1 + PairsLength(names[1..], values[1..])
  }

  /** A key is as long as its pairs plus one underscore between each two of them. */
  lemma {:induction false} JoinedLength(names: seq<string>, values: seq<string>)
    requires |names| == |values|
    ensures |Joined(names, values)| == if |names| == 0 then 0 else PairsLength(names, values) + |names| - 1
    decreases |names|
  {
    if |names| > 1 {
      JoinedLength(names[1..], values[1..]);
    }
  }

  /** Neither separator of the key format occurs in `s`. */
  predicate SeparatorFree(s: string)
  {
    '_' !in s && ':' !in s
  }

  predicate AllSeparatorFree(ss: seq<string>)
  {
    forall k :: 0 <= k < |ss| ==> SeparatorFree(ss[k])
  }

  /** A character other than the two separators occurs in a key only if it occurs in a name or a value. */
  lemma {:induction false} JoinedAvoids(names: seq<string>, values: seq<string>, c: char)
    requires |names| == |values| && c != ':' && c != '_'
    requires forall k :: 0 <= k < |names| ==> c !in names[k] && c !in values[k]
    ensures c !in Joined(names, values)
    decreases |names|
  {
    if |names| > 1 {
      JoinedAvoids(names[1..], values[1..], c);
    }
  }

  /** A string split at the first occurrence of `sep` has one decomposition. */
  lemma SplitAtFirst(a: string, b: string, c: string, d: string, sep: char)
    requires sep !in a && sep !in c
    requires a + [sep] + b == c + [sep] + d
    ensures a == c && b == d
  {
    var s := a + [sep] + b;
    assert s[|a|] == sep && s[|c|] == sep;
    assert forall k :: 0 <= k < |a| ==> s[k] == a[k];
    assert forall k :: 0 <= k < |c| ==> s[k] == c[k];
    assert |a| == |c|;
    assert a == s[..|a|] == c;
    assert b == s[|a| + 1..] == d;
  }

  /**
   * When no name and no value contains `_` or `:`, the key determines the
   * names and the values: distinct factor-value combinations get distinct
   * keys.
   */
  lemma {:induction false} JoinedInjective(n1: seq<string>, v1: seq<string>, n2: seq<string>, v2: seq<string>)
    requires |n1| == |v1| == |n2| == |v2|
    requires AllSeparatorFree(n1) && AllSeparatorFree(v1)
    requires AllSeparatorFree(n2) && AllSeparatorFree(v2)
    requires Joined(n1, v1) == Joined(n2, v2)
    ensures n1 == n2 && v1 == v2
    decreases |n1|
  {
    if |n1| == 0 {
    } else if |n1| == 1 {
      SplitAtFirst(n1[0], v1[0], n2[0], v2[0], ':');
      assert n1 == [n1[0]] && n2 == [n2[0]];
      assert v1 == [v1[0]] && v2 == [v2[0]];
    } else {
      var r1, r2 := Joined(n1[1..], v1[1..]), Joined(n2[1..], v2[1..]);
      assert n1[0] + [':'] + (v1[0] + ['_'] + r1) == Joined(n1, v1);
      assert n2[0] + [':'] + (v2[0] + ['_'] + r2) == Joined(n2, v2);
      SplitAtFirst(n1[0], v1[0] + ['_'] + r1, n2[0], v2[0] + ['_'] + r2, ':');
      SplitAtFirst(v1[0], r1, v2[0], r2, '_');
      JoinedInjective(n1[1..], v1[1..], n2[1..], v2[1..]);
      assert n1 == [n1[0]] + n1[1..] && n2 == [n2[0]] + n2[1..];
      assert v1 == [v1[0]] + v1[1..] && v2 == [v2[0]] + v2[1..];
    }
  }

  /**
   * One level of a factor set: the long names and values, and the optional
   * overrides of `factor_names_short` and `factor_levels_short`.
   */
  datatype Factors = Factors(
    names: seq<string>,
    levels: seq<string>,
    shortNames: Option<seq<string>>,
    shortLevels: Option<seq<string>>)
  {
    /** `factor_names_short`: the override, by default the long names. */
    function NamesShort(): seq<string>
    {
      shortNames.GetOr(names)
    }

    /** `factor_levels_short`: the override, by default the long values. */
    function LevelsShort(): seq<string>
    {
      shortLevels.GetOr(levels)
    }

    /** The four lists have the same length, as the traits ask of implementers. */
    predicate Valid()
    {
      |levels| == |names| && |NamesShort()| == |names| && |LevelsShort()| == |names|
    }

    /** `key_long`. */
    function KeyLong(): string
      requires |names| == |levels|
    {
      Joined(names, levels)
    }

    /** `key_short`. */
    function KeyShort(): string
      requires |NamesShort()| == |LevelsShort()|
    {
      Joined(NamesShort(), LevelsShort())
    }
  }

  /** Without overrides the short key is the long key. */
  lemma DefaultShortKeyIsLong(f: Factors)
    requires f.shortNames.None? && f.shortLevels.None?
    requires |f.names| == |f.levels|
    ensures f.KeyShort() == f.KeyLong()
  {
  }

  /**
   * Two levels of one factor set (same names) whose keys coincide have the
   * same values, provided no name or value contains a separator.
   */
  lemma KeyLongInjective(f: Factors, g: Factors)
    requires f.names == g.names && |f.names| == |f.levels| == |g.levels|
    requires AllSeparatorFree(f.names)
    requires AllSeparatorFree(f.levels) && AllSeparatorFree(g.levels)
    requires f.KeyLong() == g.KeyLong()
    ensures f.levels == g.levels
  {
    JoinedInjective(f.names, f.levels, g.names, g.levels);
  }
}
