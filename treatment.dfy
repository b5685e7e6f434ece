/**
 * The `Treatment<N>` trait (src/treatment.rs): factor names and values are
 * fixed-size arrays of the same length N, and a treatment is shown either by
 * building a `String` (`to_string`) or by writing to a formatter (`fmt`).
 */
module Treatment {
  import opened FactorKeys

  /** A `std::fmt::Formatter`, reduced to the text written to it so far. */
  class Formatter {
    var written: string

    constructor ()
      ensures written == ""
    {
      written := "";
    }

    /** `write!(f, ...)`: appends the formatted text. */
    method WriteStr(piece: string)
      modifies this
      ensures written == old(written) + piece
    {
      written := written + piece;
    }
  }

  /** `to_string`: the first pair, then `_name:value` for each further index. */
  method ToString(names: array<string>, values: array<string>) returns (s: string)
    requires names.Length == values.Length
    ensures s == Joined(names[..], values[..])
  {
    var n := names.Length;
    if n == 0 {
      s := "";
    } else if n == 1 {
      s := names[0] + ":" + values[0];
    } else {
      s := "";
      s := s + (names[0] + ":" + values[0]);
      assert names[..1] == [names[0]] && values[..1] == [values[0]];
      for i := 1 to n
        invariant s == Joined(names[..i], values[..i])
      {
        JoinedSnoc(names[..i], values[..i], names[i], values[i]);
        assert names[..i + 1] == names[..i] + [names[i]];
        assert values[..i + 1] == values[..i] + [values[i]];
        s := s + ("_" + names[i] + ":" + values[i]);
      }
      assert names[..] == names[..n] && values[..] == values[..n];
    }
  }

  /** A sequence as long as `s` whose every element is `s[0]`. */
  function FirstEverywhere(s: seq<string>): (r: seq<string>)
    ensures |r| == |s|
    ensures forall k :: 0 <= k < |r| ==> r[k] == s[0]
  {
    seq(|s|, k requires 0 <= k < |s| => s[0])
  }

  /**
   * `fmt` as written: its loop indexes `[0]` on every round, so it writes
   * the first pair N times, separated by `_`.
   */
  method Fmt(names: array<string>, values: array<string>, f: Formatter)
    requires names.Length == values.Length
    modifies f
    ensures f.written == old(f.written) + Joined(FirstEverywhere(names[..]), FirstEverywhere(values[..]))
  {
    var n := names.Length;
    ghost var ns, vs := FirstEverywhere(names[..]), FirstEverywhere(values[..]);
    if n == 0 {
    } else if n == 1 {
      f.WriteStr(names[0] + ":" + values[0]);
    } else {
      f.WriteStr(names[0] + ":" + values[0]);
      assert ns[..1] == [names[0]] && vs[..1] == [values[0]];
      for i := 1 to n
        invariant f.written == old(f.written) + Joined(ns[..i], vs[..i])
      {
        JoinedSnoc(ns[..i], vs[..i], names[0], values[0]);
        assert ns[..i + 1] == ns[..i] + [names[0]];
        assert vs[..i + 1] == vs[..i] + [values[0]];
        f.WriteStr("_" + names[0] + ":" + values[0]);
      }
      assert ns[..n] == ns && vs[..n] == vs;
    }
  }

  /** `fmt` with the loop indexing `[i]`: it writes exactly what `to_string` returns. */
  method FmtCorrected(names: array<string>, values: array<string>, f: Formatter)
    requires names.Length == values.Length
    modifies f
    ensures f.written == old(f.written) + Joined(names[..], values[..])
  {
    var n := names.Length;
    if n == 0 {
    } else if n == 1 {
      f.WriteStr(names[0] + ":" + values[0]);
    } else {
      f.WriteStr(names[0] + ":" + values[0]);
      assert names[..1] == [names[0]] && values[..1] == [values[0]];
      for i := 1 to n
        invariant f.written == old(f.written) + Joined(names[..i], values[..i])
      {
        JoinedSnoc(names[..i], values[..i], names[i], values[i]);
        assert names[..i + 1] == names[..i] + [names[i]];
        assert values[..i + 1] == values[..i] + [values[i]];
        f.WriteStr("_" + names[i] + ":" + values[i]);
      }
      assert names[..] == names[..n] && values[..] == values[..n];
    }
  }

  /**
   * For separator-free names and values, the text `fmt` writes equals the
   * text of `to_string` exactly when every pair repeats the first one.
   */
  lemma FmtAgreesWithToStringIff(names: seq<string>, values: seq<string>)
    requires |names| == |values| >= 1
    requires AllSeparatorFree(names) && AllSeparatorFree(values)
    ensures Joined(FirstEverywhere(names), FirstEverywhere(values)) == Joined(names, values)
        <==> forall k :: 0 <= k < |names| ==> names[k] == names[0] && values[k] == values[0]
  {
    var ns, vs := FirstEverywhere(names), FirstEverywhere(values);
    if Joined(ns, vs) == Joined(names, values) {
      assert AllSeparatorFree(ns) && AllSeparatorFree(vs);
      JoinedInjective(ns, vs, names, values);
    }
    if forall k :: 0 <= k < |names| ==> names[k] == names[0] && values[k] == values[0] {
      assert ns == names && vs == values;
    }
  }

  /** `to_string` of the three-factor treatment of the crate's tests. */
  lemma ToStringExample()
    ensures Joined(["len", "sort", "split"], ["9876543210", "true", "7"]) == "len:9876543210_sort:true_split:7"
  {
    Joined3("len", "sort", "split", "9876543210", "true", "7");
  }

  /**
   * On that treatment `fmt` repeats the first pair: it writes
   * `len:9876543210_len:9876543210_len:9876543210`.
   */
  lemma FmtRepeatsFirstPair()
    ensures Joined(FirstEverywhere(["len", "sort", "split"]), FirstEverywhere(["9876543210", "true", "7"]))
            == "len:9876543210_len:9876543210_len:9876543210"
  {
    FirstPairEverywhere();
    FirstPairThrice();
  }

  lemma FirstPairEverywhere()
    ensures FirstEverywhere(["len", "sort", "split"]) == ["len", "len", "len"]
    ensures FirstEverywhere(["9876543210", "true", "7"]) == ["9876543210", "9876543210", "9876543210"]
  {
  }

  lemma FirstPairThrice()
    ensures Joined(["len", "len", "len"], ["9876543210", "9876543210", "9876543210"])
            == "len:9876543210_len:9876543210_len:9876543210"
  {
    Joined3("len", "len", "len", "9876543210", "9876543210", "9876543210");
    assert Pair("len", "9876543210") == "len:9876543210";
  }
}
