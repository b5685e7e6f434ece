/**
 * The experiment of the crate's own test (src/tests/experiment.rs): the
 * input of width `n` is [0, n), and a `sort` variant moves the first element
 * to the end `len` times by adjacent swaps on a copy of the input.
 */
module RotationExperiment {
  import opened Wrappers
  import opened StdStr
  import opened FactorKeys
  import opened RunPaths
  import opened Arith
  import opened ExperimentGrid

  datatype MyData = MyData(width: nat)

  datatype MyVariant = MyVariant(len: nat, sort: bool)

  /** `MyData`'s factors: short name `w`, short level left at its default. */
  function DataFactors(d: MyData): (f: Factors)
    ensures f.Valid()
  {
    Factors(["width"], [DecimalString(d.width)], Some(["w"]), None)
  }

  /** `MyVariant`'s factors: short names `l`, `s` and `T`/`F` for the flag. */
  function VariantFactors(v: MyVariant): (f: Factors)
    ensures f.Valid()
  {
    Factors(["len", "sort"], [DecimalString(v.len), BoolString(v.sort)],
            Some(["l", "s"]), Some([DecimalString(v.len), if v.sort then "T" else "F"]))
  }

  /** `input`: the values 0, 1, ..., width - 1 in order. */
  function Input(d: MyData): (r: seq<nat>)
    ensures |r| == d.width && forall k :: 0 <= k < |r| ==> r[k] == k
  {
    seq(d.width, k requires 0 <= k < d.width => k)
  }

  /** `s` rotated left by `k` places. */
  function RotateLeft<T>(s: seq<T>, k: nat): seq<T>
    requires k <= |s|
  {
    s[k..] + s[..k]
  }

  /** What `execute` computes: `len` left rotations by one place when `sort` is set. */
  function Rotation(v: MyVariant, input: seq<nat>): seq<nat>
  {
    if v.sort && |input| > 0 then RotateLeft(input, v.len % |input|) else input
  }

  /** The head of `start` moved to its end, the rest shifted one place forward. */
  function BubbledOnce<T>(start: seq<T>): seq<T>
    requires |start| > 0
  {
    start[1..] + [start[0]]
  }

  /** One more left rotation moves the head of the rotated sequence to its end. */
  lemma RotateLeftStep<T>(s: seq<T>, k: nat)
    requires k < |s|
    ensures BubbledOnce(RotateLeft(s, k)) == RotateLeft(s, if k + 1 == |s| then 0 else k + 1)
  {
    var r := RotateLeft(s, k);
    assert r[0] == s[k];
    assert r[1..] == s[k + 1..] + s[..k];
    if k + 1 < |s| {
      assert s[..k + 1] == s[..k] + [s[k]];
      assert r[1..] + [r[0]] == s[k + 1..] + s[..k + 1];
    } else {
      assert RotateLeft(s, 0) == s;
      assert s[..k + 1] == s;
      assert r[1..] + [r[0]] == s;
    }
  }

  /** Rotation only reorders: the output is a permutation of the input of the same length. */
  lemma RotationIsPermutation(v: MyVariant, input: seq<nat>)
    ensures |Rotation(v, input)| == |input|
    ensures multiset(Rotation(v, input)) == multiset(input)
  {
    if v.sort && |input| > 0 {
      var k := v.len % |input|;
      assert input == input[..k] + input[k..];
    }
  }

  /**
   * One pass of `execute`'s inner loop: the adjacent swaps at 1, 2, ...,
   * n - 1 carry the first element to the end.
   */
  method Bubble(out: array<nat>)
    requires out.Length > 0
    modifies out
    ensures out[..] == BubbledOnce(old(out[..]))
  {
    ghost var start := out[..];
    var n := out.Length;
    var i := 1;
    while i < n
      invariant 1 <= i <= n
      invariant forall j :: 0 <= j < i - 1 ==> out[j] == start[j + 1]
      invariant out[i - 1] == start[0]
      invariant forall j :: i <= j < n ==> out[j] == start[j]
    {
      out[i], out[i - 1] := out[i - 1], out[i];
      i := i + 1;
    }
    assert forall j :: 0 <= j < n ==> out[..][j] == BubbledOnce(start)[j];
  }

  /** `execute`: clones the input and, when `sort` is set, runs `len` bubbling passes over it. */
  method Execute(v: MyVariant, input: seq<nat>) returns (output: seq<nat>)
    ensures output == Rotation(v, input)
  {
    var out := new nat[|input|](k requires 0 <= k < |input| => input[k]);
    var n := out.Length;
    assert out[..] == input;
    if v.sort && n > 0 {
      assert RotateLeft(input, 0) == input;
      for pass := 0 to v.len
        invariant out[..] == RotateLeft(input, pass % n)
      {
        Bubble(out);
        RotateLeftStep(input, pass % n);
        ModSucc(pass, n);
      }
    }
    output := out[..];
  }

  /** `execute` as the experiment supplies it to `bench`; it never panics. */
  function Run(v: MyVariant, input: seq<nat>): Option<seq<nat>>
  {
    Some(Rotation(v, input))
  }

  /** The experiment keeps the default `expected_output` and `validate_output`. */
  function Exp(): Experiment<MyData, MyVariant, seq<nat>, seq<nat>>
  {
    WithDefaults(DataFactors, VariantFactors, Input, Run)
  }

  /** On every grid of levels no check fails, so `bench` runs the whole grid. */
  lemma EveryCheckPasses(ins: seq<MyData>, algs: seq<MyVariant>)
    ensures WellFormed(Exp(), ins, algs)
    ensures AllPass(Exp(), ins, algs)
  {
    DefaultsNeverAbort(DataFactors, VariantFactors, Input, Run, ins, algs);
  }

  lemma TestOutputs()
    ensures Rotation(MyVariant(1001, false), Input(MyData(2))) == [0, 1]
    ensures Rotation(MyVariant(1001, true), Input(MyData(2))) == [1, 0]
    ensures Rotation(MyVariant(1001, false), Input(MyData(5))) == [0, 1, 2, 3, 4]
    ensures Rotation(MyVariant(1001, true), Input(MyData(5))) == [1, 2, 3, 4, 0]
  {
    assert Input(MyData(2)) == [0, 1];
    assert Input(MyData(5)) == [0, 1, 2, 3, 4];
  }

  lemma Decimals()
    ensures DecimalString(2) == "2" && DecimalString(5) == "5" && DecimalString(1001) == "1001"
  {
    assert DecimalString(10) == "10";
    assert DecimalString(100) == "100";
  }

  lemma DataKeys()
    ensures DataFactors(MyData(2)).KeyLong() == "width:2" && DataFactors(MyData(2)).KeyShort() == "w:2"
    ensures DataFactors(MyData(5)).KeyLong() == "width:5" && DataFactors(MyData(5)).KeyShort() == "w:5"
  {
    Decimals();
  }

  lemma VariantLongKeys()
    ensures VariantFactors(MyVariant(1001, false)).KeyLong() == "len:1001_sort:false"
    ensures VariantFactors(MyVariant(1001, true)).KeyLong() == "len:1001_sort:true"
  {
    Decimals();
  }

  lemma VariantShortKeys()
    ensures VariantFactors(MyVariant(1001, false)).KeyShort() == "l:1001_s:F"
    ensures VariantFactors(MyVariant(1001, true)).KeyShort() == "l:1001_s:T"
  {
    Decimals();
  }

  /** The long run keys the test expects for width 2. */
  lemma TestLongKeysWidth2()
    ensures RunKeyLong(DataFactors(MyData(2)), VariantFactors(MyVariant(1001, false))) == "width:2/len:1001_sort:false"
    ensures RunKeyLong(DataFactors(MyData(2)), VariantFactors(MyVariant(1001, true))) == "width:2/len:1001_sort:true"
  {
    DataKeys();
    VariantLongKeys();
  }

  /** The long run keys the test expects for width 5. */
  lemma TestLongKeysWidth5()
    ensures RunKeyLong(DataFactors(MyData(5)), VariantFactors(MyVariant(1001, false))) == "width:5/len:1001_sort:false"
    ensures RunKeyLong(DataFactors(MyData(5)), VariantFactors(MyVariant(1001, true))) == "width:5/len:1001_sort:true"
  {
    DataKeys();
    VariantLongKeys();
  }

  /** The short run keys the test expects for width 2. */
  lemma TestShortKeysWidth2()
    ensures RunKeyShort(DataFactors(MyData(2)), VariantFactors(MyVariant(1001, false))) == "w:2/l:1001_s:F"
    ensures RunKeyShort(DataFactors(MyData(2)), VariantFactors(MyVariant(1001, true))) == "w:2/l:1001_s:T"
  {
    DataKeys();
    VariantShortKeys();
  }

  /** The short run keys the test expects for width 5. */
  lemma TestShortKeysWidth5()
    ensures RunKeyShort(DataFactors(MyData(5)), VariantFactors(MyVariant(1001, false))) == "w:5/l:1001_s:F"
    ensures RunKeyShort(DataFactors(MyData(5)), VariantFactors(MyVariant(1001, true))) == "w:5/l:1001_s:T"
  {
    DataKeys();
    VariantShortKeys();
  }
}
