/**
 * The experiment of the crate's test with an expected output
 * (src/tests/experiment_with_expected_output.rs): the input of level
 * (len, position) is the range [0, len) and the value at `position`, or
 * `usize::MAX` when that position is past the end; linear and binary search
 * must both return the position the linear scan finds.
 */
module SearchExperiment {
  import opened Wrappers
  import opened StdStr
  import opened FactorKeys
  import opened RunPaths
  import opened Search
  import opened ExperimentGrid

  type Usize = x: nat | x <= UsizeMax

  datatype MyData = MyData(len: Usize, position: Usize)

  datatype SearchMethod = Linear | Binary

  function DataFactors(d: MyData): (f: Factors)
    ensures f.Valid()
  {
    Factors(["len", "position"], [DecimalString(d.len), DecimalString(d.position)], None, None)
  }

  function MethodFactors(m: SearchMethod): (f: Factors)
    ensures f.Valid()
  {
    Factors(["search"], [if m == Linear then "lin" else "bin"], None, None)
  }

  /** The `(Vec<usize>, usize)` input: the slice and the value to look for. */
  datatype Input = Input(vec: seq<int>, value: int)

  /** `input`: the range, and its element at `position` or else `usize::MAX`. */
  function MakeInput(d: MyData): Input
  {
    var vec := Range(d.len);
    Input(vec, if d.position < |vec| then vec[d.position] else UsizeMax)
  }

  /** `execute`: a linear scan or a binary search for the value. */
  function Execute(m: SearchMethod, x: Input): Option<nat>
  {
    match m
    case Linear => Position(x.vec, x.value)
    case Binary => BinarySearch(x.vec, x.value)
  }

  function Exp(): Experiment<MyData, SearchMethod, Input, Option<nat>>
  {
    Experiment(DataFactors, MethodFactors, MakeInput, (m: SearchMethod, x: Input) => Some(Execute(m, x)),
               (d: MyData, x: Input) => Some(Position(x.vec, x.value)),
               (d: MyData, x: Input, y: Option<nat>) => true)
  }

  /**
   * Both methods find the value at `position` when it lies inside the range
   * and report it missing otherwise: `usize::MAX` never occurs in a range
   * of at most `usize::MAX` elements.
   */
  lemma ExecuteFindsPosition(d: MyData, m: SearchMethod)
    ensures Execute(m, MakeInput(d)) == if d.position < d.len then Some(d.position) else None
    ensures Execute(m, MakeInput(d)) == Position(MakeInput(d).vec, MakeInput(d).value)
  {
    var x := MakeInput(d);
    RangePosition(d.len, x.value);
    SearchesAgree(x.vec, x.value);
  }

  /**
   * On every grid of levels every check passes, so `bench` finishes
   * without aborting: the expected output always matches.
   */
  lemma EveryCheckPasses(ins: seq<MyData>, algs: seq<SearchMethod>)
    ensures WellFormed(Exp(), ins, algs)
    ensures AllPass(Exp(), ins, algs)
  {
    forall i, a | 0 <= i < |ins| && 0 <= a < |algs|
      ensures Check(Exp(), ins, algs, i, a).None?
    {
      ExecuteFindsPosition(ins[i], algs[a]);
    }
  }

  /** The outputs the test collects, in its order. */
  lemma TestOutputs()
    ensures [Execute(Linear, MakeInput(MyData(4, 2))), Execute(Binary, MakeInput(MyData(4, 2))),
             Execute(Linear, MakeInput(MyData(4, 5))), Execute(Binary, MakeInput(MyData(4, 5)))]
            == [Some(2), Some(2), None, None]
  {
    ExecuteFindsPosition(MyData(4, 2), Linear);
    ExecuteFindsPosition(MyData(4, 2), Binary);
    ExecuteFindsPosition(MyData(4, 5), Linear);
    ExecuteFindsPosition(MyData(4, 5), Binary);
  }

  lemma DataKeyPosition2()
    ensures DataFactors(MyData(4, 2)).KeyLong() == "len:4_position:2"
  {
    assert DecimalString(4) == "4" && DecimalString(2) == "2";
    Joined2("len", "position", "4", "2");
  }

  lemma DataKeyPosition5()
    ensures DataFactors(MyData(4, 5)).KeyLong() == "len:4_position:5"
  {
    assert DecimalString(4) == "4" && DecimalString(5) == "5";
    Joined2("len", "position", "4", "5");
  }

  lemma MethodKeys()
    ensures MethodFactors(Linear).KeyLong() == "search:lin"
    ensures MethodFactors(Binary).KeyLong() == "search:bin"
  {
  }

  /** The long run keys the test collects for the first level. */
  lemma TestKeysPosition2()
    ensures RunKeyLong(DataFactors(MyData(4, 2)), MethodFactors(Linear)) == "len:4_position:2/search:lin"
    ensures RunKeyLong(DataFactors(MyData(4, 2)), MethodFactors(Binary)) == "len:4_position:2/search:bin"
  {
    DataKeyPosition2();
    MethodKeys();
  }

  /** The long run keys the test collects for the second level. */
  lemma TestKeysPosition5()
    ensures RunKeyLong(DataFactors(MyData(4, 5)), MethodFactors(Linear)) == "len:4_position:5/search:lin"
    ensures RunKeyLong(DataFactors(MyData(4, 5)), MethodFactors(Binary)) == "len:4_position:5/search:bin"
  {
    DataKeyPosition5();
    MethodKeys();
  }
}
