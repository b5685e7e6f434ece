/**
 * The search benchmark of benches/my_test_bench.rs: the input of level
 * (len, position) is the range [0, 100 * len) and the value at index
 * 100 * position, or `usize::MAX` when that index is past the end; a
 * forward scan, a backward scan and a binary search look for it.
 */
module MyTestBench {
  import opened Wrappers
  import opened StdStr
  import opened FactorKeys
  import opened RunPaths
  import opened Search
  import opened ExperimentGrid
  import Arith

  datatype SortData = SortData(len: nat, position: nat)

  datatype SearchMethod = Linear | LinearBackwards | Binary

  /** Names `len`, `position` shortened to `l`, `p`; the values are not shortened. */
  function DataFactors(d: SortData): (f: Factors)
    ensures f.Valid()
  {
    Factors(["len", "position"], [DecimalString(d.len), DecimalString(d.position)], Some(["l", "p"]), None)
  }

  /** The long value is the `Debug` name of the method, the short one an abbreviation. */
  function MethodFactors(m: SearchMethod): (f: Factors)
    ensures f.Valid()
  {
    Factors(["search"], [match m case Linear => "Linear" case LinearBackwards => "LinearBackwards" case Binary => "Binary"],
            Some(["s"]), Some([match m case Linear => "lin" case LinearBackwards => "lin-bwd" case Binary => "bin"]))
  }

  datatype Input = Input(vec: seq<int>, value: int)

  /** The index `100 * position` as a `usize` product, which wraps around in a release build. */
  function WrappedIndex(d: SortData): nat
  {
    var index := 100 * d.position;
    if index <= UsizeMax then index else index % (UsizeMax + 1)
  }

  /** `input`: the range [0, 100 * len) and its element at the wrapped index, or else `usize::MAX`. */
  function MakeInput(d: SortData): Input
  {
    var vec := Range(100 * d.len);
    Input(vec, if WrappedIndex(d) < |vec| then vec[WrappedIndex(d)] else UsizeMax)
  }

  /** `execute`: scan from the front, scan from the back, or binary search. */
  function Execute(m: SearchMethod, x: Input): Option<nat>
  {
    match m
    case Linear => Position(x.vec, x.value)
    case LinearBackwards => LastPosition(x.vec, x.value)
    case Binary => BinarySearch(x.vec, x.value)
  }

  /** The experiment as `bench` runs it: the expected output is the forward scan's. */
  function Exp(): Experiment<SortData, SearchMethod, Input, Option<nat>>
  {
    Experiment(DataFactors, MethodFactors, MakeInput, (m: SearchMethod, x: Input) => Some(Execute(m, x)),
               (d: SortData, x: Input) => Some(Position(x.vec, x.value)),
               (d: SortData, x: Input, y: Option<nat>) => true)
  }

  /**
   * Each method finds the value at index 100 * position inside the range
   * and reports it missing past the end, as long as 100 * len fits in a
   * `usize`.
   */
  lemma ExecuteFindsPosition(d: SortData, m: SearchMethod)
    requires 100 * d.len <= UsizeMax
    ensures Execute(m, MakeInput(d)) == if WrappedIndex(d) < 100 * d.len then Some(WrappedIndex(d)) else None
    ensures 100 * d.position <= UsizeMax ==>
              Execute(m, MakeInput(d)) == if d.position < d.len then Some(100 * d.position) else None
    ensures Execute(m, MakeInput(d)) == Position(MakeInput(d).vec, MakeInput(d).value)
  {
    var x := MakeInput(d);
    RangePosition(100 * d.len, x.value);
    SearchesAgree(x.vec, x.value);
  }

  /** A position far past the end whose product wraps to 0 finds the first element. */
  lemma WrappedPositionFound(m: SearchMethod)
    ensures Execute(m, MakeInput(SortData(1, 0x4000_0000_0000_0000))) == Some(0)
  {
    var d := SortData(1, 0x4000_0000_0000_0000);
    Arith.ModUnique(100 * d.position, UsizeMax + 1, 25, 0);
    assert WrappedIndex(d) == 0;
    ExecuteFindsPosition(d, m);
  }

  /** Where the lengths fit in a `usize`, every check passes and `bench` never aborts. */
  lemma EveryCheckPasses(ins: seq<SortData>, algs: seq<SearchMethod>)
    requires forall i :: 0 <= i < |ins| ==> 100 * ins[i].len <= UsizeMax
    ensures WellFormed(Exp(), ins, algs)
    ensures AllPass(Exp(), ins, algs)
  {
    forall i, a | 0 <= i < |ins| && 0 <= a < |algs|
      ensures Check(Exp(), ins, algs, i, a).None?
    {
      ExecuteFindsPosition(ins[i], algs[a]);
    }
  }

  /** The first level of the benchmark puts the value's index past the end of the range. */
  lemma FirstLevelMisses(m: SearchMethod)
    ensures Execute(m, MakeInput(SortData(32, 1024))) == None
  {
    ExecuteFindsPosition(SortData(32, 1024), m);
  }

  /** Only the middle level places the value inside the range. */
  lemma MiddleLevelFinds(m: SearchMethod)
    ensures Execute(m, MakeInput(SortData(1024, 512))) == Some(51200)
  {
    ExecuteFindsPosition(SortData(1024, 512), m);
  }

  /** The last level again asks for an index past the end. */
  lemma LastLevelMisses(m: SearchMethod)
    ensures Execute(m, MakeInput(SortData(1048576, 2097152))) == None
  {
    ExecuteFindsPosition(SortData(1048576, 2097152), m);
  }

  lemma FirstLevelShortKey()
    ensures DataFactors(SortData(32, 1024)).KeyShort() == "l:32_p:1024"
  {
    assert DecimalString(32) == "32";
    assert DecimalString(102) == "102";
    assert DecimalString(1024) == "1024";
  }

  lemma MethodShortKeys()
    ensures MethodFactors(Linear).KeyShort() == "s:lin"
    ensures MethodFactors(LinearBackwards).KeyShort() == "s:lin-bwd"
    ensures MethodFactors(Binary).KeyShort() == "s:bin"
  {
  }

  /** The name the harness registers a run of the first level under. */
  lemma ShortKeysExample()
    ensures RunKeyShort(DataFactors(SortData(32, 1024)), MethodFactors(LinearBackwards)) == "l:32_p:1024/s:lin-bwd"
  {
    FirstLevelShortKey();
    MethodShortKeys();
  }

  /** A decimal text contains no separator of the key or run-key format. */
  lemma DecimalFree(n: nat)
    ensures SeparatorFree(DecimalString(n)) && '/' !in DecimalString(n)
  {
    var s := DecimalString(n);
    assert forall k :: 0 <= k < |s| ==> s[k] != '_' && s[k] != ':' && s[k] != '/';
  }

  /** Distinct treatments are registered under distinct short run keys. */
  lemma ShortRunKeysDistinct(d1: SortData, m1: SearchMethod, d2: SortData, m2: SearchMethod)
    requires RunKeyShort(DataFactors(d1), MethodFactors(m1)) == RunKeyShort(DataFactors(d2), MethodFactors(m2))
    ensures d1 == d2 && m1 == m2
  {
    var f1, f2 := DataFactors(d1), DataFactors(d2);
    DataKeysSlashFree(d1);
    DataKeysSlashFree(d2);
    RunKeysInjective(f1, MethodFactors(m1), f2, MethodFactors(m2));
    DataShortKeyInjective(d1, d2);
    JoinedInjective(MethodFactors(m1).NamesShort(), MethodFactors(m1).LevelsShort(),
                    MethodFactors(m2).NamesShort(), MethodFactors(m2).LevelsShort());
  }

  lemma DataKeysSlashFree(d: SortData)
    ensures '/' !in DataFactors(d).KeyLong() && '/' !in DataFactors(d).KeyShort()
  {
    var f := DataFactors(d);
    DecimalFree(d.len);
    DecimalFree(d.position);
    JoinedAvoids(f.names, f.levels, '/');
    JoinedAvoids(f.NamesShort(), f.LevelsShort(), '/');
  }

  /** Distinct data levels have distinct short keys. */
  lemma DataShortKeyInjective(d1: SortData, d2: SortData)
    requires DataFactors(d1).KeyShort() == DataFactors(d2).KeyShort()
    ensures d1 == d2
  {
    var f1, f2 := DataFactors(d1), DataFactors(d2);
    DecimalFree(d1.len);
    DecimalFree(d1.position);
    DecimalFree(d2.len);
    DecimalFree(d2.position);
    JoinedInjective(f1.NamesShort(), f1.LevelsShort(), f2.NamesShort(), f2.LevelsShort());
    assert f1.LevelsShort()[0] == f2.LevelsShort()[0] && f1.LevelsShort()[1] == f2.LevelsShort()[1];
    DecimalStringInjective(d1.len, d2.len);
    DecimalStringInjective(d1.position, d2.position);
  }

  /** The short level of a method contains neither `/` nor `:`. */
  lemma MethodShortLevelFree(m: SearchMethod)
    ensures '/' !in MethodFactors(m).LevelsShort()[0] && ':' !in MethodFactors(m).LevelsShort()[0]
  {
    var lv := MethodFactors(m).LevelsShort()[0];
    assert forall k :: 0 <= k < |lv| ==> lv[k] != '/' && lv[k] != ':';
  }

  /** The estimates folder of a treatment: `l_{len}_p_{position}_s_{method}`. */
  lemma FolderShape(d: SortData, m: SearchMethod)
    ensures Sanitised(RunKeyShort(DataFactors(d), MethodFactors(m)))
      == ("l" + "_" + DecimalString(d.len)) + "_" + ("p" + "_" + DecimalString(d.position)) + "_" + ("s" + "_" + MethodFactors(m).LevelsShort()[0])
  {
    var dl, dp, lv := DecimalString(d.len), DecimalString(d.position), MethodFactors(m).LevelsShort()[0];
    DecimalFree(d.len);
    DecimalFree(d.position);
    MethodShortLevelFree(m);
    Joined2("l", "p", dl, dp);
    assert RunKeyShort(DataFactors(d), MethodFactors(m)) == Pair("l", dl) + "_" + Pair("p", dp) + "/" + Pair("s", lv);
    SanitisedRunKey3("l", dl, "p", dp, "s", lv);
  }

  /**
   * Distinct treatments of the benchmark write their estimates to distinct
   * folders: the folder names keep every decimal and method abbreviation,
   * none of which contains `_`.
   */
  lemma EstimateFoldersDistinct(benchName: string, d1: SortData, m1: SearchMethod, d2: SortData, m2: SearchMethod)
    requires RunEstimatesPath(benchName, DataFactors(d1), MethodFactors(m1)) == RunEstimatesPath(benchName, DataFactors(d2), MethodFactors(m2))
    ensures d1 == d2 && m1 == m2
  {
    FolderShape(d1, m1);
    FolderShape(d2, m2);
    DecimalFree(d1.len);
    DecimalFree(d1.position);
    DecimalFree(d2.len);
    DecimalFree(d2.position);
    MethodShortLevelFree(m1);
    Folder3Injective("l", "p", "s", DecimalString(d1.len), DecimalString(d1.position), MethodFactors(m1).LevelsShort()[0],
                     DecimalString(d2.len), DecimalString(d2.position), MethodFactors(m2).LevelsShort()[0]);
    DecimalStringInjective(d1.len, d2.len);
    DecimalStringInjective(d1.position, d2.position);
  }
}
