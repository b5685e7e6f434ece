/**
 * The experiment of the `Experiment` documentation (src/experiment.rs): an
 * array of decimal texts in which the word `criterion` is placed in the
 * middle, or nowhere, and a search that splits the array into one chunk
 * per thread and searches each chunk forwards or backwards.
 *
 * The threads only read the array and their answers are combined in chunk
 * order, so the search is modelled as the sequential pass over the chunks
 * that gives the same answer.
 */
module SearchDocExample {
  import opened Wrappers
  import opened StdStr
  import opened FactorKeys
  import opened Search
  import opened AlgFactors
  import opened Arith
  import opened ExperimentGrid

  /** `ValuePosition`; `Absent` is the variant the documentation calls `None`. */
  datatype ValuePosition = Mid | Absent

  /** `Settings`: long levels use the `Debug` names, short ones `M` and `X`. */
  function SettingsFactors(len: nat, position: ValuePosition): (f: Factors)
    ensures f.Valid()
  {
    Factors(["len", "position"], [DecimalString(len), if position == Mid then "Mid" else "None"],
            Some(["l", "p"]), Some([DecimalString(len), if position == Mid then "M" else "X"]))
  }

  const SearchValue: string := "criterion"

  /** The input: the array (`elements`), and the position of the search value cached for validation. */
  datatype DocInput = DocInput(elements: seq<string>, position: Option<nat>)

  /**
   * `input`: the texts of 0, 1, ..., len - 1, with the element at the
   * chosen index replaced by the search value when that index exists.
   */
  function MakeInput(len: nat, position: ValuePosition): DocInput
  {
    var elements := seq(len, i requires 0 <= i < len => DecimalString(i));
    var index := if position == Mid then len / 2 else len;
    if index < |elements| then DocInput(elements[index := SearchValue], Some(index))
    else DocInput(elements, None)
  }

  /** No decimal text is the search value. */
  lemma DecimalIsNotSearchValue(n: nat)
    ensures DecimalString(n) != SearchValue
  {
    assert !IsDigit(SearchValue[0]);
  }

  /**
   * The cached position is where the search value is, and the only place:
   * it is the first occurrence, and no other index holds the value.
   */
  lemma InputPosition(len: nat, position: ValuePosition)
    ensures MakeInput(len, position).position == Position(MakeInput(len, position).elements, SearchValue)
    ensures forall j :: 0 <= j < |MakeInput(len, position).elements| && MakeInput(len, position).elements[j] == SearchValue ==>
              MakeInput(len, position).position == Some(j)
    ensures MakeInput(len, position).position.Some? <==> position == Mid && len > 0
  {
    var x := MakeInput(len, position);
    forall j | 0 <= j < |x.elements| && (x.position.None? || j != x.position.value)
      ensures x.elements[j] != SearchValue
    {
      DecimalIsNotSearchValue(j);
    }
    if x.position.Some? {
      assert x.elements[x.position.value] == SearchValue;
    }
    match Position(x.elements, SearchValue)
    case Some(k) =>
      assert x.elements[k] == SearchValue;
    case None =>
  }

  /** The search of one chunk in the given direction, as an index into the chunk. */
  function ChunkSearch(chunk: seq<string>, direction: Direction): (r: Option<nat>)
    ensures r.Some? ==> r.value < |chunk| && chunk[r.value] == SearchValue
    ensures r.None? ==> SearchValue !in chunk
  {
    if direction == Forwards then Position(chunk, SearchValue) else LastPosition(chunk, SearchValue)
  }

  /**
   * The chunks of size `size` from `begin` on, searched in order, with the
   * first answer found translated to an index into the whole array; a
   * chunk that holds the value is always searched before a later one.
   */
  function SearchChunks(elements: seq<string>, size: nat, begin: nat, direction: Direction): (r: Option<nat>)
    requires size > 0
    ensures r.Some? ==> begin <= r.value < |elements| && elements[r.value] == SearchValue
    ensures r.Some? && direction == Forwards ==> forall j :: begin <= j < r.value ==> elements[j] != SearchValue
    ensures r.None? ==> forall j :: begin <= j < |elements| ==> elements[j] != SearchValue
    decreases |elements| - begin
  {
    if begin >= |elements| then None
    else
      var end := if begin + size < |elements| then begin + size else |elements|;
      assert forall j :: begin <= j < end ==> elements[j] == elements[begin..end][j - begin];
      match ChunkSearch(elements[begin..end], direction)
      case Some(k) => Some(begin + k)
      case None => SearchChunks(elements, size, end, direction)
  }

  /**
   * `execute`: the chunk size is the length divided by the number of
   * threads.  `None` stands for the panics of a zero thread count (division
   * by zero) and of a zero chunk size (`chunks` refuses it).
   */
  function Execute(numThreads: nat, direction: Direction, input: DocInput): (r: Option<Option<nat>>)
    ensures r.None? <==> numThreads == 0 || |input.elements| < numThreads
    ensures r.Some? && r.value.Some? ==> r.value.value < |input.elements| && input.elements[r.value.value] == SearchValue
    ensures r.Some? && r.value.None? ==> SearchValue !in input.elements
  {
    if numThreads == 0 then None
    else
      DivIsZero(|input.elements|, numThreads);
      var size := |input.elements| / numThreads;
      if size == 0 then None
      else Some(SearchChunks(input.elements, size, 0, direction))
  }

  /** `expected_output`: the cached position. */
  function ExpectedOutput(input: DocInput): Option<Option<nat>>
  {
    Some(input.position)
  }

  /**
   * `validate_output`: a returned index must hold the search value (an
   * index past the end panics as well), and no result means that no element
   * is the search value.
   */
  predicate ValidateOutput(input: DocInput, output: Option<nat>)
  {
    match output
    case Some(p) => p < |input.elements| && input.elements[p] == SearchValue
    case None => SearchValue !in input.elements
  }

  /** Whatever the array, every output `execute` returns passes validation. */
  lemma ExecuteIsValid(numThreads: nat, direction: Direction, input: DocInput)
    requires Execute(numThreads, direction, input).Some?
    ensures ValidateOutput(input, Execute(numThreads, direction, input).value)
  {
  }

  /**
   * On the experiment's own inputs every thread count up to the length and
   * both directions return the expected output: the value occurs at most
   * once, so the forward and the backward search agree.
   */
  lemma {:induction false} ExecuteMatchesExpected(len: nat, position: ValuePosition, numThreads: nat, direction: Direction)
    requires 0 < numThreads <= len
    ensures Execute(numThreads, direction, MakeInput(len, position)) == ExpectedOutput(MakeInput(len, position))
  {
    var x := MakeInput(len, position);
    InputPosition(len, position);
    var r := Execute(numThreads, direction, x).value;
    if r.Some? {
      assert x.position == Some(r.value);
    }
  }

  /** The cached position passes validation as well. */
  lemma ExpectedIsValid(len: nat, position: ValuePosition)
    ensures ValidateOutput(MakeInput(len, position), MakeInput(len, position).position)
  {
    InputPosition(len, position);
  }

  /** A level of `Settings`. */
  datatype SettingsLevel = SettingsLevel(len: nat, position: ValuePosition)

  /** A level of `Params`. */
  datatype ParamsLevel = ParamsLevel(numThreads: nat, direction: Direction)

  /** The experiment as `bench` runs it: `execute` panics (`None`) on a bad thread count. */
  function Exp(): Experiment<SettingsLevel, ParamsLevel, DocInput, Option<nat>>
  {
    Experiment(
      (s: SettingsLevel) => SettingsFactors(s.len, s.position),
      (p: ParamsLevel) => Params(p.numThreads, p.direction, true),
      (s: SettingsLevel) => MakeInput(s.len, s.position),
      (p: ParamsLevel, x: DocInput) => Execute(p.numThreads, p.direction, x),
      (s: SettingsLevel, x: DocInput) => ExpectedOutput(x),
      (s: SettingsLevel, x: DocInput, y: Option<nat>) => ValidateOutput(x, y))
  }

  /** The thread count of `p` is positive and at most the array length of `s`. */
  predicate Fits(s: SettingsLevel, p: ParamsLevel)
  {
    0 < p.numThreads <= s.len
  }

  /** Every thread count is positive and at most every array length. */
  predicate ThreadsFit(ins: seq<SettingsLevel>, algs: seq<ParamsLevel>)
  {
    forall i, a :: 0 <= i < |ins| && 0 <= a < |algs| ==> Fits(ins[i], algs[a])
  }

  /**
   * `bench` runs the whole grid exactly when every thread count is positive
   * and at most every array length; otherwise some `execute` panics.
   */
  lemma EveryCheckPassesIff(ins: seq<SettingsLevel>, algs: seq<ParamsLevel>)
    ensures WellFormed(Exp(), ins, algs)
    ensures AllPass(Exp(), ins, algs) <==> ThreadsFit(ins, algs)
  {
    forall i, a | 0 <= i < |ins| && 0 <= a < |algs|
      ensures Check(Exp(), ins, algs, i, a).None? <==> Fits(ins[i], algs[a])
    {
      var s, p := ins[i], algs[a];
      if Fits(s, p) {
        ExecuteMatchesExpected(s.len, s.position, p.numThreads, p.direction);
        ExpectedIsValid(s.len, s.position);
      }
    }
    if !AllPass(Exp(), ins, algs) {
      var i, a :| 0 <= i < |ins| && 0 <= a < |algs| && Check(Exp(), ins, algs, i, a).Some?;
      assert !Fits(ins[i], algs[a]);
    } else {
      assert ThreadsFit(ins, algs);
    }
  }

  /** The input of the demonstration in the documentation: length 4, value in the middle. */
  lemma DocInputExample()
    ensures MakeInput(4, Mid).elements == ["0", "1", SearchValue, "3"]
    ensures MakeInput(4, Mid).position == Some(2)
  {
    assert DecimalString(0) == "0" && DecimalString(1) == "1" && DecimalString(3) == "3";
  }

  /** The run of the demonstration: 4 threads searching backwards find the expected, valid index. */
  lemma DocRunExample()
    ensures Execute(4, Backwards, MakeInput(4, Mid)) == ExpectedOutput(MakeInput(4, Mid)) == Some(Some(2))
    ensures ValidateOutput(MakeInput(4, Mid), Some(2))
  {
    ExecuteMatchesExpected(4, Mid, 4, Backwards);
    ExpectedIsValid(4, Mid);
  }
}
