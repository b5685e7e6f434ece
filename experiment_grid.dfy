/**
 * The full-factorial grid runner `Experiment::bench` (src/experiment.rs).
 *
 * An experiment supplies how to build an input from an input level, how to
 * execute an algorithm level on an input, and optionally an expected output
 * and an extra validation.  `bench` visits input levels in the outer loop
 * and algorithm levels in the inner loop, builds each input once, registers
 * every treatment with the timing harness under its short run key and checks
 * the first output of every treatment; a failed check aborts the whole run.
 */
module ExperimentGrid {
  import opened Wrappers
  import opened FactorKeys
  import opened RunPaths
  import opened Arith

  /**
   * An implementation of the `Experiment` trait over input levels `L`,
   * algorithm levels `A`, inputs `In` and outputs `Out`.
   * `execute` returns `None` and `validateOutput` returns false where the
   * Rust method would panic.
   */
  datatype Experiment<!L, !A, !In, !Out> = Experiment(
    inputFactors: L -> Factors,
    algFactors: A -> Factors,
    input: L -> In,
    execute: (A, In) -> Option<Out>,
    expectedOutput: (L, In) -> Option<Out>,
    validateOutput: (L, In, Out) -> bool)

  /**
   * An experiment that implements only the required methods: the default
   * `expected_output` is `None` and the default `validate_output` does nothing.
   */
  function WithDefaults<L, A, In, Out>(
    inputFactors: L -> Factors, algFactors: A -> Factors,
    input: L -> In, execute: (A, In) -> Option<Out>): Experiment<L, A, In, Out>
  {
    Experiment(inputFactors, algFactors, input, execute,
               (l: L, x: In) => None, (l: L, x: In, y: Out) => true)
  }

  /** The factor sets of the input levels, in order. */
  function InputFactorsOf<L, A, In, Out>(exp: Experiment<L, A, In, Out>, ins: seq<L>): (fs: seq<Factors>)
    ensures |fs| == |ins| && forall i :: 0 <= i < |ins| ==> fs[i] == exp.inputFactors(ins[i])
  {
    seq(|ins|, i requires 0 <= i < |ins| => exp.inputFactors(ins[i]))
  }

  /** The factor sets of the algorithm levels, in order. */
  function AlgFactorsOf<L, A, In, Out>(exp: Experiment<L, A, In, Out>, algs: seq<A>): (fs: seq<Factors>)
    ensures |fs| == |algs| && forall a :: 0 <= a < |algs| ==> fs[a] == exp.algFactors(algs[a])
  {
    seq(|algs|, a requires 0 <= a < |algs| => exp.algFactors(algs[a]))
  }

  predicate AllValid(fs: seq<Factors>)
  {
    forall k :: 0 <= k < |fs| ==> fs[k].Valid()
  }

  /** Every level supplies names and values of matching lengths. */
  predicate WellFormed<L, A, In, Out>(exp: Experiment<L, A, In, Out>, ins: seq<L>, algs: seq<A>)
  {
    AllValid(InputFactorsOf(exp, ins)) && AllValid(AlgFactorsOf(exp, algs))
  }

  /**
   * The identity of one treatment: its 1-based flat index, its 1-based
   * input and algorithm indices and the factor sets of both levels.
   */
  datatype Treatment = Treatment(idx: nat, i: nat, a: nat, input: Factors, alg: Factors)
  {
    predicate Valid()
    {
      input.Valid() && alg.Valid()
    }

    /** The run key used in failure messages. */
    function KeyLong(): string
      requires Valid()
    {
      RunKeyLong(input, alg)
    }

    /** The name the treatment is registered under with the timing harness. */
    function KeyShort(): string
      requires Valid()
    {
      RunKeyShort(input, alg)
    }
  }

  /** What `bench` does, in order: build the input of a level, or register a treatment. */
  datatype Step = BuildInput(i: nat) | Register(t: Treatment)

  datatype Failure =
    | ExecutePanicked                    // `execute` panicked on its first call
    | InvalidOutput                      // `validate_output` panicked
    | UnexpectedOutput(message: string)  // the `assert_eq!` against `expected_output` failed

  datatype Outcome = Finished | Aborted(i: nat, a: nat, failure: Failure)

  datatype BenchRun = BenchRun(steps: seq<Step>, outcome: Outcome)

  /** The treatment of input level `i` and algorithm level `a` (both 0-based). */
  function Cell(inFs: seq<Factors>, algFs: seq<Factors>, i: nat, a: nat): Treatment
    requires i < |inFs| && a < |algFs|
  {
    Treatment(i * |algFs| + a + 1, i + 1, a + 1, inFs[i], algFs[a])
  }

  /**
   * The custom part of the panic message of the failed comparison with the
   * expected output.  `assert_eq!` writes it after its own
   * "assertion `left == right` failed: " and follows it with both values;
   * those parts are not modelled.
   */
  const MismatchPrefix: string := "Output of run is not equal to expected output. Run: "

  function MismatchMessage(runKey: string): string
  {
    MismatchPrefix + runKey
  }

  /**
   * The checks made on the first execution of treatment (i, a): `execute`
   * on the level's input, then `validate_output`, then, when an expected
   * output is given, equality with it.  `None` when all of them pass.
   */
  function Check<L, A, In, Out(==)>(exp: Experiment<L, A, In, Out>, ins: seq<L>, algs: seq<A>, i: nat, a: nat): Option<Failure>
    requires WellFormed(exp, ins, algs) && i < |ins| && a < |algs|
  {
    var x := exp.input(ins[i]);
    match exp.execute(algs[a], x)
    case None => Some(ExecutePanicked)
    case Some(output) =>
      if !exp.validateOutput(ins[i], x, output) then Some(InvalidOutput)
      else match exp.expectedOutput(ins[i], x)
        case None => None
        case Some(expected) =>
          if output == expected then None
          else Some(UnexpectedOutput(MismatchMessage(RunKeyLong(exp.inputFactors(ins[i]), exp.algFactors(algs[a])))))
  }

  predicate AllPass<L, A, In, Out(==)>(exp: Experiment<L, A, In, Out>, ins: seq<L>, algs: seq<A>)
    requires WellFormed(exp, ins, algs)
  {
    forall i, a :: 0 <= i < |ins| && 0 <= a < |algs| ==> Check(exp, ins, algs, i, a).None?
  }

  /** Every treatment of the first `n` input levels passes its checks. */
  predicate RowsPass<L, A, In, Out(==)>(exp: Experiment<L, A, In, Out>, ins: seq<L>, algs: seq<A>, n: nat)
    requires WellFormed(exp, ins, algs) && n <= |ins|
  {
    forall i', a' :: 0 <= i' < n && 0 <= a' < |algs| ==> Check(exp, ins, algs, i', a').None?
  }

  /** Every treatment visited before (i, a) passes its checks. */
  predicate PassBefore<L, A, In, Out(==)>(exp: Experiment<L, A, In, Out>, ins: seq<L>, algs: seq<A>, i: nat, a: nat)
    requires WellFormed(exp, ins, algs) && i < |ins| && a <= |algs|
  {
    && (forall i', a' :: 0 <= i' < i && 0 <= a' < |algs| ==> Check(exp, ins, algs, i', a').None?)
    && (forall a' :: 0 <= a' < a ==> Check(exp, ins, algs, i, a').None?)
  }

  /** The registrations of the first `n` algorithm levels for input level `i`. */
  function RowSteps(inFs: seq<Factors>, algFs: seq<Factors>, i: nat, n: nat): seq<Step>
    requires i < |inFs| && n <= |algFs|
  {
    if n == 0 then [] else RowSteps(inFs, algFs, i, n - 1) + [Register(Cell(inFs, algFs, i, n - 1))]
  }

  /** The steps of the first `n` input levels when every check passes. */
  function GridSteps(inFs: seq<Factors>, algFs: seq<Factors>, n: nat): seq<Step>
    requires n <= |inFs|
  {
    if n == 0 then []
    else GridSteps(inFs, algFs, n - 1) + [BuildInput(n)] + RowSteps(inFs, algFs, n - 1, |algFs|)
  }

  /**
   * The inner loop of `bench` for input level `i0` (0-based), whose input
   * has been built: registers and checks every algorithm level in order and
   * stops at the first failing check.
   */
  method BenchInput<L, A, In, Out(==)>(exp: Experiment<L, A, In, Out>, ins: seq<L>, algs: seq<A>, i0: nat, input: In)
    returns (row: seq<Step>, outcome: Outcome)
    requires WellFormed(exp, ins, algs) && i0 < |ins| && input == exp.input(ins[i0])
    ensures outcome.Finished? ==>
      && row == RowSteps(InputFactorsOf(exp, ins), AlgFactorsOf(exp, algs), i0, |algs|)
      && forall a' :: 0 <= a' < |algs| ==> Check(exp, ins, algs, i0, a').None?
    ensures outcome.Aborted? ==>
      && outcome.i == i0 && outcome.a < |algs|
      && Check(exp, ins, algs, i0, outcome.a) == Some(outcome.failure)
      && (forall a' :: 0 <= a' < outcome.a ==> Check(exp, ins, algs, i0, a').None?)
      && row == RowSteps(InputFactorsOf(exp, ins), AlgFactorsOf(exp, algs), i0, outcome.a + 1)
  {
    ghost var inFs, algFs := InputFactorsOf(exp, ins), AlgFactorsOf(exp, algs);
    var numA := |algs|;
    var i := i0 + 1;
    var inputF := exp.inputFactors(ins[i0]);
    row := [];
    for a0 := 0 to numA
      invariant row == RowSteps(inFs, algFs, i0, a0)
      invariant forall a' :: 0 <= a' < a0 ==> Check(exp, ins, algs, i0, a').None?
    {
      var a := a0 + 1;
      var idx := (i - 1) * numA + a;
      var t := Treatment(idx, i, a, inputF, exp.algFactors(algs[a0]));
      assert t == Cell(inFs, algFs, i0, a0);
      row := row + [Register(t)];
      var result := exp.execute(algs[a0], input);
      if result.None? {
        return row, Aborted(i0, a0, ExecutePanicked);
      }
      var output := result.value;
      if !exp.validateOutput(ins[i0], input, output) {
        return row, Aborted(i0, a0, InvalidOutput);
      }
      var expected := exp.expectedOutput(ins[i0], input);
      if expected.Some? && output != expected.value {
        assert inFs[i0].Valid() && algFs[a0].Valid();
        return row, Aborted(i0, a0, UnexpectedOutput(MismatchMessage(t.KeyLong())));
      }
    }
    return row, Finished;
  }

  /**
   * `bench`.  When every check passes, the run goes through the whole grid;
   * otherwise it stops at the first failing treatment, in grid order, after
   * registering it, and reports that treatment and why it failed.
   */
  method Bench<L, A, In, Out(==)>(exp: Experiment<L, A, In, Out>, ins: seq<L>, algs: seq<A>) returns (run: BenchRun)
    requires WellFormed(exp, ins, algs)
    ensures run.outcome.Finished? <==> AllPass(exp, ins, algs)
    ensures run.outcome.Finished? ==> run.steps == GridSteps(InputFactorsOf(exp, ins), AlgFactorsOf(exp, algs), |ins|)
    ensures run.outcome.Aborted? ==>
      && run.outcome.i < |ins| && run.outcome.a < |algs|
      && Check(exp, ins, algs, run.outcome.i, run.outcome.a) == Some(run.outcome.failure)
      && PassBefore(exp, ins, algs, run.outcome.i, run.outcome.a)
      && run.steps == GridSteps(InputFactorsOf(exp, ins), AlgFactorsOf(exp, algs), run.outcome.i)
                      + [BuildInput(run.outcome.i + 1)]
                      + RowSteps(InputFactorsOf(exp, ins), AlgFactorsOf(exp, algs), run.outcome.i, run.outcome.a + 1)
  {
    ghost var inFs, algFs := InputFactorsOf(exp, ins), AlgFactorsOf(exp, algs);
    var numI := |ins|;
    var steps: seq<Step> := [];
    for i0 := 0 to numI
      invariant steps == GridSteps(inFs, algFs, i0)
      invariant RowsPass(exp, ins, algs, i0)
    {
      var i := i0 + 1;
      var input := exp.input(ins[i0]);
      steps := steps + [BuildInput(i)];
      var row, outcome := BenchInput(exp, ins, algs, i0, input);
      steps := steps + row;
      if outcome.Aborted? {
        assert PassBefore(exp, ins, algs, i0, outcome.a);
        assert Check(exp, ins, algs, i0, outcome.a).Some?;
        assert !AllPass(exp, ins, algs);
        return BenchRun(steps, outcome);
      }
      assert steps == GridSteps(inFs, algFs, i0 + 1);
      assert RowsPass(exp, ins, algs, i0 + 1);
    }
    assert AllPass(exp, ins, algs);
    return BenchRun(steps, Finished);
  }

  lemma {:induction false} RowStepsLength(inFs: seq<Factors>, algFs: seq<Factors>, i: nat, n: nat)
    requires i < |inFs| && n <= |algFs|
    ensures |RowSteps(inFs, algFs, i, n)| == n
  {
    if n > 0 {
      RowStepsLength(inFs, algFs, i, n - 1);
    }
  }

  lemma {:induction false} RowStepAt(inFs: seq<Factors>, algFs: seq<Factors>, i: nat, n: nat, a: nat)
    requires i < |inFs| && a < n <= |algFs|
    ensures a < |RowSteps(inFs, algFs, i, n)|
    ensures RowSteps(inFs, algFs, i, n)[a] == Register(Cell(inFs, algFs, i, a))
  {
    RowStepsLength(inFs, algFs, i, n - 1);
    if a < n - 1 {
      RowStepAt(inFs, algFs, i, n - 1, a);
    }
  }

  /** Where the input of level `i` (0-based) is built in the full grid. */
  function BuildPos(numA: nat, i: nat): nat
  {
    i * (numA + 1)
  }

  /** Where treatment (i, a) (0-based) is registered in the full grid. */
  function RegisterPos(numA: nat, i: nat, a: nat): nat
  {
    i * (numA + 1) + 1 + a
  }

  lemma {:induction false} GridStepsLength(inFs: seq<Factors>, algFs: seq<Factors>, n: nat)
    requires n <= |inFs|
    ensures |GridSteps(inFs, algFs, n)| == n * (|algFs| + 1)
  {
    if n > 0 {
      GridStepsLength(inFs, algFs, n - 1);
      RowStepsLength(inFs, algFs, n - 1, |algFs|);
      assert (n - 1) * (|algFs| + 1) + (|algFs| + 1) == n * (|algFs| + 1);
    }
  }

  lemma {:induction false} GridBuildAt(inFs: seq<Factors>, algFs: seq<Factors>, n: nat, i: nat)
    requires i < n <= |inFs|
    ensures BuildPos(|algFs|, i) < |GridSteps(inFs, algFs, n)|
    ensures GridSteps(inFs, algFs, n)[BuildPos(|algFs|, i)] == BuildInput(i + 1)
  {
    var prev := GridSteps(inFs, algFs, n - 1);
    GridStepsLength(inFs, algFs, n - 1);
    GridStepsLength(inFs, algFs, n);
    assert GridSteps(inFs, algFs, n) == prev + [BuildInput(n)] + RowSteps(inFs, algFs, n - 1, |algFs|);
    if i < n - 1 {
      GridBuildAt(inFs, algFs, n - 1, i);
      MulStrict(i, n - 1, |algFs| + 1);
      assert BuildPos(|algFs|, i) < |prev|;
    } else {
      assert BuildPos(|algFs|, i) == |prev|;
    }
  }

  lemma {:induction false} GridRegisterAt(inFs: seq<Factors>, algFs: seq<Factors>, n: nat, i: nat, a: nat)
    requires i < n <= |inFs| && a < |algFs|
    ensures RegisterPos(|algFs|, i, a) < |GridSteps(inFs, algFs, n)|
    ensures GridSteps(inFs, algFs, n)[RegisterPos(|algFs|, i, a)] == Register(Cell(inFs, algFs, i, a))
  {
    var prev := GridSteps(inFs, algFs, n - 1);
    var row := RowSteps(inFs, algFs, n - 1, |algFs|);
    var pos := RegisterPos(|algFs|, i, a);
    GridStepsLength(inFs, algFs, n - 1);
    RowStepsLength(inFs, algFs, n - 1, |algFs|);
    assert GridSteps(inFs, algFs, n) == prev + [BuildInput(n)] + row;
    assert |GridSteps(inFs, algFs, n)| == |prev| + 1 + |algFs|;
    if i < n - 1 {
      GridRegisterAt(inFs, algFs, n - 1, i, a);
      assert pos < |prev|;
      assert GridSteps(inFs, algFs, n)[pos] == prev[pos];
    } else {
      RowStepAt(inFs, algFs, n - 1, |algFs|, a);
      assert i * (|algFs| + 1) == (n - 1) * (|algFs| + 1);
      assert pos == |prev| + 1 + a;
      assert (prev + [BuildInput(n)] + row)[|prev| + 1 + a] == row[a];
      assert row[a] == Register(Cell(inFs, algFs, i, a));
    }
  }

  /**
   * The shape of a run that goes through the whole grid: for every input
   * level in order, its input is built once and then every algorithm level
   * is registered, in order.
   */
  lemma FullGridShape(inFs: seq<Factors>, algFs: seq<Factors>)
    ensures |GridSteps(inFs, algFs, |inFs|)| == |inFs| * (|algFs| + 1)
    ensures forall i :: 0 <= i < |inFs| ==>
      BuildPos(|algFs|, i) < |GridSteps(inFs, algFs, |inFs|)| &&
      GridSteps(inFs, algFs, |inFs|)[BuildPos(|algFs|, i)] == BuildInput(i + 1)
    ensures forall i, a :: 0 <= i < |inFs| && 0 <= a < |algFs| ==>
      RegisterPos(|algFs|, i, a) < |GridSteps(inFs, algFs, |inFs|)| &&
      GridSteps(inFs, algFs, |inFs|)[RegisterPos(|algFs|, i, a)] == Register(Cell(inFs, algFs, i, a))
  {
    var n := |inFs|;
    GridStepsLength(inFs, algFs, n);
    forall i | 0 <= i < n
      ensures BuildPos(|algFs|, i) < |GridSteps(inFs, algFs, n)|
      ensures GridSteps(inFs, algFs, n)[BuildPos(|algFs|, i)] == BuildInput(i + 1)
    {
      GridBuildAt(inFs, algFs, n, i);
    }
    forall i, a | 0 <= i < n && 0 <= a < |algFs|
      ensures RegisterPos(|algFs|, i, a) < |GridSteps(inFs, algFs, n)|
      ensures GridSteps(inFs, algFs, n)[RegisterPos(|algFs|, i, a)] == Register(Cell(inFs, algFs, i, a))
    {
      GridRegisterAt(inFs, algFs, n, i, a);
    }
  }

  /**
   * The flat index runs over 1 ..= num_i * num_a and grows in visiting
   * order: input levels outer, algorithm levels inner.
   */
  lemma CellIdxOrder(inFs: seq<Factors>, algFs: seq<Factors>, i: nat, a: nat, i': nat, a': nat)
    requires i < |inFs| && a < |algFs| && i' < |inFs| && a' < |algFs|
    ensures 1 <= Cell(inFs, algFs, i, a).idx <= |inFs| * |algFs|
    ensures Cell(inFs, algFs, i, a).idx < Cell(inFs, algFs, i', a').idx <==> i < i' || (i == i' && a < a')
  {
    MulStrict(i, |inFs|, |algFs|);
    if i < i' {
      MulStrict(i, i', |algFs|);
    } else if i' < i {
      MulStrict(i', i, |algFs|);
    }
  }

  /** Distinct treatments have distinct flat indices. */
  lemma CellIdxInjective(inFs: seq<Factors>, algFs: seq<Factors>, i: nat, a: nat, i': nat, a': nat)
    requires i < |inFs| && a < |algFs| && i' < |inFs| && a' < |algFs|
    ensures Cell(inFs, algFs, i, a).idx == Cell(inFs, algFs, i', a').idx <==> i == i' && a == a'
  {
    if i < i' {
      MulStrict(i, i', |algFs|);
    } else if i' < i {
      MulStrict(i', i, |algFs|);
    }
  }

  /**
   * With the default `expected_output` and `validate_output` the only check
   * left is that `execute` does not panic: `bench` never aborts exactly
   * when no treatment's execution panics.
   */
  lemma DefaultsNeverAbort<L, A, In, Out>(
    inputFactors: L -> Factors, algFactors: A -> Factors,
    input: L -> In, execute: (A, In) -> Option<Out>, ins: seq<L>, algs: seq<A>)
    requires WellFormed(WithDefaults(inputFactors, algFactors, input, execute), ins, algs)
    ensures AllPass(WithDefaults(inputFactors, algFactors, input, execute), ins, algs) <==>
      forall i, a :: 0 <= i < |ins| && 0 <= a < |algs| ==> execute(algs[a], input(ins[i])).Some?
  {
    var exp := WithDefaults(inputFactors, algFactors, input, execute);
    forall i, a | 0 <= i < |ins| && 0 <= a < |algs|
      ensures Check(exp, ins, algs, i, a).None? <==> execute(algs[a], input(ins[i])).Some?
    {
    }
  }
}
