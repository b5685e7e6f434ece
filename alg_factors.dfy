/**
 * `AlgFactors` (src/alg_factors.rs): the algorithm side of a treatment.
 * Its default short names and levels and its two keys are those of
 * `FactorKeys.Factors`; this module holds the documented examples.
 */
module AlgFactors {
  import opened Wrappers
  import opened StdStr
  import opened FactorKeys

  datatype Direction = Forwards | Backwards

  /** The `Params` variant of the documentation, with or without short forms. */
  function Params(numThreads: nat, direction: Direction, withShort: bool): (f: Factors)
    ensures f.Valid()
  {
    var long := [DecimalString(numThreads), if direction == Forwards then "Forwards" else "Backwards"];
    var short := [DecimalString(numThreads), if direction == Forwards then "F" else "B"];
    if withShort then Factors(["num_threads", "direction"], long, Some(["n", "d"]), Some(short))
    else Factors(["num_threads", "direction"], long, None, None)
  }

  /** Without overrides both keys are the long key. */
  lemma DefaultKeysExample()
    ensures Params(1, Forwards, false).KeyLong() == "num_threads:1_direction:Forwards"
    ensures Params(1, Forwards, false).KeyShort() == "num_threads:1_direction:Forwards"
  {
  }

  /** With overrides the short key uses the short names and levels. */
  lemma ShortKeysExample()
    ensures Params(4, Backwards, true).KeyLong() == "num_threads:4_direction:Backwards"
    ensures Params(4, Backwards, true).KeyShort() == "n:4_d:B"
  {
  }
}
