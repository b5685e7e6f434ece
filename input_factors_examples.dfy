/** The documented examples of `InputFactors` (src/input_factors.rs). */
module InputFactorsExamples {
  import opened Wrappers
  import opened StdStr
  import opened FactorKeys

  datatype ValuePosition = Beg | Mid | End

  /** The `Settings` input of the documentation, with or without short forms. */
  function Settings(len: nat, position: ValuePosition, withShort: bool): (f: Factors)
    ensures f.Valid()
  {
    var long := [DecimalString(len), match position case Beg => "Beg" case Mid => "Mid" case End => "End"];
    var short := [DecimalString(len), match position case Beg => "B" case Mid => "M" case End => "E"];
    if withShort then Factors(["len", "position"], long, Some(["l", "p"]), Some(short))
    else Factors(["len", "position"], long, None, None)
  }

  lemma DocExampleKeys()
    ensures Settings(1024, Mid, false).KeyLong() == "len:1024_position:Mid"
    ensures Settings(1024, Mid, false).KeyShort() == "len:1024_position:Mid"
    ensures Settings(1024, Mid, true).KeyLong() == "len:1024_position:Mid"
    ensures Settings(1024, Mid, true).KeyShort() == "l:1024_p:M"
  {
  }
}
