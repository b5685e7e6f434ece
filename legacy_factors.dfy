/**
 * The older factor-set traits `Data` (src/data.rs) and `Variant`
 * (src/variant.rs).  Both have long names and values, short forms that
 * default to them, and two keys built by the join of src/data.rs, which is a
 * copy of the join of src/input_factors.rs.
 */
module LegacyFactors {
  import opened Wrappers
  import opened StdStr
  import opened FactorKeys

  /**
   * `data::join`, written out as in src/data.rs; it computes the same key
   * as `FactorKeys.Join` on every input.
   */
  method DataJoin(names: seq<string>, values: seq<string>) returns (s: string)
    requires |names| == |values|
    ensures s == Joined(names, values)
  {
    match |names|
    case 0 =>
      s := "";
    case 1 =>
      s := names[0] + ":" + values[0];
    case n =>
      s := "";
      s := s + (names[0] + ":" + values[0]);
      assert names[..1] == [names[0]] && values[..1] == [values[0]];
      for i := 1 to n
        invariant s == Joined(names[..i], values[..i])
      {
        JoinedSnoc(names[..i], values[..i], names[i], values[i]);
        assert names[..i + 1] == names[..i] + [names[i]];
        assert values[..i + 1] == values[..i] + [values[i]];
        s := s + ("_" + names[i] + ":" + values[i]);
      }
      assert names[..n] == names && values[..n] == values;
  }

  /** The `Data` levels of the crate's tests: no factors, one, and three with short forms. */
  function NoFactors(): Factors
  {
    Factors([], [], None, None)
  }

  function Width(w: nat): Factors
  {
    Factors(["width"], [DecimalString(w)], None, None)
  }

  function LenSortSplit(len: nat, sort: bool, split: char): Factors
  {
    Factors(["len", "sort", "split"], [DecimalString(len), BoolString(sort), [split]],
            Some(["l", "srt", "sp"]), Some([DecimalString(len), if sort then "T" else "F", [split]]))
  }

  /** `key_long` of `Data` with no factor and with one factor. */
  lemma DataKeysExample()
    ensures NoFactors().KeyLong() == ""
    ensures Width(42).KeyLong() == "width:42"
  {
  }

  /** The long and short values of the three-factor level of the tests. */
  lemma LenSortSplitLevels()
    ensures LenSortSplit(9876543210, true, '7').levels == ["9876543210", "true", "7"]
    ensures LenSortSplit(9876543210, true, '7').LevelsShort() == ["9876543210", "T", "7"]
  {
    LongDecimal();
  }

  lemma ShortDecimal()
    ensures DecimalString(9876) == "9876"
  {
    assert DecimalString(98) == "98";
  }

  lemma LongDecimal()
    ensures DecimalString(9876543210) == "9876543210"
  {
    ShortDecimal();
    assert DecimalString(98765) == "98765";
    assert DecimalString(9876543) == "9876543";
  }

  /** `key_long` of `Data` with three factors. */
  lemma DataLongKeyExample()
    ensures LenSortSplit(9876543210, true, '7').KeyLong() == "len:9876543210_sort:true_split:7"
  {
    LenSortSplitLevels();
  }

  /** `key_short` of `Data` with three factors and short forms. */
  lemma DataShortKeyExample()
    ensures LenSortSplit(9876543210, true, '7').KeyShort() == "l:9876543210_srt:T_sp:7"
  {
    LenSortSplitLevels();
  }

  datatype ParLib = OrxParallel | Rayon
  datatype Approach = Find | Any

  /** The `SearchAlg` variant of the `Variant` documentation. */
  function SearchAlg(parLib: ParLib, numThreads: nat, chunkSize: nat, approach: Approach): (f: Factors)
    ensures f.Valid()
  {
    Factors(
      ["par_lib", "num_threads", "chunk_size", "approach"],
      [if parLib == OrxParallel then "OrxParallel" else "Rayon", DecimalString(numThreads),
       DecimalString(chunkSize), if approach == Find then "Find" else "Any"],
      Some(["lib", "nt", "ch", "app"]),
      Some([if parLib == OrxParallel then "X" else "R", DecimalString(numThreads),
            DecimalString(chunkSize), if approach == Find then "F" else "A"]))
  }

  /** `to_str_short` of `Variant` joins the short parameter names and values. */
  lemma VariantStringsExample()
    ensures SearchAlg(Rayon, 8, 64, Any).KeyShort() == "lib:R_nt:8_ch:64_app:A"
  {
    SearchAlgShortForms();
    Joined4("lib", "nt", "ch", "app", "R", "8", "64", "A");
  }

  lemma SearchAlgShortForms()
    ensures SearchAlg(Rayon, 8, 64, Any).NamesShort() == ["lib", "nt", "ch", "app"]
    ensures SearchAlg(Rayon, 8, 64, Any).LevelsShort() == ["R", "8", "64", "A"]
  {
    assert DecimalString(64) == "64";
  }
}
