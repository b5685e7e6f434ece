/**
 * Identity and file locations of a treatment (src/experiment_sealed.rs).
 *
 * A path is modelled as the sequence of its segments, in the order they are
 * collected into a `PathBuf`.
 */
module RunPaths {
  import opened StdStr
  import opened FactorKeys

  /** `run_key_long`: the input's long key, `/`, the algorithm's long key. */
  function RunKeyLong(input: Factors, alg: Factors): string
    requires |input.names| == |input.levels| && |alg.names| == |alg.levels|
  {
    input.KeyLong() + "/" + alg.KeyLong()
  }

  /** `run_key_short`: the input's short key, `/`, the algorithm's short key. */
  function RunKeyShort(input: Factors, alg: Factors): string
    requires |input.NamesShort()| == |input.LevelsShort()|
    requires |alg.NamesShort()| == |alg.LevelsShort()|
  {
    input.KeyShort() + "/" + alg.KeyShort()
  }

  /**
   * A run key determines both of its keys as long as the input key has no
   * `/` of its own: distinct (input, algorithm) key pairs give distinct run
   * keys, in the long and in the short form.
   */
  lemma RunKeysInjective(i1: Factors, a1: Factors, i2: Factors, a2: Factors)
    requires i1.Valid() && a1.Valid() && i2.Valid() && a2.Valid()
    requires '/' !in i1.KeyLong() && '/' !in i2.KeyLong()
    requires '/' !in i1.KeyShort() && '/' !in i2.KeyShort()
    ensures RunKeyLong(i1, a1) == RunKeyLong(i2, a2) ==> i1.KeyLong() == i2.KeyLong() && a1.KeyLong() == a2.KeyLong()
    ensures RunKeyShort(i1, a1) == RunKeyShort(i2, a2) ==> i1.KeyShort() == i2.KeyShort() && a1.KeyShort() == a2.KeyShort()
  {
    if RunKeyLong(i1, a1) == RunKeyLong(i2, a2) {
      SplitAtFirst(i1.KeyLong(), a1.KeyLong(), i2.KeyLong(), a2.KeyLong(), '/');
    }
    if RunKeyShort(i1, a1) == RunKeyShort(i2, a2) {
      SplitAtFirst(i1.KeyShort(), a1.KeyShort(), i2.KeyShort(), a2.KeyShort(), '/');
    }
  }

  /**
   * The folder name of a run: the short run key with every `/` and then
   * every `:` replaced by `_`.  Each character is replaced by one
   * character, so only the two separators change.
   */
  function Sanitised(key: string): (r: string)
    ensures |r| == |key|
    ensures '/' !in r && ':' !in r
    ensures forall k :: 0 <= k < |key| && key[k] != '/' && key[k] != ':' ==> r[k] == key[k]
    ensures forall k :: 0 <= k < |key| && (key[k] == '/' || key[k] == ':') ==> r[k] == '_'
  {
    ReplaceChar(ReplaceChar(key, '/', '_'), ':', '_')
  }

  /** Sanitising a folder name again changes nothing. */
  lemma SanitisedIdempotent(key: string)
    ensures Sanitised(Sanitised(key)) == Sanitised(key)
  {
    var once := Sanitised(key);
    var twice := Sanitised(once);
    assert forall k :: 0 <= k < |once| ==> twice[k] == once[k];
  }

  /** Sanitising works character by character, so it distributes over concatenation. */
  lemma SanitisedAppend(a: string, b: string)
    ensures Sanitised(a + b) == Sanitised(a) + Sanitised(b)
  {
    ReplaceCharAppend(a, b, '/', '_');
    ReplaceCharAppend(ReplaceChar(a, '/', '_'), ReplaceChar(b, '/', '_'), ':', '_');
  }

  /** A text without `/` and `:` is its own folder name. */
  lemma SanitisedKeeps(key: string)
    requires '/' !in key && ':' !in key
    ensures Sanitised(key) == key
  {
    assert forall k :: 0 <= k < |key| ==> Sanitised(key)[k] == key[k];
  }

  /** In a folder name a `name:value` pair becomes `name_value`. */
  lemma SanitisedPair(name: string, value: string)
    requires '/' !in name && ':' !in name && '/' !in value && ':' !in value
    ensures Sanitised(Pair(name, value)) == name + "_" + value
  {
    assert Sanitised(":") == "_" by {
      assert Sanitised(":")[0] == '_';
    }
    calc {
      Sanitised(Pair(name, value));
      Sanitised((name + ":") + value);
      { SanitisedAppend(name + ":", value); }
      Sanitised(name + ":") + Sanitised(value);
      { SanitisedAppend(name, ":"); }
      Sanitised(name) + "_" + Sanitised(value);
      { SanitisedKeeps(name); SanitisedKeeps(value); }
      name + "_" + value;
    }
  }

  /**
   * The folder name of a run key with two input factors and one algorithm
   * factor, none of whose names and values contains `/` or `:`: the six
   * texts separated by `_`.
   */
  lemma SanitisedRunKey3(n0: string, v0: string, n1: string, v1: string, n2: string, v2: string)
    requires '/' !in n0 && ':' !in n0 && '/' !in v0 && ':' !in v0
    requires '/' !in n1 && ':' !in n1 && '/' !in v1 && ':' !in v1
    requires '/' !in n2 && ':' !in n2 && '/' !in v2 && ':' !in v2
    ensures Sanitised(Pair(n0, v0) + "_" + Pair(n1, v1) + "/" + Pair(n2, v2))
      == (n0 + "_" + v0) + "_" + (n1 + "_" + v1) + "_" + (n2 + "_" + v2)
  {
    var a, b, c := Pair(n0, v0), Pair(n1, v1), Pair(n2, v2);
    SanitisedAppend(a + "_" + b + "/", c);
    SanitisedAppend(a + "_" + b, "/");
    SanitisedAppend(a + "_", b);
    SanitisedAppend(a, "_");
    SanitisedKeeps("_");
    assert Sanitised("/") == "_" by {
      assert Sanitised("/")[0] == '_';
    }
    SanitisedPair(n0, v0);
    SanitisedPair(n1, v1);
    SanitisedPair(n2, v2);
  }

  /**
   * Such a folder name determines the values when names and values (all
   * but the last value) contain no `_`.
   */
  lemma {:induction false} Folder3Injective(n0: string, n1: string, n2: string, v0: string, v1: string, v2: string, w0: string, w1: string, w2: string)
    requires '_' !in n0 && '_' !in n1 && '_' !in n2
    requires '_' !in v0 && '_' !in v1 && '_' !in w0 && '_' !in w1
    requires (n0 + "_" + v0) + "_" + (n1 + "_" + v1) + "_" + (n2 + "_" + v2)
          == (n0 + "_" + w0) + "_" + (n1 + "_" + w1) + "_" + (n2 + "_" + w2)
    ensures v0 == w0 && v1 == w1 && v2 == w2
  {
    var c, c' := n2 + "_" + v2, n2 + "_" + w2;
    var t, t' := n1 + "_" + (v1 + "_" + c), n1 + "_" + (w1 + "_" + c');
    Nest3(n0, v0, n1 + "_" + v1, c);
    Nest3(n0, w0, n1 + "_" + w1, c');
    Nest2(n1, v1, c);
    Nest2(n1, w1, c');
    SplitAtFirst(n0, v0 + "_" + t, n0, w0 + "_" + t', '_');
    SplitAtFirst(v0, t, w0, t', '_');
    SplitAtFirst(n1, v1 + "_" + c, n1, w1 + "_" + c', '_');
    SplitAtFirst(v1, c, w1, c', '_');
    SplitAtFirst(n2, v2, n2, w2, '_');
  }

  /** Regrouping `(n_v)_b_c` as `n_(v_(b_c))`. */
  lemma Nest3(n: string, v: string, b: string, c: string)
    ensures (n + "_" + v) + "_" + b + "_" + c == n + "_" + (v + "_" + (b + "_" + c))
  {
  }

  /** Regrouping `(n_v)_c` as `n_(v_c)`. */
  lemma Nest2(n: string, v: string, c: string)
    ensures (n + "_" + v) + "_" + c == n + "_" + (v + "_" + c)
  {
  }

  /**
   * `run_estimates_path`: `target/criterion/{bench}/{folder}/new/estimates.json`,
   * where the folder is the sanitised short run key, a single path segment.
   */
  function RunEstimatesPath(benchName: string, input: Factors, alg: Factors): (p: seq<string>)
    requires |input.NamesShort()| == |input.LevelsShort()|
    requires |alg.NamesShort()| == |alg.LevelsShort()|
    ensures |p| == 6
    ensures p[..3] == ["target", "criterion", benchName]
    ensures p[4..] == ["new", "estimates.json"]
    ensures p[3] == Sanitised(RunKeyShort(input, alg))
    ensures '/' !in p[3] && ':' !in p[3] && |p[3]| == |RunKeyShort(input, alg)|
  {
    ["target", "criterion", benchName, Sanitised(RunKeyShort(input, alg)), "new", "estimates.json"]
  }

  /** `benchmark_file_path`: `benches/{bench}.rs`. */
  function BenchmarkFilePath(benchName: string): (p: seq<string>)
    ensures |p| == 2 && p[0] == "benches" && |p[1]| == |benchName| + 3
    ensures p[1][..|benchName|] == benchName && p[1][|benchName|..] == ".rs"
  {
    ["benches", benchName + ".rs"]
  }

  /** `summary_csv_path`: `target/criterion/{bench}/summary_{bench}.csv`. */
  function SummaryCsvPath(benchName: string): (p: seq<string>)
    ensures |p| == 4 && p[..3] == ["target", "criterion", benchName]
    ensures |p[3]| == |benchName| + 12
    ensures p[3][..8] == "summary_" && p[3][8..|benchName| + 8] == benchName && p[3][|benchName| + 8..] == ".csv"
  {
    ["target", "criterion", benchName, "summary_" + benchName + ".csv"]
  }

  /** `ai_prompt_path`: `target/criterion/{bench}/prompt_{bench}.md`. */
  function AiPromptPath(benchName: string): (p: seq<string>)
    ensures |p| == 4 && p[..3] == ["target", "criterion", benchName]
    ensures |p[3]| == |benchName| + 10
    ensures p[3][..7] == "prompt_" && p[3][7..|benchName| + 7] == benchName && p[3][|benchName| + 7..] == ".md"
  {
    ["target", "criterion", benchName, "prompt_" + benchName + ".md"]
  }

  /**
   * The summary table and the prompt are two different files placed in the
   * benchmark's own folder, next to the folders of its runs.
   */
  lemma ReportPathsInBenchFolder(benchName: string, input: Factors, alg: Factors)
    requires |input.NamesShort()| == |input.LevelsShort()|
    requires |alg.NamesShort()| == |alg.LevelsShort()|
    ensures |SummaryCsvPath(benchName)| == |AiPromptPath(benchName)| == 4
    ensures SummaryCsvPath(benchName)[..3] == AiPromptPath(benchName)[..3] == RunEstimatesPath(benchName, input, alg)[..3]
    ensures SummaryCsvPath(benchName) != AiPromptPath(benchName)
  {
    assert SummaryCsvPath(benchName)[3][0] == 's';
    assert AiPromptPath(benchName)[3][0] == 'p';
  }
}
