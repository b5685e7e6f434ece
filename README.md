# orx-criterion, modelled in Dafny

orx-criterion runs full-factorial benchmark experiments on top of criterion.
An experiment names its input levels and its algorithm levels by factor
sets. A factor set is an ordered list of factor names, each with a value.
`bench` visits every (input level, algorithm level) pair, called a
treatment. It builds each input once. It registers every treatment with the
timing harness under a key made from the two factor sets. Before timing, it
checks the first output of each treatment. After the run, the slope
estimates are read back from the `estimates.json` files that criterion
writes.

This project models that core:

- **Keys** (`FactorKeys`, `LegacyFactors`, `AlgFactors`,
  `InputFactorsExamples`, `Treatment`).
  - A key writes each factor as `name:value` and separates factors by `_`.
  - One recursive definition, `Joined`, states what a key is.
  - The loop-built `join`, its copy in `data.rs`, and `Treatment::to_string`
    are methods proved equal to it.
  - `Treatment::fmt` is modelled as written; see Findings.
  - One datatype, `Factors`, stands for every factor-set trait. Each of them
    has long names and values, short forms that default to the long ones,
    and two keys built by the same join.
- **Run keys and paths** (`RunPaths`). A run key is the input key, `/`, then
  the algorithm key. The estimates folder is the short run key with `/`
  and `:` replaced by `_`. Paths are sequences of segments.
- **The grid runner** (`ExperimentGrid`).
  - An experiment is a datatype of functions: factor sets, `input`,
    `execute`, `expected_output` and `validate_output`.
  - `bench` is a method that returns its trace (build an input, register a
    treatment) and an outcome: finished, or aborted at the first failing
    check. A check fails when `execute` panics (`None` in the model), when
    `validate_output` rejects the output, or when it differs from
    `expected_output`.
- **Reading estimates back** (`Summary`). The leftmost scan for `"slope"`,
  then `"point_estimate":`, then `,`, plus the treatments × variants matrix.
- **The experiments in the crate's tests, documentation and benches**
  (`RotationExperiment`, `SearchExperiment`, `MyTestBench`,
  `SearchDocExample`, `TwoSum`). Each has its inputs, algorithms and
  expected outputs. For `RotationExperiment`, `SearchExperiment` and
  `MyTestBench` (while 100·len fits in a `usize`) every check `bench` makes
  passes. `SearchDocExample` passes exactly when every thread count lies in
  1..=len. Two-sum validation passes exactly when the draw is ordered as
  `TwoSum.ValidationPassesIff` states.
- **Shared helpers.** `Search` holds the standard-library slice searches the
  fixtures call. `StdStr` holds the string operations of the core.

The properties proved include:

- Every key builder computes `Joined`.
- A key determines its names and values when no name or value contains a
  separator.
- Sanitising a folder name is idempotent.
- `bench` finishes exactly when every check passes: no `execute` panics,
  every output is valid and equals any expected output. It then registers
  the treatments in grid order, with 1-based flat indices that follow that
  order.
- Distinct treatments of `my_test_bench` write distinct `estimates.json`
  files.
- The slope scan round-trips: a text built around a number yields exactly
  that number, and every yielded text decomposes that way.
- The three searches agree on strictly increasing input.
- The two-sum scan returns a pair summing to the target, at the first
  element whose complement occurs, and all four stores agree on that
  element.
- The two-sum benchmark's validation passes exactly when the two drawn
  indices are in increasing order.

## Model

| member | source | states |
|---|---|---|
| FactorKeys.Joined | src/input_factors.rs:182-196 | the key format: no pair gives `""`, one pair gives `name:value`, more pairs are joined by `_` (reference definition for every key builder) |
| FactorKeys.Join | src/input_factors.rs:182-196 | the `push_str` loop of `join` returns exactly `Joined(names, values)` for every input, in all three branches |
| FactorKeys.JoinedSnoc | src/input_factors.rs:190-192 | one more loop round appends `_name:value` to a non-empty key |
| FactorKeys.JoinedLength | src/input_factors.rs:188-193 | key length is the sum of \|name\|+\|value\|+1 over the pairs, plus one underscore between each two pairs |
| FactorKeys.JoinedAvoids | src/input_factors.rs:186-191 | a character other than `:` and `_` appears in a key only if it appears in some name or value |
| FactorKeys.SplitAtFirst | src/experiment_sealed.rs:12 | splitting at the first separator absent from the left part has one decomposition |
| FactorKeys.JoinedInjective | src/input_factors.rs:182-196 | for separator-free names and values, equal keys mean equal name lists and equal value lists |
| FactorKeys.DefaultShortKeyIsLong | src/input_factors.rs:157-179 | without short-form overrides `key_short == key_long` |
| FactorKeys.Factors.NamesShort | src/input_factors.rs:157-159 | `factor_names_short`: the override when one is given, otherwise the long names (the default method) |
| FactorKeys.Factors.LevelsShort | src/input_factors.rs:163-165 | `factor_levels_short`: the override when one is given, otherwise the long values (the default method) |
| FactorKeys.Factors.KeyLong | src/input_factors.rs:170-172 | `key_long` is `Joined` of the long names and values |
| FactorKeys.Factors.KeyShort | src/input_factors.rs:177-179 | `key_short` is `Joined` of the short names and values |
| FactorKeys.KeyLongInjective | src/alg_factors.rs:82-83 | two levels of one factor set with separator-free values and equal keys have equal values |
| InputFactorsExamples.Settings | src/input_factors.rs:100-121 | the documented `Settings` factor set has matching name, value and short-form lengths |
| LegacyFactors.DataJoin | src/data.rs:23-37 | the copy of `join` in `data.rs` computes `Joined` too, so both joins agree on every input |
| LegacyFactors.DataKeysExample | src/tests/data.rs:19-38 | zero factors give `""`, one factor gives `width:42` |
| LegacyFactors.LenSortSplitLevels | src/tests/data.rs:58-75 | the long values are `9876543210, true, 7` and the short ones `9876543210, T, 7` |
| LegacyFactors.DataLongKeyExample | src/tests/data.rs:84 | `key_long` is `len:9876543210_sort:true_split:7` |
| LegacyFactors.DataShortKeyExample | src/tests/data.rs:85 | `key_short` is `l:9876543210_srt:T_sp:7` |
| LegacyFactors.SearchAlg | src/variant.rs:107-140 | the documented `SearchAlg` variant has matching name, value and short-form lengths |
| LegacyFactors.SearchAlgShortForms | src/variant.rs:112-140 | the short names of `SearchAlg` are `lib, nt, ch, app`, and its short values for `(Rayon, 8, 64, Any)` are `R, 8, 64, A` |
| LegacyFactors.VariantStringsExample | src/variant.rs:107-162 | `to_str_short` of `SearchAlg(Rayon, 8, 64, Any)` is `lib:R_nt:8_ch:64_app:A` |
| AlgFactors.Params | src/alg_factors.rs:117-140 | the documented `Params` factor set has matching lengths |
| AlgFactors.DefaultKeysExample | src/alg_factors.rs:75-79 | without overrides both keys are `num_threads:1_direction:Forwards` |
| AlgFactors.ShortKeysExample | src/alg_factors.rs:147-148 | with overrides the keys are `num_threads:4_direction:Backwards` and `n:4_d:B` |
| InputFactorsExamples.DocExampleKeys | src/input_factors.rs:71-72 | the documented keys: `len:1024_position:Mid` long and short without overrides, `l:1024_p:M` short with them |
| Treatment.Formatter.constructor | src/treatment.rs:6-8 | a formatter starts with nothing written |
| Treatment.Formatter.WriteStr | src/treatment.rs:9-17 | `write!` appends its text to what the formatter holds |
| Treatment.ToString | src/treatment.rs:25-46 | `to_string` over the two fixed-length arrays returns `Joined(names, values)` |
| Treatment.FirstEverywhere | src/treatment.rs:16-17 | the list that repeats the first element, as long as the original |
| Treatment.Fmt | src/treatment.rs:6-23 | `fmt` as written appends `Joined` of the first name and value repeated N times |
| Treatment.FmtCorrected | src/treatment.rs:6-23 | `fmt` with the loop indexing `[i]` appends exactly `Joined(names, values)`, the text of `to_string` |
| Treatment.FmtAgreesWithToStringIff | src/treatment.rs:11-19 | for separator-free factors, `fmt` as written agrees with `to_string` iff every pair equals the first |
| Treatment.ToStringExample | src/tests/treatment.rs:69 | the three-factor treatment reads `len:9876543210_sort:true_split:7` |
| Treatment.FmtRepeatsFirstPair | src/treatment.rs:11-19 | on that treatment `fmt` as written writes `len:9876543210_len:9876543210_len:9876543210` |
| Treatment.FirstPairEverywhere | src/treatment.rs:16-17 | the names and values `fmt` reads on that treatment are the first ones, three times |
| Treatment.FirstPairThrice | src/treatment.rs:11-19 | the first pair joined three times is the text above |
| RunPaths.RunKeysInjective | src/experiment_sealed.rs:7-23 | if input keys contain no `/`, equal run keys (long or short) have equal input keys and equal algorithm keys |
| RunPaths.RunKeyLong | src/experiment_sealed.rs:7-13 | `run_key_long`: the input's long key, `/`, the algorithm's long key |
| RunPaths.RunKeyShort | src/experiment_sealed.rs:17-23 | `run_key_short`: the input's short key, `/`, the algorithm's short key |
| RunPaths.Sanitised | src/experiment_sealed.rs:33-36 | the folder name has the key's length, has no `/` and no `:`, replaces exactly those two characters by `_` and keeps every other character |
| RunPaths.SanitisedIdempotent | src/experiment_sealed.rs:33-36 | sanitising twice is the same as sanitising once |
| RunPaths.RunEstimatesPath | src/experiment_sealed.rs:27-47 | six segments: `target`, `criterion`, the bench name, the short run key with `/` and `:` replaced by `_` (a separator-free folder as long as the key), `new`, `estimates.json` |
| RunPaths.SummaryCsvPath | src/experiment_sealed.rs:56-65 | four segments: `target`, `criterion`, the bench name, then `summary_` followed by the bench name and `.csv` |
| RunPaths.AiPromptPath | src/experiment_sealed.rs:69-78 | four segments: `target`, `criterion`, the bench name, then `prompt_` followed by the bench name and `.md` |
| RunPaths.SanitisedAppend | src/experiment_sealed.rs:33-36 | sanitising a concatenation sanitises each part |
| RunPaths.SanitisedKeeps | src/experiment_sealed.rs:33-36 | a key without `/` and `:` is its own folder name |
| RunPaths.SanitisedPair | src/experiment_sealed.rs:33-36 | a `name:value` pair of separator-free parts becomes `name_value` |
| RunPaths.SanitisedRunKey3 | src/experiment_sealed.rs:33-36 | a short run key of two input pairs and one algorithm pair becomes the six parts joined by `_` |
| RunPaths.Folder3Injective | src/experiment_sealed.rs:33-36 | two folders made of the same three separator-free names and `_`-free values are equal only if the values are |
| RunPaths.BenchmarkFilePath | src/experiment_sealed.rs:50-52 | `benches` then the bench name followed by `.rs` |
| RunPaths.ReportPathsInBenchFolder | src/experiment_sealed.rs:56-78 | the summary CSV and the prompt are two distinct files in the bench folder that holds the run folders |
| StdStr.DecimalString | src/tests/experiment.rs:14-16 | `usize::to_string` is a non-empty string of digits |
| StdStr.DecimalStringInjective | src/alg_factors.rs:82-85 | distinct numbers get distinct decimal texts, so default string levels keep keys unique |
| StdStr.BoolString | src/tests/experiment.rs:34 | `bool::to_string`: `true` or `false` |
| StdStr.ReplaceChar | src/experiment_sealed.rs:35-36 | `replace` of one character keeps the length and replaces exactly the matching characters |
| StdStr.ReplaceCharAppend | src/experiment_sealed.rs:35-36 | replacing in a concatenation is replacing in each part |
| StdStr.FindFrom | src/summary.rs:38 | the search from a start position before which the pattern does not occur returns the leftmost occurrence, or `None` when there is none |
| StdStr.Find | src/summary.rs:38 | `find` returns the leftmost occurrence, and `None` only when there is none |
| ExperimentGrid.InputFactorsOf | src/experiment.rs:364-365 | the factor sets of the input levels, one per level, in caller order |
| ExperimentGrid.AlgFactorsOf | src/experiment.rs:371 | the factor sets of the algorithm levels, one per level, in caller order |
| ExperimentGrid.BenchInput | src/experiment.rs:370-392 | the inner loop registers algorithm levels in order. It stops right after registering the first treatment whose check fails and reports it; otherwise every check of the row passes |
| ExperimentGrid.WithDefaults | src/experiment.rs:329-340 | an experiment with the default `expected_output` (`None`) and `validate_output` (accepts every output) |
| ExperimentGrid.Cell | src/experiment.rs:364-373 | treatment (i, a) has flat index i·num_a + a + 1, 1-based input and algorithm indices and the two levels' factor sets |
| ExperimentGrid.MismatchMessage | src/experiment.rs:384-387 | the custom text of the `assert_eq!` panic: the fixed prefix followed by the long run key |
| ExperimentGrid.Check | src/experiment.rs:380-388 | the checks of the closure's first call: a panicking `execute`, then `validate_output`, then equality with the expected output when one is given; `None` when all pass |
| ExperimentGrid.Bench | src/experiment.rs:347-398 | finishes iff every treatment passes its check (`execute` does not panic, the output is valid and matches any expected output). When finished, the trace is the full grid. When aborted, it names the first failing treatment in grid order and why, every earlier one passed, and the trace stops right after it |
| ExperimentGrid.RowStepsLength | src/experiment.rs:371 | a row registers one treatment per algorithm level |
| ExperimentGrid.RowStepAt | src/experiment.rs:371-380 | the a-th step of a row registers treatment (i, a) |
| ExperimentGrid.GridStepsLength | src/experiment.rs:364-371 | a full grid has num_i × (num_a + 1) steps: one input build plus num_a registrations per input level |
| ExperimentGrid.GridBuildAt | src/experiment.rs:370 | the input of level i is built at position i·(num_a+1), before its row |
| ExperimentGrid.GridRegisterAt | src/experiment.rs:371-380 | treatment (i, a) is registered at position i·(num_a+1)+1+a |
| ExperimentGrid.FullGridShape | src/experiment.rs:364-380 | a finished run builds each input once, before its row, and then registers every algorithm level in order |
| ExperimentGrid.CellIdxOrder | src/experiment.rs:366-373 | the flat index `(i-1)*num_a + a` lies in 1..=num_t and increases in visiting order |
| ExperimentGrid.CellIdxInjective | src/experiment.rs:373 | distinct treatments have distinct flat indices |
| ExperimentGrid.DefaultsNeverAbort | src/experiment.rs:329-340 | with the default `expected_output` (`None`) and `validate_output` (no-op) every check passes iff no `execute` panics |
| Summary.SlopeEstimateText | src/summary.rs:37-49 | the text handed to the parser contains no comma |
| Summary.GetSlopePointEstimate | src/summary.rs:32-52 | a result is the parse of the scanned text; no scanned text means no result |
| Summary.ScanFindsEstimate | src/summary.rs:37-49 | round trip: contents built from a prefix without `"slope"`, `"slope"`, a gap without `"point_estimate":`, that marker, a comma-free number and a comma yield that number |
| Summary.ScanDecompose | src/summary.rs:37-49 | converse: any yielded text comes from contents of exactly that shape, with the first `"slope"` and the first marker after it |
| Summary.FindIs | src/summary.rs:38-48 | an occurrence with none before it is what `find` returns |
| Summary.NoSlopeNoEstimate | src/summary.rs:38 | contents without `"slope"` yield nothing |
| Summary.NullSlopeTakesNextEstimate | src/summary.rs:37-45 | a `null` slope is not special-cased: the next point estimate after the marker is taken |
| Summary.CollectPointEstimates | src/summary.rs:13-30 | one row per treatment and one cell per variant; cell [i][j] is the estimate read from the file of (treatments[i], variants[j]) |
| Summary.MissingFileNoEstimate | src/summary.rs:33-35 | an unopenable or unreadable file gives no estimate |
| Summary.SlopeExample | src/summary.rs:37-49 | a slope object yields its own point estimate, `17.5` |
| Summary.NullSlopeExample | src/summary.rs:37-45 | a `null` slope followed by `std_dev` yields the `std_dev` estimate, `42.0` |
| Search.Position | src/tests/experiment_with_expected_output.rs:62 | `position` returns the first index holding the value, and `None` only if it is absent |
| Search.Reversed | benches/my_test_bench.rs:80 | `rev` yields the elements back to front |
| Search.LastPosition | benches/my_test_bench.rs:78-82 | the reversed search mapped by `len - x - 1` returns the last index holding the value, and `None` only if it is absent |
| Search.Halve | src/tests/experiment_with_expected_output.rs:63 | the halving loop returns only an index inside its window that holds the value; on a sorted slice `None` means absent |
| Search.BinarySearch | src/tests/experiment_with_expected_output.rs:63 | `binary_search(..).ok()` returns only indices holding the value, and on sorted input `None` means absent |
| Search.SearchesAgree | benches/my_test_bench.rs:74-85 | on strictly increasing input the forward, backward and binary searches return the same answer |
| Search.RepeatedValueSplitsSearches | benches/my_test_bench.rs:77-82 | with a repeated value the forward and backward searches differ (`[7, 7]`: 0 and 1) |
| Search.Range | src/tests/experiment_with_expected_output.rs:49 | `(0..n).collect()` holds k at index k |
| Search.RangePosition | src/tests/experiment_with_expected_output.rs:49-50 | the range is strictly increasing and x sits at index x exactly when x < n |
| RotationExperiment.DataFactors | src/tests/experiment.rs:5-17 | `MyData`'s factor set has matching lengths |
| RotationExperiment.VariantFactors | src/tests/experiment.rs:24-47 | `MyVariant`'s factor set has matching lengths |
| RotationExperiment.Input | src/tests/experiment.rs:60-62 | the input of width n is 0, 1, …, n-1 |
| RotationExperiment.RotateLeftStep | src/tests/experiment.rs:68-70 | one more rotation by one place moves the head of the rotated sequence to its end |
| RotationExperiment.Rotation | src/tests/experiment.rs:64-74 | what `execute` computes: the input rotated left by `len mod n` when `sort` is set and the input is not empty, the input otherwise |
| RotationExperiment.RotationIsPermutation | src/tests/experiment.rs:64-74 | the output has the input's length and is a permutation of it |
| RotationExperiment.Bubble | src/tests/experiment.rs:68-70 | the swaps at 1, …, n-1 move the first element to the end and shift the rest forward |
| RotationExperiment.Execute | src/tests/experiment.rs:64-74 | `execute` returns the input rotated left by `len mod n` when `sort` is set (identity otherwise or when empty) |
| RotationExperiment.EveryCheckPasses | src/tests/experiment.rs:49-75 | the experiment, with the default checks and a non-panicking `execute`, is well formed and every check passes |
| RotationExperiment.TestOutputs | src/tests/experiment.rs:104-112 | outputs `[0,1]`, `[1,0]`, `[0,1,2,3,4]`, `[1,2,3,4,0]` |
| RotationExperiment.DataKeys | src/tests/experiment.rs:5-17 | data keys `width:2`/`w:2` and `width:5`/`w:5` |
| RotationExperiment.VariantLongKeys | src/tests/experiment.rs:33-35 | `len:1001_sort:false` and `len:1001_sort:true` |
| RotationExperiment.VariantShortKeys | src/tests/experiment.rs:29-46 | `l:1001_s:F` and `l:1001_s:T` |
| RotationExperiment.TestLongKeysWidth2 | src/tests/experiment.rs:117-118 | long run keys of width 2 |
| RotationExperiment.TestLongKeysWidth5 | src/tests/experiment.rs:119-120 | long run keys of width 5 |
| RotationExperiment.TestShortKeysWidth2 | src/tests/experiment.rs:127-128 | short run keys of width 2 |
| RotationExperiment.TestShortKeysWidth5 | src/tests/experiment.rs:129-130 | short run keys of width 5 |
| SearchExperiment.DataFactors | src/tests/experiment_with_expected_output.rs:6-14 | `MyData`'s factor set has matching lengths |
| SearchExperiment.MethodFactors | src/tests/experiment_with_expected_output.rs:21-35 | `SearchMethod`'s factor set has matching lengths |
| SearchExperiment.MakeInput | src/tests/experiment_with_expected_output.rs:48-52 | `input`: the range 0..len and its element at `position`, or `usize::MAX` past the end |
| SearchExperiment.Execute | src/tests/experiment_with_expected_output.rs:59-65 | `execute`: the linear scan or `binary_search(..).ok()` for the value |
| SearchExperiment.ExecuteFindsPosition | src/tests/experiment_with_expected_output.rs:48-65 | both methods return `Some(p)` when p < n and `None` otherwise, the same as the expected output |
| SearchExperiment.EveryCheckPasses | src/tests/experiment_with_expected_output.rs:81-83 | on every grid of levels, every expected-output check passes |
| SearchExperiment.TestOutputs | src/tests/experiment_with_expected_output.rs:88 | outputs `[Some(2), Some(2), None, None]` |
| SearchExperiment.DataKeyPosition2 | src/tests/experiment_with_expected_output.rs:11-13 | `len:4_position:2` |
| SearchExperiment.DataKeyPosition5 | src/tests/experiment_with_expected_output.rs:11-13 | `len:4_position:5` |
| SearchExperiment.MethodKeys | src/tests/experiment_with_expected_output.rs:26-34 | `search:lin` and `search:bin` |
| SearchExperiment.TestKeysPosition2 | src/tests/experiment_with_expected_output.rs:93-94 | run keys of the first level |
| SearchExperiment.TestKeysPosition5 | src/tests/experiment_with_expected_output.rs:95-96 | run keys of the second level |
| MyTestBench.DataFactors | benches/my_test_bench.rs:6-18 | `SortData`'s factor set has matching lengths |
| MyTestBench.MethodFactors | benches/my_test_bench.rs:27-50 | `SearchMethod`'s factor set has matching lengths |
| MyTestBench.WrappedIndex | benches/my_test_bench.rs:65 | the index `100 * position` as a `usize`, wrapped modulo 2^64 as in a release build |
| MyTestBench.MakeInput | benches/my_test_bench.rs:63-67 | `input`: the range 0..100·len and its element at the wrapped index, or `usize::MAX` past the end |
| MyTestBench.Execute | benches/my_test_bench.rs:74-85 | `execute`: the forward scan, the backward scan (its index mapped back) or `binary_search(..).ok()` |
| MyTestBench.ExecuteFindsPosition | benches/my_test_bench.rs:63-85 | where 100·len fits in a `usize`, all three methods return the index `100·position` (wrapped to a `usize`) when it lies in the range and `None` otherwise, equal to the expected output; without wrap-around that is `Some(100·position)` iff position < len |
| MyTestBench.WrappedPositionFound | benches/my_test_bench.rs:63-66 | position 2^62 wraps to index 0, so the value sought is 0 and every method returns `Some(0)` |
| MyTestBench.EveryCheckPasses | benches/my_test_bench.rs:69-85 | on every grid whose lengths fit, no check fails and `bench` does not abort |
| MyTestBench.FirstLevelMisses | benches/my_test_bench.rs:90 | level (1<<5, 1<<10): every method returns `None` |
| MyTestBench.MiddleLevelFinds | benches/my_test_bench.rs:91 | level (1<<10, 1<<9): every method returns `Some(51200)` |
| MyTestBench.LastLevelMisses | benches/my_test_bench.rs:92 | level (1<<20, 1<<21): every method returns `None` |
| MyTestBench.FirstLevelShortKey | benches/my_test_bench.rs:11-17 | short data key `l:32_p:1024` |
| MyTestBench.MethodShortKeys | benches/my_test_bench.rs:40-49 | short method keys `s:lin`, `s:lin-bwd`, `s:bin`, pairwise distinct |
| MyTestBench.ShortKeysExample | benches/my_test_bench.rs:11-49 | a short run key of the bench |
| MyTestBench.DecimalFree | benches/my_test_bench.rs:15-17 | a decimal level contains none of `_`, `:` and `/` |
| MyTestBench.DataKeysSlashFree | benches/my_test_bench.rs:6-17 | neither data key contains `/`, so the run key splits at its first `/` |
| MyTestBench.ShortRunKeysDistinct | benches/my_test_bench.rs:11-49 | distinct treatments get distinct short run keys |
| MyTestBench.MethodShortLevelFree | benches/my_test_bench.rs:22-49 | the short level of every search method has no `_`, `/` or `:` |
| MyTestBench.FolderShape | benches/my_test_bench.rs:11-49 | the estimates folder of a treatment is `l_{len}_p_{position}_s_{method}` |
| MyTestBench.EstimateFoldersDistinct | benches/my_test_bench.rs:11-49 | two treatments with the same estimates path are the same treatment, so distinct treatments write distinct `estimates.json` files |
| MyTestBench.DataShortKeyInjective | benches/my_test_bench.rs:11-17 | distinct data levels get distinct short keys |
| SearchDocExample.SettingsFactors | src/experiment.rs:40-60 | the documented `Settings` factor set has matching lengths |
| SearchDocExample.MakeInput | src/experiment.rs:129-148 | `input`: the texts of 0..len, with the element at len/2 (`Mid`) or len (`None`) replaced by the search value when that index exists, and that index cached |
| SearchDocExample.ExpectedOutput | src/experiment.rs:191-198 | `expected_output`: the cached position |
| SearchDocExample.ValidateOutput | src/experiment.rs:200-212 | `validate_output` passes iff a returned index holds the search value, or, with no result, no element is the search value |
| SearchDocExample.DecimalIsNotSearchValue | src/experiment.rs:131 | no decimal text is `criterion` |
| SearchDocExample.InputPosition | src/experiment.rs:129-148 | the cached position is the first and only index holding the search value; it exists iff the position is `Mid` and the length is positive |
| SearchDocExample.ChunkSearch | src/experiment.rs:169-176 | a chunk search returns an index in the chunk that holds the value, or `None` when the chunk lacks it |
| SearchDocExample.SearchChunks | src/experiment.rs:159-187 | the combined answer holds the value, is the first occurrence when searching forwards, and is `None` only if the value is absent |
| SearchDocExample.Execute | src/experiment.rs:151-189 | panics (`None`) iff there are zero threads or fewer elements than threads; otherwise it returns an index holding the value, or `None` only when the value is absent |
| SearchDocExample.ExecuteIsValid | src/experiment.rs:200-212 | every output `execute` returns passes `validate_output` |
| SearchDocExample.ExecuteMatchesExpected | src/experiment.rs:151-198 | on the experiment's inputs, with 1 ≤ threads ≤ len, both directions return the expected output |
| SearchDocExample.ExpectedIsValid | src/experiment.rs:191-212 | the cached position passes validation |
| SearchDocExample.EveryCheckPassesIff | src/experiment.rs:151-212 | the documented experiment is well formed, and every check passes iff every thread count is positive and at most every array length |
| SearchDocExample.DocInputExample | src/experiment.rs:228-230 | length 4, `Mid`: array `["0","1","criterion","3"]`, position `Some(2)` |
| SearchDocExample.DocRunExample | src/experiment.rs:232-237 | 4 threads backwards: output and expected output are `Some(2)`, and validation passes |
| TwoSum.DataFactors | benches/two_sum.rs:13-21 | the data factor set has matching lengths |
| TwoSum.StoreFactors | benches/two_sum.rs:35-43 | the store factor set has matching lengths |
| TwoSum.Enumerate | benches/two_sum.rs:64-68 | the (value, index) pairs of the array, in order |
| TwoSum.Insert | benches/two_sum.rs:69 | inserting into a sorted vector keeps it sorted and adds exactly that pair |
| TwoSum.SortPairs | benches/two_sum.rs:69 | `sort` returns a sorted permutation |
| TwoSum.Keys | benches/two_sum.rs:74 | the value of each pair, the key compared by `binary_search_by_key` |
| TwoSum.FromArray | benches/two_sum.rs:51-101 | `from_array` of each store: the slice itself, the sorted (value, index) vector, or the value-to-last-index map for both map types |
| TwoSum.IndexOf | benches/two_sum.rs:56-106 | `index_of`: a scan of the slice, a binary search of the vector by value, or a map lookup |
| TwoSum.IndexMap | benches/two_sum.rs:81-88 | every value of the array is a key, mapped to an index holding it, and no later index holds it (the last occurrence wins) |
| TwoSum.SortedVecFinds | benches/two_sum.rs:63-78 | the sorted-vector store returns an index holding the complement, or `None` iff it is absent |
| TwoSum.FromArrayFinds | benches/two_sum.rs:45-107 | every store type meets the `IndexOf` contract on the array it was built from |
| TwoSum.IndexOfSliceAndMaps | benches/two_sum.rs:56-58 | the slice store gives the first index of the complement, both map stores the last |
| TwoSum.MapGivesLast | benches/two_sum.rs:81-106 | map lookup returns the last index holding the value |
| TwoSum.FirstFrom | benches/two_sum.rs:113-119 | the scan's answer is the first element whose complement the store finds; no earlier element's complement is found |
| TwoSum.Scan | benches/two_sum.rs:113-119 | the loop with early return computes `FirstFrom` from 0 |
| TwoSum.Algorithm | benches/two_sum.rs:111-120 | `algorithm` returns `TwoSum(store type, array, target)` |
| TwoSum.TwoSum | benches/two_sum.rs:111-120 | the result of `algorithm` for a store type: the scan of the built store from index 0 |
| TwoSum.ScanMeaning | benches/two_sum.rs:113-119 | with a store meeting the contract, a returned pair sums to the target and no earlier element has a complement in the array; `None` means no element has one |
| TwoSum.TwoSumMeaning | benches/two_sum.rs:111-120 | the same for every store type |
| TwoSum.LookupMeaning | benches/two_sum.rs:114-115 | a lookup either finds a partner completing the sum or no partner exists |
| TwoSum.ScanStopsBy | benches/two_sum.rs:115-116 | an element whose complement is found stops the scan there or earlier |
| TwoSum.ScanStopsNoLater | benches/two_sum.rs:113-119 | a second contract-meeting store stops the scan no later than the first |
| TwoSum.ScansAgreeOnFirst | benches/two_sum.rs:113-119 | two contract-meeting stores agree on whether and where the scan stops |
| TwoSum.StoresAgreeOnFirst | benches/two_sum.rs:152-159 | all four store types agree on the first index and on whether a result exists |
| TwoSum.RepeatedComplement | benches/two_sum.rs:56-106 | on `[1, 2, 2]` with target 3 the slice store gives (0, 1) and the hash map (0, 2) |
| TwoSum.ElementPairedWithItself | benches/two_sum.rs:113-117 | `j == i` is possible: `[2]` with target 4 gives (0, 0) |
| TwoSum.ValidationPassesIff | benches/two_sum.rs:140-167 | for every store type, validation of the benchmark's input passes iff the index drawn at n/2 is below the one drawn at 3n/4 |
| TwoSum.MakeInput | benches/two_sum.rs:140-150 | `input`: the draw with the element at the index drawn at n/2 set to 1, then the one at the index drawn at 3n/4 set to 2, and those two indices expected |
| TwoSum.Execute | benches/two_sum.rs:152-160 | `execute`: the algorithm with target 3 and the level's store |
| TwoSum.ValidateOutput | benches/two_sum.rs:162-168 | `validate_output` passes iff the output is the expected pair and its two elements sum to 3 |
| TwoSum.InputShape | benches/two_sum.rs:143-147 | the built array holds 2 at j, 1 at i unless i == j, and values of at least 3 elsewhere |
| TwoSum.ScanStopsAtSmaller | benches/two_sum.rs:143-147 | when the drawn indices differ the scan stops at the smaller one, and when i < j it pairs i with j |
| TwoSum.ScanFindsNothing | benches/two_sum.rs:146-147 | when the drawn indices coincide the 2 overwrites the 1 and no pair is found |
| TwoSum.ScanValidation | benches/two_sum.rs:162-167 | with any contract-meeting store, validation passes iff i < j |
| TwoSum.StoreKey | benches/two_sum.rs:35-43 | `store-type:HashMap` |
| TwoSum.DataKey | benches/two_sum.rs:13-21 | `len:32` |
| TwoSum.RunKeyExample | benches/two_sum.rs:13-43 | `len:32/store-type:HashMap` |

## Left out

- The criterion harness (`benchmark_group`, `bench_with_input`, `b.iter`, `group.finish`) and all timing. Registering a treatment is a `Register` step in the trace, and its check is made once, as the first call of the closure makes it.
- The coloured console logging of `bench`, which is presentation only.
- `summarize`, called at the end of `bench`. Its code is not part of this model.
- `print_summary_table` only calls `collect_point_estimates`, so it is not modelled separately.
- File I/O in `get_slope_point_estimate`. The contents are a parameter, `None` for a file that cannot be opened or read.
- The `f64` parse is a parameter `parse`, because it is floating point.
- Summary.SlopeEstimateText: slices at character positions where Rust uses byte offsets. `find` only returns offsets at character boundaries and the markers are ASCII, so the difference cannot be observed here.
- Threads in the documentation's search experiment. The chunks are searched in order, and the answer of the first chunk that has one is taken, as combining the threads' results in chunk order does.
- SearchDocExample.Execute: models the two panics (zero threads, zero chunk size) as `None` but not thread failure.
- The seeded random generator of the two-sum benchmark. The drawn values are a parameter `draw`, constrained to what `random_range(3..n)` can return.
- `input` and `execute` take `&mut self` in the source. State an experiment keeps between calls is not modelled: each is a function of its arguments. A panic in `execute` is a `None` result, and `bench` aborts with `ExecutePanicked`. A panic in `input` is not modelled (see `TwoSum.MakeInput`).
- `Treatment`'s `fmt` (`Treatment.Fmt`, `Treatment.FmtRepeatsFirstPair`): the `fmt::Error` that `?` propagates after each `write!` is not modelled. Writing to the formatter always succeeds here.
- TwoSum.MakeInput: requires more than 3 elements, because for n ≤ 3 the random range is empty and the source panics.
- `i64` and `usize` arithmetic is unbounded in the model. The two-sum values lie in [1, n), so `target - a` cannot overflow.
- MyTestBench.ExecuteFindsPosition: requires 100·len ≤ `usize::MAX`, because the source's `100 * len` would overflow beyond that. The product `100 * position` is wrapped to a `usize` as a release build does (`MyTestBench.WrappedIndex`, `MyTestBench.WrappedPositionFound`); a debug build would panic there instead.
- `binary_search` is modelled by the halving loop of Rust's standard library. Which index it returns among equal elements is not specified there; here it is fixed by that loop.
- `sort` is modelled as an insertion sort. Only its result matters (a sorted permutation), and that is what is proved.
- `HashMap` and `BTreeMap` are one map from value to last index, because both `collect` in order with later entries overwriting earlier ones.
- `PathBuf` is a sequence of segments. OS path semantics are not modelled.
- Uniqueness of keys across levels is a caller obligation in the documentation. It is stated as a precondition (separator-free names and values) where a lemma needs it.
- The benches and `summary.rs` use older generations of the API (`Data`, `Variant`, `factor_values`, static `input`/`execute`, `Experiment<T, V>`). They are modelled by the same `Factors` and `Experiment` shapes as the current API.
- The other benches (shortest path, parallel tuning, tuning example) and the module wiring in `src/lib.rs` are not part of this model.
- `null` slope: `get_slope_point_estimate` does not treat a `null` slope specially. It yields the next `"point_estimate":`, which in criterion's file belongs to `std_dev` (`Summary.NullSlopeTakesNextEstimate`, `Summary.NullSlopeExample`).
- Two-sum validation depends on the draw: it passes only when the index drawn at n/2 is below the one drawn at 3n/4 (`TwoSum.ValidationPassesIff`). Whether the fixed seed 42 meets this for the three lengths is not decided here, because the generator is not modelled.

## Findings

| source | as written | input that shows it | evidently intended | confidence | as-written member | corrected member |
|---|---|---|---|---|---|---|
| src/treatment.rs:12-18 | the loop of `fmt` writes `names[0]` and `values[0]` on every round | names `len, sort, split`, values `9876543210, true, 7`: `fmt` writes `len:9876543210_len:9876543210_len:9876543210`, while `to_string` gives `len:9876543210_sort:true_split:7` | index `[i]` in the loop, as `to_string` does, so that `fmt` writes the key | high; not executed | Treatment.FmtRepeatsFirstPair | Treatment.FmtCorrected |
