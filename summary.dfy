/**
 * Reading results back (src/summary.rs): the matrix of slope estimates of
 * every treatment, each extracted from the text of its `estimates.json` by
 * a leftmost substring scan.
 */
module Summary {
  import opened Wrappers
  import opened StdStr

  const SlopeField: string := "\"slope\""
  const EstimateField: string := "\"point_estimate\":"

  /** No occurrence of `pat` in `s` starts before position `n`. */
  predicate NoneBefore(s: string, pat: string, n: nat)
  {
    forall k :: 0 <= k < n ==> !OccursAt(s, pat, k)
  }

  /**
   * `get_slope_point_estimate` up to the number parse: the text handed to
   * the parser.  `contents` is `None` when the file cannot be opened or read.
   * It is the text after the first `"point_estimate":` that follows the
   * first `"slope"`, up to the next comma.
   */
  function SlopeEstimateText(contents: Option<string>): (r: Option<string>)
    ensures r.Some? ==> ',' !in r.value
  {
    match contents
    case None => None
    case Some(text) =>
      match Find(text, SlopeField)
      case None => None
      case Some(p1) =>
        var rest1 := text[p1 + |SlopeField|..];
        match Find(rest1, EstimateField)
        case None => None
        case Some(p2) =>
          var rest2 := rest1[p2 + |EstimateField|..];
          match Find(rest2, ",")
          case None => None
          case Some(p3) =>
            assert forall k :: 0 <= k < p3 ==> !OccursAt(rest2, ",", k) && (rest2[k..k + 1] == [rest2[k]]);
            Some(rest2[..p3])
  }

  /** `get_slope_point_estimate`: the extracted text, parsed as a number by `parse`. */
  function GetSlopePointEstimate<F>(contents: Option<string>, parse: string -> Option<F>): (r: Option<F>)
    ensures r.Some? ==> SlopeEstimateText(contents).Some? && r == parse(SlopeEstimateText(contents).value)
    ensures SlopeEstimateText(contents).None? ==> r.None?
  {
    match SlopeEstimateText(contents)
    case None => None
    case Some(text) => parse(text)
  }

  /**
   * Round trip: a text made of a prefix without `"slope"`, the `"slope"`
   * marker, a gap without `"point_estimate":`, that marker, a comma-free
   * number and a comma yields exactly that number, whatever follows.
   */
  lemma {:induction false} ScanFindsEstimate(pre: string, gap: string, number: string, post: string)
    requires NoneBefore(pre + SlopeField + gap + EstimateField + number + "," + post, SlopeField, |pre|)
    requires NoneBefore(gap + EstimateField + number + "," + post, EstimateField, |gap|)
    requires ',' !in number
    ensures SlopeEstimateText(Some(pre + SlopeField + gap + EstimateField + number + "," + post)) == Some(number)
  {
    var rest2 := number + "," + post;
    var rest1 := gap + EstimateField + rest2;
    Regroup(pre, SlopeField, gap, EstimateField, number, ",", post);
    var text := pre + SlopeField + rest1;
    JoinedOccurrence(pre, SlopeField, rest1);
    FindIs(text, SlopeField, |pre|);
    JoinedOccurrence(gap, EstimateField, rest2);
    FindIs(rest1, EstimateField, |gap|);
    JoinedOccurrence(number, ",", post);
    forall k | 0 <= k < |number|
      ensures !OccursAt(rest2, ",", k)
    {
      assert rest2[k] == number[k];
      assert rest2[k..k + 1] == [rest2[k]];
    }
    FindIs(rest2, ",", |number|);
    assert rest2[..|number|] == number;
  }

  /** An occurrence with none before it is the one `Find` reports. */
  lemma FindIs(s: string, pat: string, p: nat)
    requires OccursAt(s, pat, p) && NoneBefore(s, pat, p)
    ensures Find(s, pat) == Some(p)
  {
  }

  /** `pat` placed between `x` and `y` occurs right after `x`, and cutting there gives back `x` and `y`. */
  lemma JoinedOccurrence(x: string, pat: string, y: string)
    ensures OccursAt(x + pat + y, pat, |x|)
    ensures (x + pat + y)[|x| + |pat|..] == y
  {
    assert (x + pat + y)[|x|..|x| + |pat|] == pat;
  }

  /**
   * Conversely, whenever the scan yields a text, the contents decompose as
   * in `ScanFindsEstimate`: the first `"slope"`, then the first
   * `"point_estimate":` after it, then the number up to the next comma.
   */
  lemma ScanDecompose(text: string) returns (pre: string, gap: string, post: string)
    requires SlopeEstimateText(Some(text)).Some?
    ensures text == pre + SlopeField + gap + EstimateField + SlopeEstimateText(Some(text)).value + "," + post
    ensures NoneBefore(text, SlopeField, |pre|)
    ensures NoneBefore(gap + EstimateField + SlopeEstimateText(Some(text)).value + "," + post, EstimateField, |gap|)
  {
    var p1 := Find(text, SlopeField).value;
    var rest1 := text[p1 + |SlopeField|..];
    var p2 := Find(rest1, EstimateField).value;
    var rest2 := rest1[p2 + |EstimateField|..];
    var p3 := Find(rest2, ",").value;
    var number := rest2[..p3];
    assert SlopeEstimateText(Some(text)).value == number;
    pre, gap, post := text[..p1], rest1[..p2], rest2[p3 + 1..];
    SplitAtOccurrence(text, SlopeField, p1);
    SplitAtOccurrence(rest1, EstimateField, p2);
    SplitAtOccurrence(rest2, ",", p3);
    assert NoneBefore(rest1, EstimateField, |gap|);
    Regroup(pre, SlopeField, gap, EstimateField, number, ",", post);
  }

  /** An occurrence of `pat` at `p` splits `s` into the part before, `pat` and the part after. */
  lemma SplitAtOccurrence(s: string, pat: string, p: nat)
    requires OccursAt(s, pat, p)
    ensures s == s[..p] + pat + s[p + |pat|..]
  {
    assert s == s[..p] + s[p..p + |pat|] + s[p + |pat|..];
  }

  lemma Regroup(a: string, b: string, c: string, d: string, e: string, f: string, g: string)
    ensures a + b + c + d + e + f + g == a + b + (c + d + (e + f + g))
    ensures c + d + e + f + g == c + d + (e + f + g)
  {
  }

  /** Without a `"slope"` marker there is no estimate. */
  lemma NoSlopeNoEstimate(text: string)
    requires NoneBefore(text, SlopeField, |text| + 1)
    ensures SlopeEstimateText(Some(text)) == None
  {
  }

  /**
   * A null slope is not special-cased: the scan takes the next
   * `"point_estimate":` after the marker, whichever field it belongs to.
   */
  lemma NullSlopeTakesNextEstimate(pre: string, gap: string, number: string, post: string)
    requires NoneBefore(pre + SlopeField + ":null," + gap + EstimateField + number + "," + post, SlopeField, |pre|)
    requires NoneBefore(":null," + gap + EstimateField + number + "," + post, EstimateField, 6 + |gap|)
    requires ',' !in number
    ensures SlopeEstimateText(Some(pre + SlopeField + ":null," + gap + EstimateField + number + "," + post)) == Some(number)
  {
    assert pre + SlopeField + ":null," + gap + EstimateField + number + "," + post
        == pre + SlopeField + (":null," + gap) + EstimateField + number + "," + post;
    assert ":null," + gap + EstimateField + number + "," + post
        == (":null," + gap) + EstimateField + number + "," + post;
    ScanFindsEstimate(pre, ":null," + gap, number, post);
  }

  /**
   * `collect_point_estimates`: one row per treatment, one cell per variant,
   * cell (i, j) read from the estimates file of (treatments[i], variants[j]).
   * `path` gives that file's location and `read` its contents, if any.
   */
  function CollectPointEstimates<T, V, F>(
    treatments: seq<T>, variants: seq<V>,
    path: (T, V) -> seq<string>, read: seq<string> -> Option<string>,
    parse: string -> Option<F>): (m: seq<seq<Option<F>>>)
    ensures |m| == |treatments|
    ensures forall i :: 0 <= i < |m| ==> |m[i]| == |variants|
    ensures forall i, j :: 0 <= i < |treatments| && 0 <= j < |variants| ==>
      m[i][j] == GetSlopePointEstimate(read(path(treatments[i], variants[j])), parse)
  {
    seq(|treatments|, i requires 0 <= i < |treatments| =>
      seq(|variants|, j requires 0 <= j < |variants| =>
        GetSlopePointEstimate(read(path(treatments[i], variants[j])), parse)))
  }

  /** A missing or unreadable file gives no estimate. */
  lemma MissingFileNoEstimate<F>(parse: string -> Option<F>)
    ensures GetSlopePointEstimate(None, parse) == None
  {
  }

  /** `pat` does not occur at `k` when some character of it differs there. */
  lemma MismatchAt(s: string, pat: string, k: nat, j: nat)
    requires j < |pat| && k + j < |s| && s[k + j] != pat[j]
    ensures !OccursAt(s, pat, k)
  {
    if k + |pat| <= |s| {
      assert s[k..k + |pat|][j] == s[k + j];
    }
  }

  /** A slope object yields its own point estimate. */
  lemma SlopeExample()
    ensures SlopeEstimateText(Some(SlopeField + ":{" + EstimateField + "17.5" + "," + "\"standard_error\":0.25}"))
         == Some("17.5")
  {
    var gap, post := ":{", "\"standard_error\":0.25}";
    var rest1 := gap + EstimateField + "17.5" + "," + post;
    MismatchAt(rest1, EstimateField, 0, 0);
    MismatchAt(rest1, EstimateField, 1, 0);
    ScanFindsEstimate("", gap, "17.5", post);
    assert "" + SlopeField == SlopeField;
  }

  /**
   * A null slope yields the point estimate of the next field, which in
   * criterion's estimates file is `std_dev`.
   */
  lemma NullSlopeExample()
    ensures SlopeEstimateText(Some(SlopeField + ":null," + "\"std_dev\":{" + EstimateField + "42.0" + "," + "\"standard_error\":0.5}"))
         == Some("42.0")
  {
    var gap, post := ":null," + "\"std_dev\":{", "\"standard_error\":0.5}";
    var rest1 := gap + EstimateField + "42.0" + "," + post;
    assert rest1[..17] == ":null,\"std_dev\":{";
    forall k | 0 <= k < 17
      ensures !OccursAt(rest1, EstimateField, k)
    {
      if k == 6 || k == 14 {
        MismatchAt(rest1, EstimateField, k, 1);
      } else {
        MismatchAt(rest1, EstimateField, k, 0);
      }
    }
    ScanFindsEstimate("", gap, "42.0", post);
    assert "" + SlopeField == SlopeField;
    assert SlopeField + gap == SlopeField + ":null," + "\"std_dev\":{";
  }
}
