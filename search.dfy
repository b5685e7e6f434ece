/**
 * The slice searches the fixtures use: `iter().position`, the reversed
 * `iter().rev().position` mapped back to an index from the front, and
 * `binary_search(..).ok()`.  These come from Rust's standard library, which is
 * not part of this model; the binary search follows the halving loop of
 * that library, and its contract is the one the library documents.
 */
module Search {
  import opened Wrappers

  /** Every element occurs at or before every later element. */
  predicate Sorted(s: seq<int>)
  {
    forall j, k :: 0 <= j <= k < |s| ==> s[j] <= s[k]
  }

  /** Every element is smaller than every later element. */
  predicate StrictlyIncreasing(s: seq<int>)
  {
    forall j, k :: 0 <= j < k < |s| ==> s[j] < s[k]
  }

  /** `iter().position(|y| *y == x)`: the first index holding `x`. */
  function Position<T(==)>(s: seq<T>, x: T): (r: Option<nat>)
    ensures r.Some? ==> r.value < |s| && s[r.value] == x
    ensures r.Some? ==> forall j :: 0 <= j < r.value ==> s[j] != x
    ensures r.None? ==> forall j :: 0 <= j < |s| ==> s[j] != x
  {
    if |s| == 0 then None
    else if s[0] == x then Some(0)
    else match Position(s[1..], x)
      case None => None
      case Some(k) => Some(k + 1)
  }

  /** The elements of `s` back to front, as `iter().rev()` yields them. */
  function Reversed<T>(s: seq<T>): (r: seq<T>)
    ensures |r| == |s| && forall k :: 0 <= k < |s| ==> r[k] == s[|s| - 1 - k]
  {
    seq(|s|, k requires 0 <= k < |s| => s[|s| - 1 - k])
  }

  /**
   * `iter().rev().position(|y| *y == x).map(|k| len - k - 1)`: the search
   * from the back, translated to an index from the front.  It finds the last
   * index holding `x`.
   */
  function LastPosition<T(==)>(s: seq<T>, x: T): (r: Option<nat>)
    ensures r.Some? ==> r.value < |s| && s[r.value] == x
    ensures r.Some? ==> forall j :: r.value < j < |s| ==> s[j] != x
    ensures r.None? ==> forall j :: 0 <= j < |s| ==> s[j] != x
  {
    match Position(Reversed(s), x)
    case None =>
      assert forall j :: 0 <= j < |s| ==> s[j] == Reversed(s)[|s| - 1 - j];
      None
    case Some(k) =>
      assert forall j :: |s| - k - 1 < j < |s| ==> s[j] == Reversed(s)[|s| - 1 - j];
      Some(|s| - k - 1)
  }

  /** `usize::MAX` on a 64-bit target. */
  const UsizeMax: nat := 0xFFFF_FFFF_FFFF_FFFF

  /**
   * The halving loop of `binary_search` on a window of `size` elements from
   * `base`: while more than one element remains, look at the middle one and
   * keep the upper half unless it is greater than `x`; then compare the
   * last remaining element.  The loop runs on any slice; on a sorted one
   * the window keeps two facts: the element at `base` (once `base` has
   * moved) is at most `x`, and everything after the window is greater.
   */
  function Halve(s: seq<int>, x: int, base: nat, size: nat): (r: Option<nat>)
    requires 1 <= size && base + size <= |s|
    ensures r.Some? ==> base <= r.value < base + size && s[r.value] == x
    ensures r.None? && Sorted(s) && (base > 0 ==> s[base] <= x) && (forall j :: base + size <= j < |s| ==> s[j] > x) ==>
              forall j :: 0 <= j < |s| ==> s[j] != x
    decreases size
  {
    if size > 1 then
      var half := size / 2;
      var mid := base + half;
      Halve(s, x, if s[mid] > x then base else mid, size - half)
    else if s[base] == x then Some(base)
    else None
  }

  /**
   * `binary_search(&x).ok()`: an index holding `x`, if it returns one; on a
   * sorted slice it returns one whenever `x` occurs.
   */
  function BinarySearch(s: seq<int>, x: int): (r: Option<nat>)
    ensures r.Some? ==> r.value < |s| && s[r.value] == x
    ensures r.None? && Sorted(s) ==> forall j :: 0 <= j < |s| ==> s[j] != x
  {
    if |s| == 0 then None else Halve(s, x, 0, |s|)
  }

  /**
   * On a strictly increasing slice every value occurs at most once, so the
   * three searches return the same answer for every value.
   */
  lemma SearchesAgree(s: seq<int>, x: int)
    requires StrictlyIncreasing(s)
    ensures Sorted(s)
    ensures LastPosition(s, x) == Position(s, x)
    ensures BinarySearch(s, x) == Position(s, x)
  {
    if Position(s, x).Some? {
      var p := Position(s, x).value;
      assert forall j :: 0 <= j < |s| && j != p ==> s[j] != x by {
        forall j | 0 <= j < |s| && j != p
          ensures s[j] != x
        {
          if j < p { assert s[j] < s[p]; } else { assert s[p] < s[j]; }
        }
      }
    }
  }

  /** With a repeated value the forward and the backward search part ways. */
  lemma RepeatedValueSplitsSearches()
    ensures Position([7, 7], 7) == Some(0)
    ensures LastPosition([7, 7], 7) == Some(1)
  {
  }

  /** `(0..n).collect()`: the indices below `n`, in order. */
  function Range(n: nat): (r: seq<int>)
    ensures |r| == n && forall k :: 0 <= k < n ==> r[k] == k
  {
    seq(n, k requires 0 <= k < n => k)
  }

  /** The range is strictly increasing, and `x` sits at index `x` exactly when `x < n`. */
  lemma RangePosition(n: nat, x: int)
    ensures StrictlyIncreasing(Range(n))
    ensures Position(Range(n), x) == if 0 <= x < n then Some(x as nat) else None
  {
    if 0 <= x < n {
      assert Range(n)[x] == x;
    }
  }
}
