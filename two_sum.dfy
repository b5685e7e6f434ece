/**
 * The two-sum benchmark of benches/two_sum.rs: for every element, in
 * order, look up its complement (target minus the element) in a store built
 * from the whole array, and return the first element's index together with
 * the index the store gives for the complement.  The four stores are the
 * slice itself (scanned from the front), a sorted vector of
 * (value, index) pairs searched by value, and a hash map and a B-tree map
 * from value to index.
 */
module TwoSum {
  import opened Wrappers
  import opened StdStr
  import opened FactorKeys
  import opened RunPaths
  import opened Search

  datatype DataSettings = DataSettings(len: nat)

  /** `StoreType`; `NoStore` is the variant the benchmark calls `None`. */
  datatype StoreType = NoStore | SortedVec | HashMap | BTreeMap

  function DataFactors(d: DataSettings): (f: Factors)
    ensures f.Valid()
  {
    Factors(["len"], [DecimalString(d.len)], None, None)
  }

  /** The level of a store is its `Debug` name. */
  function StoreFactors(st: StoreType): (f: Factors)
    ensures f.Valid()
  {
    Factors(["store-type"],
            [match st case NoStore => "None" case SortedVec => "SortedVec" case HashMap => "HashMap" case BTreeMap => "BTreeMap"],
            None, None)
  }

  // ---------------------------------------------------------------------
  // The sorted vector of (value, index) pairs

  /** The tuple order of `(i64, usize)`: by value, then by index. */
  predicate PairLe(p: (int, nat), q: (int, nat))
  {
    p.0 < q.0 || (p.0 == q.0 && p.1 <= q.1)
  }

  predicate SortedPairs(s: seq<(int, nat)>)
  {
    forall j, k :: 0 <= j < k < |s| ==> PairLe(s[j], s[k])
  }

  /** `iter().enumerate().map(|(idx, val)| (*val, idx))`. */
  function Enumerate(a: seq<int>): (r: seq<(int, nat)>)
    ensures |r| == |a| && forall k :: 0 <= k < |a| ==> r[k] == (a[k], k)
  {
    seq(|a|, k requires 0 <= k < |a| => (a[k], k as nat))
  }

  /** One pair put into its place in a sorted vector. */
  function Insert(p: (int, nat), s: seq<(int, nat)>): (r: seq<(int, nat)>)
    requires SortedPairs(s)
    ensures SortedPairs(r) && multiset(r) == multiset(s) + multiset{p}
  {
    if |s| == 0 then [p]
    else if PairLe(p, s[0]) then [p] + s
    else
      var rest := Insert(p, s[1..]);
      assert s == [s[0]] + s[1..];
      assert forall k :: 0 <= k < |rest| ==> rest[k] in multiset(s[1..]) + multiset{p};
      assert forall k :: 0 <= k < |rest| ==> PairLe(s[0], rest[k]) by {
        forall k | 0 <= k < |rest|
          ensures PairLe(s[0], rest[k])
        {
          assert rest[k] in multiset(s[1..]) + multiset{p};
          if rest[k] != p {
            assert rest[k] in s[1..];
          }
        }
      }
      [s[0]] + rest
  }

  /** `vec.sort()`: the pairs in tuple order; only the order changes. */
  function SortPairs(s: seq<(int, nat)>): (r: seq<(int, nat)>)
    ensures SortedPairs(r) && multiset(r) == multiset(s)
  {
    if |s| == 0 then []
    else
      assert s == [s[0]] + s[1..];
      Insert(s[0], SortPairs(s[1..]))
  }

  /** The values of the pairs, the key `binary_search_by_key` compares. */
  function Keys(s: seq<(int, nat)>): (r: seq<int>)
    ensures |r| == |s| && forall k :: 0 <= k < |s| ==> r[k] == s[k].0
  {
    seq(|s|, k requires 0 <= k < |s| => s[k].0)
  }

  // ---------------------------------------------------------------------
  // The map from value to index

  /**
   * `collect()` of the (value, index) pairs into a map: pairs are inserted
   * in order, so a later index of a value replaces an earlier one.
   */
  function IndexMap(a: seq<int>): (m: map<int, nat>)
    ensures forall j :: 0 <= j < |a| ==> a[j] in m
    ensures forall v :: v in m ==> m[v] < |a| && a[m[v]] == v
    ensures forall v :: v in m ==> forall j :: m[v] < j < |a| ==> a[j] != v
  {
    if |a| == 0 then map[]
    else
      var init := a[..|a| - 1];
      assert forall j :: 0 <= j < |init| ==> init[j] == a[j];
      IndexMap(init)[a[|a| - 1] := |a| - 1]
  }

  // ---------------------------------------------------------------------
  // The `IndexOf` stores

  datatype Store =
    | Slice(a: seq<int>)
    | Pairs(pairs: seq<(int, nat)>)
    | Map(m: map<int, nat>)

  /** `from_array` of each store type; both maps are the same map of value to last index. */
  function FromArray(st: StoreType, a: seq<int>): (s: Store)
  {
    match st
    case NoStore => Slice(a)
    case SortedVec => Pairs(SortPairs(Enumerate(a)))
    case HashMap => Map(IndexMap(a))
    case BTreeMap => Map(IndexMap(a))
  }

  /** `index_of`: the slice scans, the vector is binary searched by value, the maps look up. */
  function IndexOf(store: Store, b: int): Option<nat>
  {
    match store
    case Slice(a) => Position(a, b)
    case Pairs(pairs) =>
      (match BinarySearch(Keys(pairs), b)
       case Some(k) => Some(pairs[k].1)
       case None => None)
    case Map(m) => if b in m then Some(m[b]) else None
  }

  /**
   * The contract every `IndexOf` implementation meets on the array it was
   * built from: an index it returns holds the complement, and it returns
   * none only when the complement does not occur.
   */
  ghost predicate Finds(store: Store, a: seq<int>)
  {
    forall b {:trigger IndexOf(store, b)} ::
      (IndexOf(store, b).Some? ==> IndexOf(store, b).value < |a| && a[IndexOf(store, b).value] == b) &&
      (IndexOf(store, b).None? ==> b !in a)
  }

  lemma SortedVecFinds(a: seq<int>, b: int)
    ensures var store := FromArray(SortedVec, a);
      (IndexOf(store, b).Some? ==> IndexOf(store, b).value < |a| && a[IndexOf(store, b).value] == b) &&
      (IndexOf(store, b).None? ==> b !in a)
  {
    var e := Enumerate(a);
    var pairs := SortPairs(e);
    assert Sorted(Keys(pairs));
    match BinarySearch(Keys(pairs), b)
    case Some(k) =>
      assert pairs[k] in multiset(e);
      var j :| 0 <= j < |e| && e[j] == pairs[k];
    case None =>
      forall j | 0 <= j < |a|
        ensures a[j] != b
      {
        assert e[j] in multiset(pairs);
        var k :| 0 <= k < |pairs| && pairs[k] == e[j];
        assert Keys(pairs)[k] == a[j];
      }
  }

  /** Every store type meets the contract. */
  lemma FromArrayFinds(st: StoreType, a: seq<int>)
    ensures Finds(FromArray(st, a), a)
  {
    forall b
      ensures var store := FromArray(st, a);
        (IndexOf(store, b).Some? ==> IndexOf(store, b).value < |a| && a[IndexOf(store, b).value] == b) &&
        (IndexOf(store, b).None? ==> b !in a)
    {
      if st == SortedVec {
        SortedVecFinds(a, b);
      }
    }
  }

  /** The slice store gives the first index of the complement, the maps the last one. */
  lemma IndexOfSliceAndMaps(a: seq<int>, b: int)
    ensures IndexOf(FromArray(NoStore, a), b) == Position(a, b)
    ensures IndexOf(FromArray(HashMap, a), b) == LastPosition(a, b)
    ensures IndexOf(FromArray(BTreeMap, a), b) == LastPosition(a, b)
  {
    MapGivesLast(a, b);
  }

  lemma MapGivesLast(a: seq<int>, b: int)
    ensures IndexOf(Map(IndexMap(a)), b) == LastPosition(a, b)
  {
    var m := IndexMap(a);
    var l := LastPosition(a, b);
    if b in m {
      assert l.Some?;
      assert !(l.value < m[b]) && !(m[b] < l.value);
    } else {
      assert l.None?;
    }
  }

  // ---------------------------------------------------------------------
  // The algorithm

  /** The store's answer for the complement of element `k`. */
  function Lookup(store: Store, a: seq<int>, target: int, k: nat): Option<nat>
    requires k < |a|
  {
    IndexOf(store, target - a[k])
  }

  /**
   * The answer of the scan from index `i` on: the first index `k` whose
   * complement the store finds, with the store's index for it.
   */
  function FirstFrom(store: Store, a: seq<int>, target: int, i: nat): (r: Option<(nat, nat)>)
    requires i <= |a|
    ensures r.Some? ==> i <= r.value.0 < |a| && Lookup(store, a, target, r.value.0) == Some(r.value.1)
    ensures r.Some? ==> forall k :: i <= k < r.value.0 ==> Lookup(store, a, target, k).None?
    ensures r.None? ==> forall k :: i <= k < |a| ==> Lookup(store, a, target, k).None?
    decreases |a| - i
  {
    if i == |a| then None
    else match Lookup(store, a, target, i)
      case Some(j) => Some((i, j))
      case None => FirstFrom(store, a, target, i + 1)
  }

  /** What `algorithm` returns for a store type. */
  function TwoSum(st: StoreType, a: seq<int>, target: int): Option<(nat, nat)>
  {
    FirstFrom(FromArray(st, a), a, target, 0)
  }

  /** The loop of `algorithm`: return at the first element whose complement the store finds. */
  method Scan(store: Store, a: seq<int>, target: int) returns (r: Option<(nat, nat)>)
    ensures r == FirstFrom(store, a, target, 0)
  {
    for i := 0 to |a|
      invariant FirstFrom(store, a, target, 0) == FirstFrom(store, a, target, i)
    {
      var b := target - a[i];
      var j := IndexOf(store, b);
      if j.Some? {
        return Some((i, j.value));
      }
    }
    return None;
  }

  /** `algorithm`: build the store once, then scan. */
  method Algorithm(st: StoreType, a: seq<int>, target: int) returns (r: Option<(nat, nat)>)
    ensures r == TwoSum(st, a, target)
  {
    var store := FromArray(st, a);
    r := Scan(store, a, target);
  }

  /**
   * With a store that meets the contract, a returned pair sums to the
   * target and its first index is the first element whose complement
   * occurs anywhere in the array; no pair is returned only when no two
   * elements sum to the target.
   */
  lemma ScanMeaning(store: Store, a: seq<int>, target: int)
    requires Finds(store, a)
    ensures FirstFrom(store, a, target, 0).Some? ==>
              var (i, j) := FirstFrom(store, a, target, 0).value;
              j < |a| && a[i] + a[j] == target && forall k :: 0 <= k < i ==> target - a[k] !in a
    ensures FirstFrom(store, a, target, 0).None? ==> forall k :: 0 <= k < |a| ==> target - a[k] !in a
  {
    LookupMeaning(store, a, target);
    var r := FirstFrom(store, a, target, 0);
    var bound := if r.Some? then r.value.0 else |a|;
    forall k | 0 <= k < bound
      ensures target - a[k] !in a
    {
      assert Lookup(store, a, target, k).None?;
    }
  }

  lemma TwoSumMeaning(st: StoreType, a: seq<int>, target: int)
    ensures TwoSum(st, a, target).Some? ==>
              var (i, j) := TwoSum(st, a, target).value;
              i < |a| && j < |a| && a[i] + a[j] == target && forall k :: 0 <= k < i ==> target - a[k] !in a
    ensures TwoSum(st, a, target).None? ==> forall k :: 0 <= k < |a| ==> target - a[k] !in a
  {
    FromArrayFinds(st, a);
    ScanMeaning(FromArray(st, a), a, target);
  }

  /** Under the contract, a lookup finds a partner that completes the sum, or no partner exists. */
  lemma LookupMeaning(store: Store, a: seq<int>, target: int)
    requires Finds(store, a)
    ensures forall k {:trigger Lookup(store, a, target, k)} :: 0 <= k < |a| ==>
              (Lookup(store, a, target, k).Some? ==>
                 Lookup(store, a, target, k).value < |a| && a[k] + a[Lookup(store, a, target, k).value] == target) &&
              (Lookup(store, a, target, k).None? ==> target - a[k] !in a)
  {
    forall k | 0 <= k < |a|
      ensures (Lookup(store, a, target, k).Some? ==>
                 Lookup(store, a, target, k).value < |a| && a[k] + a[Lookup(store, a, target, k).value] == target) &&
              (Lookup(store, a, target, k).None? ==> target - a[k] !in a)
    {
      assert Lookup(store, a, target, k) == IndexOf(store, target - a[k]);
    }
  }

  /** A store that finds the complement of element `k` stops the scan at `k` or earlier. */
  lemma ScanStopsBy(store: Store, a: seq<int>, target: int, k: nat)
    requires k < |a| && Lookup(store, a, target, k).Some?
    ensures FirstFrom(store, a, target, 0).Some? && FirstFrom(store, a, target, 0).value.0 <= k
  {
  }

  /** Where one store stops the scan, a second one that meets the contract stops it too, no later. */
  lemma {:induction false} ScanStopsNoLater(s1: Store, s2: Store, a: seq<int>, target: int)
    requires Finds(s1, a) && Finds(s2, a) && FirstFrom(s1, a, target, 0).Some?
    ensures FirstFrom(s2, a, target, 0).Some?
    ensures FirstFrom(s2, a, target, 0).value.0 <= FirstFrom(s1, a, target, 0).value.0
  {
    var i1 := FirstFrom(s1, a, target, 0).value.0;
    var b := target - a[i1];
    assert IndexOf(s1, b).Some?;
    assert b in a;
    assert IndexOf(s2, b).Some?;
    ScanStopsBy(s2, a, target, i1);
  }

  /** Two stores that meet the contract stop the scan at the same element. */
  lemma ScansAgreeOnFirst(s1: Store, s2: Store, a: seq<int>, target: int)
    requires Finds(s1, a) && Finds(s2, a)
    ensures FirstFrom(s1, a, target, 0).Some? <==> FirstFrom(s2, a, target, 0).Some?
    ensures FirstFrom(s1, a, target, 0).Some? ==> FirstFrom(s1, a, target, 0).value.0 == FirstFrom(s2, a, target, 0).value.0
  {
    if FirstFrom(s1, a, target, 0).Some? {
      ScanStopsNoLater(s1, s2, a, target);
    }
    if FirstFrom(s2, a, target, 0).Some? {
      ScanStopsNoLater(s2, s1, a, target);
    }
  }

  /** All four stores stop at the same element; only the partner index may differ. */
  lemma StoresAgreeOnFirst(st1: StoreType, st2: StoreType, a: seq<int>, target: int)
    ensures TwoSum(st1, a, target).Some? <==> TwoSum(st2, a, target).Some?
    ensures TwoSum(st1, a, target).Some? ==> TwoSum(st1, a, target).value.0 == TwoSum(st2, a, target).value.0
  {
    FromArrayFinds(st1, a);
    FromArrayFinds(st2, a);
    ScansAgreeOnFirst(FromArray(st1, a), FromArray(st2, a), a, target);
  }

  /** A repeated complement separates the slice store from the maps. */
  lemma RepeatedComplement()
    ensures TwoSum(NoStore, [1, 2, 2], 3) == Some((0, 1))
    ensures TwoSum(HashMap, [1, 2, 2], 3) == Some((0, 2))
  {
    IndexOfSliceAndMaps([1, 2, 2], 2);
    assert LastPosition([1, 2, 2], 2) == Some(2);
  }

  /** An element that is half the target is paired with itself. */
  lemma ElementPairedWithItself()
    ensures TwoSum(NoStore, [2], 4) == Some((0, 0))
  {
  }

  // ---------------------------------------------------------------------
  // The benchmark's input and validation

  /** The input: the array and the pair of indices the benchmark expects. */
  datatype Input = Input(elements: seq<int>, indices: Option<(nat, nat)>)

  /**
   * A draw of the seeded generator for a length `n`: `n` values in
   * [3, n).  The generator itself is not modelled; `input` panics for
   * n <= 3, where that range is empty.
   */
  predicate IsDraw(draw: seq<int>)
  {
    |draw| > 3 && forall k :: 0 <= k < |draw| ==> 3 <= draw[k] < |draw|
  }

  /**
   * `input`: with i the value drawn at n/2 and j the one at 3n/4, set the
   * element at i to 1, then the element at j to 2, and expect (i, j).
   */
  function MakeInput(draw: seq<int>): Input
    requires IsDraw(draw)
  {
    var n := |draw|;
    var i: nat := draw[n / 2];
    var j: nat := draw[3 * n / 4];
    Input(draw[i := 1][j := 2], Some((i, j)))
  }

  /** `execute`: the algorithm with target 3 and the store of the level. */
  function Execute(st: StoreType, input: Input): Option<(nat, nat)>
  {
    TwoSum(st, input.elements, 3)
  }

  /**
   * `validate_output`: the output must be the expected pair, and its two
   * elements must sum to 3 (an index past the end panics as well).
   */
  predicate ValidateOutput(input: Input, output: Option<(nat, nat)>)
  {
    input.indices == output &&
    match output
    case Some((i, j)) => i < |input.elements| && j < |input.elements| && input.elements[i] + input.elements[j] == 3
    case None => false
  }

  /**
   * Validation passes for a store exactly when the index drawn at n/2 is
   * below the one drawn at 3n/4.  When they are equal the 1 is overwritten
   * and no pair exists; when the first is larger the scan meets the 2
   * before the 1 and returns the indices swapped.
   */
  lemma {:induction false} ValidationPassesIff(draw: seq<int>, st: StoreType)
    requires IsDraw(draw)
    ensures ValidateOutput(MakeInput(draw), Execute(st, MakeInput(draw))) <==> draw[|draw| / 2] < draw[3 * |draw| / 4]
  {
    var x := MakeInput(draw);
    FromArrayFinds(st, x.elements);
    ScanValidation(draw, FromArray(st, x.elements));
  }

  /**
   * The array `input` builds from a draw: a 1 at index i and a 2 at index j
   * unless j == i, where the 2 overwrites the 1; every other element keeps
   * its drawn value of at least 3.
   */
  lemma InputShape(draw: seq<int>)
    requires IsDraw(draw)
    ensures var a := MakeInput(draw).elements;
      var n := |draw|;
      var i, j := draw[n / 2], draw[3 * n / 4];
      |a| == n && 0 <= i < n && 0 <= j < n && a[j] == 2 && (i != j ==> a[i] == 1) &&
      (forall k :: 0 <= k < n && k != i && k != j ==> a[k] >= 3) &&
      (forall k :: 0 <= k < n ==> a[k] >= 1)
  {
  }

  /** When the two drawn indices differ, the scan stops at the smaller one. */
  lemma {:induction false} ScanStopsAtSmaller(draw: seq<int>, store: Store)
    requires IsDraw(draw) && Finds(store, MakeInput(draw).elements)
    requires draw[|draw| / 2] != draw[3 * |draw| / 4]
    ensures var r := FirstFrom(store, MakeInput(draw).elements, 3, 0);
      r.Some? && r.value.0 == if draw[|draw| / 2] < draw[3 * |draw| / 4] then draw[|draw| / 2] else draw[3 * |draw| / 4]
    ensures draw[|draw| / 2] < draw[3 * |draw| / 4] ==> FirstFrom(store, MakeInput(draw).elements, 3, 0).value.1 == draw[3 * |draw| / 4]
  {
    var a := MakeInput(draw).elements;
    var n := |draw|;
    var i: nat, j: nat := draw[n / 2], draw[3 * n / 4];
    InputShape(draw);
    LookupMeaning(store, a, 3);
    var first := if i < j then i else j;
    assert Lookup(store, a, 3, first).Some?;
    ScanStopsBy(store, a, 3, first);
    var r := FirstFrom(store, a, 3, 0);
    assert Lookup(store, a, 3, r.value.0).Some?;
    if i < j {
      assert a[r.value.1] == 2;
    }
  }

  /** When the two drawn indices coincide, no pair sums to 3 and the scan finds nothing. */
  lemma {:induction false} ScanFindsNothing(draw: seq<int>, store: Store)
    requires IsDraw(draw) && Finds(store, MakeInput(draw).elements)
    requires draw[|draw| / 2] == draw[3 * |draw| / 4]
    ensures FirstFrom(store, MakeInput(draw).elements, 3, 0).None?
  {
    var a := MakeInput(draw).elements;
    InputShape(draw);
    LookupMeaning(store, a, 3);
    assert forall k :: 0 <= k < |a| ==> a[k] >= 2;
  }

  lemma ScanValidation(draw: seq<int>, store: Store)
    requires IsDraw(draw) && Finds(store, MakeInput(draw).elements)
    ensures var x := MakeInput(draw);
      ValidateOutput(x, FirstFrom(store, x.elements, 3, 0)) <==> draw[|draw| / 2] < draw[3 * |draw| / 4]
  {
    if draw[|draw| / 2] == draw[3 * |draw| / 4] {
      ScanFindsNothing(draw, store);
    } else {
      ScanStopsAtSmaller(draw, store);
      InputShape(draw);
    }
  }

  lemma StoreKey()
    ensures StoreFactors(HashMap).KeyLong() == "store-type:HashMap"
  {
  }

  lemma DataKey()
    ensures DataFactors(DataSettings(32)).KeyLong() == "len:32"
  {
    assert DecimalString(32) == "32";
  }

  lemma RunKeyExample()
    ensures RunKeyLong(DataFactors(DataSettings(32)), StoreFactors(HashMap)) == "len:32/store-type:HashMap"
  {
    DataKey();
    StoreKey();
  }
}
