/**
 * Small generic helpers shared by the form-builder model: the optional value
 * used wherever TypeScript writes `T | undefined` or `T | null`, and the array
 * combinators (`filter`, `findIndex`) that the original code applies to field,
 * step, form and rule lists.
 */
module Common {

  /** `T | undefined` (or `T | null`) */
  datatype Option<T> = None | Some(value: T)

  /** `s || ""` for an optional string. */
  function OrEmpty(s: Option<string>): string
  {
    if s.Some? then s.value else ""
  }

  /** `Array.prototype.filter`: keeps the elements satisfying `p`, in order. */
  function Filter<T(!new)>(p: T -> bool, s: seq<T>): (r: seq<T>)
    ensures |r| <= |s|
    ensures forall x :: x in r <==> x in s && p(x)
  {
    if s == [] then []
    else (if p(s[0]) then [s[0]] else []) + Filter(p, s[1..])
  }

  /** Filtering distributes over concatenation: the kept elements stay in their relative order. */
  lemma {:induction false} FilterConcat<T(!new)>(p: T -> bool, a: seq<T>, b: seq<T>)
    ensures Filter(p, a + b) == Filter(p, a) + Filter(p, b)
  {
    if a == [] {
      assert a + b == b;
    } else {
      assert (a + b)[0] == a[0];
      assert (a + b)[1..] == a[1..] + b;
      FilterConcat(p, a[1..], b);
    }
  }

  /** When every element passes, filtering returns the sequence itself. */
  lemma {:induction false} FilterAll<T(!new)>(p: T -> bool, s: seq<T>)
    requires forall i :: 0 <= i < |s| ==> p(s[i])
    ensures Filter(p, s) == s
  {
    if s != [] {
      FilterAll(p, s[1..]);
    }
  }

  /** When no element passes, filtering returns the empty sequence. */
  lemma {:induction false} FilterNone<T(!new)>(p: T -> bool, s: seq<T>)
    requires forall i :: 0 <= i < |s| ==> !p(s[i])
    ensures Filter(p, s) == []
  {
    if s != [] {
      FilterNone(p, s[1..]);
    }
  }

  /** Filtering out an appended element that fails `p`, when every other passes, undoes the append. */
  lemma FilterDropsAppended<T(!new)>(p: T -> bool, s: seq<T>, x: T)
    requires forall i :: 0 <= i < |s| ==> p(s[i])
    requires !p(x)
    ensures Filter(p, s + [x]) == s
  {
    FilterConcat(p, s, [x]);
    FilterAll(p, s);
    FilterNone(p, [x]);
  }

  /** Filtering a three-element sequence, element by element. */
  lemma FilterOfThree<T(!new)>(p: T -> bool, x: T, y: T, z: T)
    ensures Filter(p, [x, y, z]) == (if p(x) then [x] else []) + (if p(y) then [y] else []) + (if p(z) then [z] else [])
  {
    assert [z][1..] == [];
    assert Filter(p, [z]) == (if p(z) then [z] else []) + Filter(p, []);
    assert [y, z][1..] == [z];
    assert Filter(p, [y, z]) == (if p(y) then [y] else []) + Filter(p, [z]);
    assert [x, y, z][1..] == [y, z];
    assert Filter(p, [x, y, z]) == (if p(x) then [x] else []) + Filter(p, [y, z]);
  }

  /** Filters with predicates that agree everywhere give the same result. */
  lemma {:induction false} FilterSamePredicate<T(!new)>(p: T -> bool, q: T -> bool, s: seq<T>)
    requires forall x :: p(x) == q(x)
    ensures Filter(p, s) == Filter(q, s)
  {
    if s != [] {
      FilterSamePredicate(p, q, s[1..]);
    }
  }

  /** The positions in `s` of the elements that `Filter` keeps. */
  function FilterIndices<T>(p: T -> bool, s: seq<T>): seq<nat>
  {
    if s == [] then []
    else
      var rest := FilterIndices(p, s[1..]);
      (if p(s[0]) then [0] else []) + seq(|rest|, k requires 0 <= k < |rest| => rest[k] + 1)
  }

  /**
   * `Filter` keeps document order: the kept elements sit at strictly
   * increasing positions of the input.
   */
  lemma {:induction false} FilterKeepsOrder<T(!new)>(p: T -> bool, s: seq<T>)
    ensures |FilterIndices(p, s)| == |Filter(p, s)|
    ensures forall k :: 0 <= k < |FilterIndices(p, s)| ==>
      FilterIndices(p, s)[k] < |s| && s[FilterIndices(p, s)[k]] == Filter(p, s)[k]
    ensures forall k, l :: 0 <= k < l < |FilterIndices(p, s)| ==> FilterIndices(p, s)[k] < FilterIndices(p, s)[l]
  {
    if s != [] {
      FilterKeepsOrder(p, s[1..]);
      var rest := FilterIndices(p, s[1..]);
      var shifted := seq(|rest|, k requires 0 <= k < |rest| => rest[k] + 1);
      assert FilterIndices(p, s) == (if p(s[0]) then [0] else []) + shifted;
      assert Filter(p, s) == (if p(s[0]) then [s[0]] else []) + Filter(p, s[1..]);
      ShiftedPositions(s, rest, Filter(p, s[1..]), p(s[0]));
      ShiftedIncreasing(rest, p(s[0]));
    }
  }

  /** Every position whose element satisfies `p` is among the positions `Filter` keeps. */
  lemma {:induction false} FilterIndicesComplete<T(!new)>(p: T -> bool, s: seq<T>)
    ensures forall j :: 0 <= j < |s| && p(s[j]) ==> j in FilterIndices(p, s)
  {
    if s != [] {
      FilterIndicesComplete(p, s[1..]);
      var rest := FilterIndices(p, s[1..]);
      var shifted := seq(|rest|, k requires 0 <= k < |rest| => rest[k] + 1);
      assert FilterIndices(p, s) == (if p(s[0]) then [0] else []) + shifted;
      forall j | 0 <= j < |s| && p(s[j])
        ensures j in FilterIndices(p, s)
      {
        if j > 0 {
          assert s[1..][j - 1] == s[j];
          var k :| 0 <= k < |rest| && rest[k] == j - 1;
          assert shifted[k] == j;
        }
      }
    }
  }

  /**
   * `r` is the subsequence of `s` at the strictly increasing positions
   * `pos`, and those are exactly the positions whose element satisfies `p`.
   */
  ghost predicate SelectedInOrder<T>(p: T -> bool, s: seq<T>, r: seq<T>, pos: seq<nat>)
  {
    && |pos| == |r|
    && (forall k :: 0 <= k < |pos| ==> pos[k] < |s| && s[pos[k]] == r[k])
    && (forall k, l :: 0 <= k < l < |pos| ==> pos[k] < pos[l])
    && (forall j :: 0 <= j < |s| ==> (j in pos <==> p(s[j])))
  }

  /** `Filter` selects exactly the satisfying elements, in their order in the input. */
  lemma FilterSelectsInOrder<T(!new)>(p: T -> bool, s: seq<T>)
    ensures SelectedInOrder(p, s, Filter(p, s), FilterIndices(p, s))
  {
    FilterKeepsOrder(p, s);
    FilterIndicesComplete(p, s);
    var pos := FilterIndices(p, s);
    forall j | 0 <= j < |s| && j in pos
      ensures p(s[j])
    {
      var k :| 0 <= k < |pos| && pos[k] == j;
      assert Filter(p, s)[k] in Filter(p, s);
    }
  }

  /**
   * Positions of kept elements of `s[1..]`, shifted by one and preceded by
   * position 0 when the head is kept, are positions of the kept elements of `s`.
   */
  lemma ShiftedPositions<T>(s: seq<T>, rest: seq<nat>, tail: seq<T>, keepHead: bool)
    requires s != [] && |rest| == |tail|
    requires forall k :: 0 <= k < |rest| ==> rest[k] < |s[1..]| && s[1..][rest[k]] == tail[k]
    ensures var idx := (if keepHead then [0] else []) + seq(|rest|, k requires 0 <= k < |rest| => rest[k] + 1);
      var r := (if keepHead then [s[0]] else []) + tail;
      |idx| == |r| && forall k :: 0 <= k < |idx| ==> idx[k] < |s| && s[idx[k]] == r[k]
  {
    var head := if keepHead then [0] else [];
    var shifted := seq(|rest|, k requires 0 <= k < |rest| => rest[k] + 1);
    var idx := head + shifted;
    var r := (if keepHead then [s[0]] else []) + tail;
    forall k | 0 <= k < |idx|
      ensures idx[k] < |s| && s[idx[k]] == r[k]
    {
      if k >= |head| {
        assert idx[k] == shifted[k - |head|];
        assert r[k] == tail[k - |head|];
      }
    }
  }

  /** Shifting increasing positions by one and putting position 0 in front keeps them increasing. */
  lemma ShiftedIncreasing(rest: seq<nat>, withZero: bool)
    requires forall k, l :: 0 <= k < l < |rest| ==> rest[k] < rest[l]
    ensures var idx := (if withZero then [0] else []) + seq(|rest|, k requires 0 <= k < |rest| => rest[k] + 1);
      forall k, l :: 0 <= k < l < |idx| ==> idx[k] < idx[l]
  {
  }

  /** `Array.prototype.findIndex`, with `None` for -1. */
  function FindIndex<T>(p: T -> bool, s: seq<T>): (r: Option<nat>)
    ensures r.Some? ==> r.value < |s| && p(s[r.value])
    ensures r.Some? ==> forall j :: 0 <= j < r.value ==> !p(s[j])
    ensures r.None? <==> forall j :: 0 <= j < |s| ==> !p(s[j])
  {
    if s == [] then None
    else if p(s[0]) then Some(0)
    else match FindIndex(p, s[1..])
      case None => None
      case Some(i) => Some(i + 1)
  }

  /** `Array.prototype.find`: the first element satisfying `p`. */
  function Find<T>(p: T -> bool, s: seq<T>): (r: Option<T>)
    ensures r.Some? ==> r.value in s && p(r.value)
    ensures r.Some? ==> exists i :: 0 <= i < |s| && s[i] == r.value && p(s[i]) && forall j :: 0 <= j < i ==> !p(s[j])
    ensures r.None? <==> forall j :: 0 <= j < |s| ==> !p(s[j])
  {
    match FindIndex(p, s)
    case None => None
    case Some(i) => Some(s[i])
  }

  /** `s` with the element at index `i` taken out. */
  function RemoveAt<T>(s: seq<T>, i: nat): seq<T>
    requires i < |s|
  {
    s[..i] + s[i + 1..]
  }

  /**
   * The two `splice` calls of a single-element move: take the element at
   * `from` out, then insert it so that it ends at index `to`.
   */
  function Move<T>(s: seq<T>, from: nat, to: nat): seq<T>
    requires from < |s| && to < |s|
  {
    var rest := RemoveAt(s, from);
    rest[..to] + [s[from]] + rest[to..]
  }

  /** Where the element at index `k` of a moved sequence came from. */
  function MoveSource(from: nat, to: nat, k: nat): nat
  {
    if k == to then from
    else if from < to && from <= k < to then k + 1
    else if to < from && to < k <= from then k - 1
    else k
  }

  /** Every position of `Move(s, from, to)` holds the element of `s` at `MoveSource`. */
  lemma MoveAt<T>(s: seq<T>, from: nat, to: nat, k: nat)
    requires from < |s| && to < |s| && k < |s|
    ensures |Move(s, from, to)| == |s|
    ensures MoveSource(from, to, k) < |s|
    ensures Move(s, from, to)[k] == s[MoveSource(from, to, k)]
  {
    var rest := RemoveAt(s, from);
    assert forall j :: 0 <= j < |rest| ==> rest[j] == if j < from then s[j] else s[j + 1];
  }

  /** A sequence that agrees with `Move(s, from, to)` position by position is that move. */
  lemma MoveExtensional<T>(s: seq<T>, from: nat, to: nat, t: seq<T>)
    requires from < |s| && to < |s| && |t| == |s|
    requires forall k :: 0 <= k < |s| ==> t[k] == s[MoveSource(from, to, k)]
    ensures t == Move(s, from, to)
  {
    forall k | 0 <= k < |s|
      ensures t[k] == Move(s, from, to)[k]
    {
      MoveAt(s, from, to, k);
    }
  }

  /** Distinct positions of a moved sequence come from distinct positions of the input. */
  lemma MoveSourceInjective(from: nat, to: nat, k: nat, l: nat)
    requires k != l
    ensures MoveSource(from, to, k) != MoveSource(from, to, l)
  {
  }

  /**
   * A single-element move is a permutation that puts the element from index
   * `from` at index `to` and keeps all the other elements in their relative order.
   */
  lemma MoveIsPermutation<T>(s: seq<T>, from: nat, to: nat)
    requires from < |s| && to < |s|
    ensures |Move(s, from, to)| == |s|
    ensures Move(s, from, to)[to] == s[from]
    ensures RemoveAt(Move(s, from, to), to) == RemoveAt(s, from)
    ensures multiset(Move(s, from, to)) == multiset(s)
  {
    var rest := RemoveAt(s, from);
    var r := Move(s, from, to);
    assert r[..to] == rest[..to];
    assert r[to + 1..] == rest[to..];
    assert rest[..to] + rest[to..] == rest;
    calc {
      multiset(r);
      multiset(rest[..to]) + multiset([s[from]]) + multiset(rest[to..]);
      { assert rest == rest[..to] + rest[to..]; }
      multiset(rest) + multiset([s[from]]);
      { assert s == s[..from] + [s[from]] + s[from + 1..]; }
      multiset(s);
    }
  }

  function Min(a: int, b: int): int { if a <= b then a else b }

  function Max(a: int, b: int): int { if a >= b then a else b }
}
