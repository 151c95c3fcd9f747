/**
 * The list transforms of SArray (dist/surplus.js:775-935). Each one is a
 * formula over the array signal `seq`; what is modelled here is the body
 * that formula runs on the current array `s = seq()`. The callbacks
 * (`predicate`, `fn`, `pred`) are Dafny function values, so they are total
 * and have no effects.
 */
module SArrayTransforms {
  import opened Wrappers
  import SArrayMutators
  import SArrayMap

  // ---------------------------------------------------------------------------
  // filter
  // ---------------------------------------------------------------------------

  /** The elements of s that satisfy p, in order. */
  function Filtered<T>(s: seq<T>, p: T -> bool): (r: seq<T>)
    ensures |r| <= |s| && forall i :: 0 <= i < |r| ==> p(r[i])
    decreases |s|
  {
    if |s| == 0 then [] else Filtered(s[..|s| - 1], p) + (if p(s[|s| - 1]) then [s[|s| - 1]] else [])
  }

  /** `filter(predicate)`: push every element the predicate accepts. */
  method Filter<T>(s: seq<T>, p: T -> bool) returns (result: seq<T>)
    ensures result == Filtered(s, p)
  {
    result := [];
    for i := 0 to |s|
      invariant result == Filtered(s[..i], p)
    {
      assert s[..i + 1][..i] == s[..i];
      if p(s[i]) {
        result := result + [s[i]];
      }
    }
    assert s[..|s|] == s;
  }

  /** Everything filter keeps satisfies the predicate and comes from s; everything in s that does is kept. */
  lemma {:induction false} FilteredSpec<T>(s: seq<T>, p: T -> bool)
    ensures |Filtered(s, p)| <= |s|
    ensures forall x :: x in Filtered(s, p) <==> x in s && p(x)
    decreases |s|
  {
    if |s| > 0 {
      var init := s[..|s| - 1];
      FilteredSpec(init, p);
      assert s == init + [s[|s| - 1]];
    }
  }

  /** Filtering twice with the same predicate keeps what filtering once kept. */
  lemma {:induction false} FilteredTwice<T>(s: seq<T>, p: T -> bool)
    ensures Filtered(Filtered(s, p), p) == Filtered(s, p)
    decreases |s|
  {
    if |s| > 0 {
      var init := s[..|s| - 1];
      var last := s[|s| - 1];
      FilteredTwice(init, p);
      if p(last) {
        var f := Filtered(init, p) + [last];
        assert Filtered(s, p) == f;
        assert f[..|f| - 1] == Filtered(init, p);
        assert Filtered(f, p) == Filtered(f[..|f| - 1], p) + [last];
      } else {
        assert Filtered(s, p) == Filtered(init, p) + [];
        assert Filtered(init, p) + [] == Filtered(init, p);
      }
    }
  }

  // ---------------------------------------------------------------------------
  // reduce and reduceRight
  // ---------------------------------------------------------------------------

  /** The result after the first n elements: `result = fn(result, s[i], i, s)` for i = 0 .. n-1. */
  function ReducedUpTo<A, T>(s: seq<T>, fn: (A, T, nat, seq<T>) -> A, seed: A, n: nat): (r: A)
    requires n <= |s|
  {
    if n == 0 then seed else fn(ReducedUpTo(s, fn, seed, n - 1), s[n - 1], n - 1, s)
  }

  /** The result after the elements from the end down to index n: i = |s|-1 .. n. */
  function ReducedFrom<A, T>(s: seq<T>, fn: (A, T, nat, seq<T>) -> A, seed: A, n: nat): (r: A)
    requires n <= |s|
    decreases |s| - n
  {
    if n == |s| then seed else fn(ReducedFrom(s, fn, seed, n + 1), s[n], n, s)
  }

  /** `reduce(fn, seed)` */
  method Reduce<A, T>(s: seq<T>, fn: (A, T, nat, seq<T>) -> A, seed: A) returns (result: A)
    ensures result == ReducedUpTo(s, fn, seed, |s|)
  {
    result := seed;
    for i := 0 to |s|
      invariant result == ReducedUpTo(s, fn, seed, i)
    {
      result := fn(result, s[i], i, s);
    }
  }

  /** `reduceRight(fn, seed)` */
  method ReduceRight<A, T>(s: seq<T>, fn: (A, T, nat, seq<T>) -> A, seed: A) returns (result: A)
    ensures result == ReducedFrom(s, fn, seed, 0)
  {
    result := seed;
    var i := |s| - 1;
    while i >= 0
      invariant -1 <= i < |s|
      invariant result == ReducedFrom(s, fn, seed, i + 1)
    {
      result := fn(result, s[i], i, s);
      i := i - 1;
    }
  }

  /** A callback that only looks at the accumulator and the element. */
  function Plain<A, T>(f: (A, T) -> A): (A, T, nat, seq<T>) -> A
  {
    (acc: A, x: T, i: nat, s: seq<T>) => f(acc, x)
  }

  /** The reversed array. */
  function Reversed<T>(s: seq<T>): (r: seq<T>)
    ensures |r| == |s|
    decreases |s|
  {
    if |s| == 0 then [] else [s[|s| - 1]] + Reversed(s[..|s| - 1])
  }

  lemma {:induction false} ReversedIndex<T>(s: seq<T>)
    ensures |Reversed(s)| == |s|
    ensures forall i :: 0 <= i < |s| ==> Reversed(s)[i] == s[|s| - 1 - i]
    decreases |s|
  {
    if |s| > 0 {
      ReversedIndex(s[..|s| - 1]);
    }
  }

  /** reverse undoes itself. */
  lemma ReversedTwice<T>(s: seq<T>)
    ensures Reversed(Reversed(s)) == s
  {
    ReversedIndex(s);
    ReversedIndex(Reversed(s));
  }

  /**
   * For a callback that ignores the index and the array, reduceRight is
   * reduce over the reversed array.
   */
  lemma {:induction false} ReduceRightIsReversedReduce<A, T>(s: seq<T>, f: (A, T) -> A, seed: A, n: nat)
    requires n <= |s|
    ensures |Reversed(s)| == |s|
    ensures ReducedFrom(s, Plain(f), seed, n) == ReducedUpTo(Reversed(s), Plain(f), seed, |s| - n)
    decreases |s| - n
  {
    ReversedIndex(s);
    if n < |s| {
      ReduceRightIsReversedReduce(s, f, seed, n + 1);
      assert Reversed(s)[|s| - n - 1] == s[n];
    }
  }

  // ---------------------------------------------------------------------------
  // every, some, find, includes
  // ---------------------------------------------------------------------------

  /** `every(fn)`: false at the first element fn rejects, true when there is none. */
  method Every<T>(s: seq<T>, fn: T -> bool) returns (r: bool)
    ensures r <==> forall i :: 0 <= i < |s| ==> fn(s[i])
  {
    for i := 0 to |s|
      invariant forall j :: 0 <= j < i ==> fn(s[j])
    {
      if !fn(s[i]) {
        return false;
      }
    }
    return true;
  }

  /** `some(fn)`: without fn, whether the array is non-empty; else true at the first element fn accepts. */
  method SomeElement<T>(s: seq<T>, fn: Option<T -> bool>) returns (r: bool)
    ensures fn.None? ==> (r <==> |s| != 0)
    ensures fn.Some? ==> (r <==> exists i :: 0 <= i < |s| && fn.value(s[i]))
  {
    if fn.None? {
      return |s| != 0;
    }
    for i := 0 to |s|
      invariant forall j :: 0 <= j < i ==> !fn.value(s[j])
    {
      if fn.value(s[i]) {
        return true;
      }
    }
    return false;
  }

  /** `find(pred)`: the first element pred accepts, or `undefined`. */
  method Find<T>(s: seq<T>, pred: T -> bool) returns (r: Option<T>)
    ensures r.None? <==> forall i :: 0 <= i < |s| ==> !pred(s[i])
    ensures r.Some? ==> exists i :: 0 <= i < |s| && s[i] == r.value && pred(s[i]) && forall j :: 0 <= j < i ==> !pred(s[j])
  {
    for i := 0 to |s|
      invariant forall j :: 0 <= j < i ==> !pred(s[j])
    {
      if pred(s[i]) {
        return Some(s[i]);
      }
    }
    return None;
  }

  /** `includes(o)`: whether some element is `=== o`. */
  method Includes<T(==)>(s: seq<T>, o: T) returns (r: bool)
    ensures r <==> o in s
  {
    for i := 0 to |s|
      invariant o !in s[..i]
    {
      assert s[..i + 1] == s[..i] + [s[i]];
      if s[i] == o {
        return true;
      }
    }
    assert s[..|s|] == s;
    return false;
  }

  // ---------------------------------------------------------------------------
  // concat, slice, combine, map
  // ---------------------------------------------------------------------------

  /** The arrays of the other signals, one after another. */
  function Flattened<T>(others: seq<seq<T>>): (r: seq<T>)
    ensures forall k :: 0 <= k < |others| ==> multiset(others[k]) <= multiset(r)
    decreases |others|
  {
    if |others| == 0 then [] else Flattened(others[..|others| - 1]) + others[|others| - 1]
  }

  /** `concat(...others)`, with `others` the current arrays of the other signals. */
  method Concat<T>(s: seq<T>, others: seq<seq<T>>) returns (result: seq<T>)
    ensures result == s + Flattened(others)
  {
    result := s;
    for i := 0 to |others|
      invariant result == s + Flattened(others[..i])
    {
      assert others[..i + 1][..i] == others[..i];
      result := result + others[i];
    }
    assert others[..|others|] == others;
  }

  /** Concatenating two groups of arrays flattens to the two flattenings joined. */
  lemma {:induction false} FlattenedAppend<T>(a: seq<seq<T>>, b: seq<seq<T>>)
    ensures Flattened(a + b) == Flattened(a) + Flattened(b)
    decreases |b|
  {
    if |b| > 0 {
      var b' := b[..|b| - 1];
      FlattenedAppend(a, b');
      assert (a + b)[..|a + b| - 1] == a + b';
    } else {
      assert a + b == a;
    }
  }

  /** `slice(start, end)` on the current array: a missing start is 0, a missing end the length. */
  function Sliced<T>(s: seq<T>, start: Option<int>, end: Option<int>): (r: seq<T>)
    ensures |r| <= |s|
  {
    var b := SArrayMutators.ClampStart(if start.Some? then start.value else 0, |s|);
    var e := if end.Some? then SArrayMutators.ClampStart(end.value, |s|) else |s|;
    if b < e then s[b..e] else []
  }

  /** A slice takes no element more often than s has it; without arguments it is a copy. */
  lemma SlicedSpec<T>(s: seq<T>, start: Option<int>, end: Option<int>)
    ensures Sliced(s, None, None) == s
    ensures |Sliced(s, start, end)| <= |s|
    ensures multiset(Sliced(s, start, end)) <= multiset(s)
  {
    assert s[0..|s|] == s;
    var b := SArrayMutators.ClampStart(if start.Some? then start.value else 0, |s|);
    var e := if end.Some? then SArrayMutators.ClampStart(end.value, |s|) else |s|;
    if b < e {
      assert s == s[..b] + s[b..e] + s[e..];
      assert multiset(s) == multiset(s[..b]) + multiset(s[b..e]) + multiset(s[e..]);
    }
  }

  /**
   * Slicing between two in-range indices takes exactly the elements between
   * them, and so does slicing with the same indices counted from the end.
   */
  lemma SlicedInRange<T>(s: seq<T>, b: nat, e: nat)
    requires b <= e <= |s|
    ensures Sliced(s, Some(b), Some(e)) == s[b..e]
    ensures e < |s| ==> Sliced(s, Some(b - |s|), Some(e - |s|)) == s[b..e]
  {
  }

  /** `combine()`: `result[i] = s[i]()`, with `read` the current value of each signal. */
  method Combine<S, V>(s: seq<S>, read: S -> V) returns (result: seq<V>)
    ensures |result| == |s| && forall i :: 0 <= i < |s| ==> result[i] == read(s[i])
  {
    result := [];
    for i := 0 to |s|
      invariant |result| == i && forall j :: 0 <= j < i ==> result[j] == read(s[j])
    {
      result := result + [read(s[i])];
    }
  }

  /** The value of an array entry of mapS: an entered item's formula value, or the item itself. */
  function EntryValue(e: SArrayMap.Mapped, entered: (int, nat) -> int): (r: int)
  {
    match e
    case Entered(item, index) => entered(item, index)
    case Item(item) => item
  }

  /**
   * `map(enter, exit, move)`: with `enter`, mapS's formulas combined into
   * their values; without, mapS's own array, which holds the items.
   */
  method Map(mapped: seq<SArrayMap.Mapped>, enter: bool, entered: (int, nat) -> int) returns (result: seq<int>)
    ensures |result| == |mapped|
    ensures enter ==> forall q :: 0 <= q < |mapped| ==> result[q] == EntryValue(mapped[q], entered)
    ensures !enter && (forall q :: 0 <= q < |mapped| ==> mapped[q].Item?) ==> forall q :: 0 <= q < |mapped| ==> result[q] == mapped[q].item
  {
    if enter {
      result := Combine(mapped, e => EntryValue(e, entered));
    } else {
      result := seq(|mapped|, q requires 0 <= q < |mapped| => EntryValue(mapped[q], entered));
    }
  }
}
