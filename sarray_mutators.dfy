/**
 * The in-place mutators `S.array(values)` adds to its data signal
 * (dist/surplus.js:938-1013): each peeks the current array, changes it in
 * place with the matching `Array.prototype` method, and always writes the
 * array back to the signal, which makes the signal propagate even when
 * nothing changed.
 */
module SArrayMutators {
  import opened Wrappers

  /**
   * The arguments `splice` forwards to `Array.prototype.splice` through
   * `apply(values, arguments)`: none, a start only, or a start, a delete
   * count and the items to insert.
   */
  datatype SpliceArgs<T> = NoArgs | StartOnly(start: int) | Full(start: int, count: int, items: seq<T>)

  /** The actual start: a negative start counts from the end; both are clamped to [0, len]. */
  function ClampStart(start: int, len: nat): (r: nat)
    ensures r <= len
    ensures 0 <= start <= len ==> r == start
    ensures start < 0 && 0 <= len + start ==> r == len + start
  {
    if start < 0 then (if len + start < 0 then 0 else len + start)
    else if start < len then start else len
  }

  /** The actual delete count after start s: without a count, the rest of the array; else clamped to [0, len - s]. */
  function ClampCount(args: SpliceArgs, s: nat, len: nat): (r: nat)
    requires s <= len
    ensures r <= len - s
    ensures args.NoArgs? ==> r == 0
    ensures args.StartOnly? ==> r == len - s
    ensures args.Full? && 0 <= args.count <= len - s ==> r == args.count
  {
    match args
    case NoArgs => 0
    case StartOnly(_) => len - s
    case Full(_, count, _) => if count < 0 then 0 else if count < len - s then count else len - s
  }

  /** The array after `values.splice(...args)`. */
  function Spliced<T>(values: seq<T>, args: SpliceArgs<T>): (r: seq<T>)
    ensures args.NoArgs? ==> r == values
  {
    var s := if args.NoArgs? then 0 else ClampStart(args.start, |values|);
    var d := ClampCount(args, s, |values|);
    var items := if args.Full? then args.items else [];
    values[..s] + items + values[s + d..]
  }

  /** What splice keeps and inserts: the prefix before the start, the items, then the elements after the deleted ones. */
  lemma SplicedShape<T>(values: seq<T>, args: SpliceArgs<T>, s: nat, d: nat)
    requires s == (if args.NoArgs? then 0 else ClampStart(args.start, |values|))
    requires d == ClampCount(args, s, |values|)
    ensures |Spliced(values, args)| == |values| - d + (if args.Full? then |args.items| else 0)
    ensures Spliced(values, args)[..s] == values[..s]
    ensures args.Full? ==> Spliced(values, args)[s..s + |args.items|] == args.items
    ensures Spliced(values, args)[|Spliced(values, args)| - (|values| - s - d)..] == values[s + d..]
  {
    var items := if args.Full? then args.items else [];
    assert Spliced(values, args) == values[..s] + items + values[s + d..];
  }

  /** `values.pop()`: the last element, or `undefined` for an empty array. */
  function Popped<T>(values: seq<T>): (r: (seq<T>, Option<T>))
    ensures |values| == 0 ==> r == (values, None)
    ensures |values| > 0 ==> r.1.Some? && r.0 + [r.1.value] == values
  {
    if |values| == 0 then (values, None) else (values[..|values| - 1], Some(values[|values| - 1]))
  }

  /** `values.shift()`: the first element, or `undefined` for an empty array. */
  function Shifted<T>(values: seq<T>): (r: (seq<T>, Option<T>))
    ensures |values| == 0 ==> r == (values, None)
    ensures |values| > 0 ==> r.1.Some? && [r.1.value] + r.0 == values
  {
    if |values| == 0 then (values, None) else (values[1..], Some(values[0]))
  }

  /** push is a splice that inserts at the end and deletes nothing. */
  lemma PushIsSplice<T>(values: seq<T>, item: T)
    ensures Spliced(values, Full(|values|, 0, [item])) == values + [item]
  {
    assert values[|values|..] == [];
  }

  /** unshift is a splice that inserts at the front and deletes nothing. */
  lemma UnshiftIsSplice<T>(values: seq<T>, item: T)
    ensures Spliced(values, Full(0, 0, [item])) == [item] + values
  {
    assert values[..0] == [];
  }

  /** pop leaves what `splice(-1)` leaves, also on an empty array. */
  lemma PopIsSplice<T>(values: seq<T>)
    ensures Popped(values).0 == Spliced(values, StartOnly(-1))
  {
    if |values| == 0 {
      assert Spliced(values, StartOnly(-1)) == [];
    } else {
      assert values[|values|..] == [];
    }
  }

  /** shift leaves what `splice(0, 1)` leaves, also on an empty array. */
  lemma ShiftIsSplice<T>(values: seq<T>)
    ensures Shifted(values).0 == Spliced(values, Full(0, 1, []))
  {
    assert values[..0] == [];
  }

  /** The array without its first occurrence of x, if any. */
  function RemoveFirst<T(==)>(values: seq<T>, x: T): (r: seq<T>)
    ensures |values| - 1 <= |r| <= |values|
    decreases |values|
  {
    if |values| == 0 then []
    else if values[0] == x then values[1..]
    else [values[0]] + RemoveFirst(values[1..], x)
  }

  /** The array without any occurrence of x, the rest in order. */
  function Without<T(==)>(values: seq<T>, x: T): (r: seq<T>)
    decreases |values|
  {
    if |values| == 0 then []
    else (if values[0] == x then [] else [values[0]]) + Without(values[1..], x)
  }

  /** When x first occurs at i, removing the first occurrence splices out index i. */
  lemma {:induction false} RemoveFirstAt<T>(values: seq<T>, x: T, i: nat)
    requires i < |values| && values[i] == x
    requires forall j :: 0 <= j < i ==> values[j] != x
    ensures RemoveFirst(values, x) == values[..i] + values[i + 1..]
    decreases i
  {
    if i > 0 {
      RemoveFirstAt(values[1..], x, i - 1);
      assert values[1..][..i - 1] == values[1..i];
      assert values[1..][i..] == values[i + 1..];
      assert values[..i] == [values[0]] + values[1..i];
    }
  }

  /** Without an occurrence, nothing is removed. */
  lemma {:induction false} RemoveFirstAbsent<T>(values: seq<T>, x: T)
    requires x !in values
    ensures RemoveFirst(values, x) == values
    decreases |values|
  {
    if |values| > 0 {
      assert values[0] != x;
      assert x !in values[1..];
      RemoveFirstAbsent(values[1..], x);
      assert values == [values[0]] + values[1..];
    }
  }

  /** remove deletes exactly one occurrence of x when there is one, and changes nothing else. */
  lemma {:induction false} RemoveFirstCount<T>(values: seq<T>, x: T)
    ensures multiset(RemoveFirst(values, x)) == multiset(values) - multiset{x}
    decreases |values|
  {
    if |values| > 0 {
      var rest := values[1..];
      assert values == [values[0]] + rest;
      if values[0] != x {
        RemoveFirstCount(rest, x);
        var m := multiset(rest);
        assert multiset(RemoveFirst(values, x)) == multiset{values[0]} + (m - multiset{x});
        assert multiset{values[0]} + (m - multiset{x}) == (multiset{values[0]} + m) - multiset{x};
      }
    }
  }

  /** remove shortens the array by one exactly when x occurs in it. */
  lemma {:induction false} RemoveFirstLength<T>(values: seq<T>, x: T)
    ensures x in values ==> |RemoveFirst(values, x)| + 1 == |values|
    ensures x !in values ==> RemoveFirst(values, x) == values
    decreases |values|
  {
    if |values| > 0 && values[0] != x {
      RemoveFirstLength(values[1..], x);
      assert values == [values[0]] + values[1..];
      assert x in values ==> x in values[1..];
    }
  }

  /** Without distributes over concatenation: the kept elements keep their order. */
  lemma {:induction false} WithoutAppend<T>(a: seq<T>, b: seq<T>, x: T)
    ensures Without(a + b, x) == Without(a, x) + Without(b, x)
    decreases |a|
  {
    if |a| == 0 {
      assert a + b == b;
    } else {
      WithoutAppend(a[1..], b, x);
      var head := if a[0] == x then [] else [a[0]];
      assert (a + b)[0] == a[0];
      assert (a + b)[1..] == a[1..] + b;
      assert Without(a + b, x) == head + Without(a[1..] + b, x);
      assert Without(a, x) == head + Without(a[1..], x);
      assert head + (Without(a[1..], x) + Without(b, x)) == (head + Without(a[1..], x)) + Without(b, x);
    }
  }

  /** removeAll deletes every occurrence of x and leaves the count of every other value alone. */
  lemma {:induction false} WithoutCount<T>(values: seq<T>, x: T)
    ensures x !in Without(values, x)
    ensures multiset(Without(values, x)) == multiset(values)[x := 0]
    decreases |values|
  {
    if |values| > 0 {
      WithoutCount(values[1..], x);
      assert values == [values[0]] + values[1..];
      assert multiset(values) == multiset{values[0]} + multiset(values[1..]);
    }
  }

  /** Without x, removeAll leaves the array as it was; so it is idempotent. */
  lemma {:induction false} WithoutAbsent<T>(values: seq<T>, x: T)
    requires x !in values
    ensures Without(values, x) == values
    decreases |values|
  {
    if |values| > 0 {
      assert x !in values[1..];
      WithoutAbsent(values[1..], x);
      assert values == [values[0]] + values[1..];
    }
  }

  lemma WithoutTwice<T>(values: seq<T>, x: T)
    ensures Without(Without(values, x), x) == Without(values, x)
  {
    WithoutCount(values, x);
    WithoutAbsent(Without(values, x), x);
  }

  /** Splicing out one occurrence of x does not change what removeAll leaves. */
  lemma WithoutSpliceOut<T>(values: seq<T>, x: T, i: nat)
    requires i < |values| && values[i] == x
    ensures Without(values[..i] + values[i + 1..], x) == Without(values, x)
  {
    var a, b := values[..i], values[i + 1..];
    assert values == a + ([x] + b);
    WithoutAppend(a, [x] + b, x);
    WithoutSkip(b, x);
    WithoutAppend(a, b, x);
  }

  /** An occurrence of x at the front leaves nothing behind. */
  lemma WithoutSkip<T>(b: seq<T>, x: T)
    ensures Without([x] + b, x) == Without(b, x)
  {
    assert ([x] + b)[1..] == b;
  }

  /** The data signal of `S.array(values)`: its current array and every array written to it. */
  class SArrayData<T(==)> {
    var values: seq<T>
    var writes: seq<seq<T>>

    constructor (values: seq<T>)
      ensures this.values == values && writes == []
    {
      this.values := values;
      writes := [];
    }

    /** `push(item)` */
    method Push(item: T)
      modifies this
      ensures values == old(values) + [item]
      ensures writes == old(writes) + [values]
    {
      values := values + [item];
      writes := writes + [values];
    }

    /** `pop()`: returns the removed last element, `undefined` when the array was empty. */
    method Pop() returns (value: Option<T>)
      modifies this
      ensures (values, value) == Popped(old(values))
      ensures writes == old(writes) + [values]
    {
      if |values| == 0 {
        value := None;
      } else {
        value := Some(values[|values| - 1]);
        values := values[..|values| - 1];
      }
      writes := writes + [values];
    }

    /** `unshift(item)` */
    method Unshift(item: T)
      modifies this
      ensures values == [item] + old(values)
      ensures writes == old(writes) + [values]
    {
      values := [item] + values;
      writes := writes + [values];
    }

    /** `shift()`: returns the removed first element, `undefined` when the array was empty. */
    method Shift() returns (value: Option<T>)
      modifies this
      ensures (values, value) == Shifted(old(values))
      ensures writes == old(writes) + [values]
    {
      if |values| == 0 {
        value := None;
      } else {
        value := Some(values[0]);
        values := values[1..];
      }
      writes := writes + [values];
    }

    /** `splice(index, count, ...items)` */
    method Splice(args: SpliceArgs<T>)
      modifies this
      ensures values == Spliced(old(values), args)
      ensures writes == old(writes) + [values]
    {
      var len := |values|;
      var s := if args.NoArgs? then 0 else ClampStart(args.start, len);
      var d := ClampCount(args, s, len);
      var items := if args.Full? then args.items else [];
      values := values[..s] + items + values[s + d..];
      writes := writes + [values];
    }

    /** `remove(item)`: scan for the first occurrence, splice it out and stop. */
    method Remove(item: T)
      modifies this
      ensures values == RemoveFirst(old(values), item)
      ensures writes == old(writes) + [values]
    {
      var v := values;
      var i := 0;
      while i < |v|
        invariant i <= |v| && v == old(values) && values == old(values) && writes == old(writes)
        invariant forall j :: 0 <= j < i ==> v[j] != item
      {
        if v[i] == item {
          RemoveFirstAt(v, item, i);
          v := v[..i] + v[i + 1..];
          break;
        }
        i := i + 1;
      }
      if v == old(values) {
        RemoveFirstAbsent(v, item);
      }
      values := v;
      writes := writes + [values];
    }

    /** `removeAll(item)`: splice out each occurrence, stepping past the others. */
    method RemoveAll(item: T)
      modifies this
      ensures values == Without(old(values), item)
      ensures writes == old(writes) + [values]
    {
      var v := values;
      var i := 0;
      while i < |v|
        invariant i <= |v| && values == old(values) && writes == old(writes)
        invariant Without(v, item) == Without(old(values), item)
        invariant forall j :: 0 <= j < i ==> v[j] != item
        decreases |v| - i
      {
        if v[i] == item {
          WithoutSpliceOut(v, item, i);
          v := v[..i] + v[i + 1..];
        } else {
          i := i + 1;
        }
      }
      assert item !in v;
      WithoutAbsent(v, item);
      values := v;
      writes := writes + [values];
    }
  }
}
