/**
 * The reconcilers of SArray (dist/surplus.js): `mapS(enter, exit, move)` and
 * `forEach(enter, exit, move)`. On each update the old items are matched,
 * in order, to equal new items not yet claimed, searching the new
 * array round-robin from where the last match left off; unmatched old
 * items are exited, moved ones reported, and unmatched new ones entered.
 * Items are compared with `===`, modelled as equality of `int`s; the
 * callbacks are recorded as effects rather than run.
 */
module SArrayMap {
  import opened Wrappers

  /** An entry of mapS's `mapped` array: the pinned formula `enter(item, i)` ran in, or the item itself when there is no `enter`. */
  datatype Mapped = Entered(item: int, index: nat) | Item(item: int)

  /** A callback call the reconciler makes. */
  datatype Effect =
    | Exited(arg: Mapped, index: nat)      // exit(item, i)
    | Disposed(formula: Mapped)            // item.dispose()
    | Moved(from: seq<nat>, to: seq<nat>)  // move(from, to)
    | EnterCalled(item: int, index: nat)   // enter(item, i)

  /**
   * The state of the matching loop: the search position `k`, which old
   * index claimed each new index (`temp` / `found`), the old indices exited,
   * and the `from` / `to` lists.
   */
  datatype Plan = Plan(k: nat, claim: seq<Option<nat>>, exited: seq<nat>, from: seq<nat>, to: seq<nat>)

  // ---------------------------------------------------------------------------
  // The matching, as a function
  // ---------------------------------------------------------------------------

  /** Where the search may stand: at a new index, or at 0 when there are none. */
  predicate KInRange(k: nat, n: nat)
  {
    if n == 0 then k == 0 else k < n
  }

  /** `x % n` for 0 <= x < 2n, the only values the search position takes. */
  function Wrapped(x: nat, n: nat): (r: nat)
  {
    if x < n then x else x - n
  }

  /** The inner loop from its j-th step on: the first unclaimed new index, from `k0` round-robin, holding v. */
  function Probe(v: int, news: seq<int>, claim: seq<Option<nat>>, k0: nat, j: nat): (r: Option<nat>)
    requires |claim| == |news| && KInRange(k0, |news|)
    ensures r.Some? ==> r.value < |news| && news[r.value] == v && claim[r.value].None?
    decreases |news| - j
  {
    if j >= |news| then None
    else
      var p := Wrapped(k0 + j, |news|);
      if news[p] == v && claim[p].None? then Some(p) else Probe(v, news, claim, k0, j + 1)
  }

  /** One outer iteration, for old index i holding v. */
  function PlanStep(st: Plan, i: nat, v: int, news: seq<int>): (r: Plan)
    requires |st.claim| == |news| && KInRange(st.k, |news|)
    ensures |r.claim| == |news| && KInRange(r.k, |news|)
  {
    match Probe(v, news, st.claim, st.k, 0)
    case None => st.(exited := st.exited + [i])
    case Some(p) =>
      var moved := i != p;
      Plan(Wrapped(p + 1, |news|), st.claim[p := Some(i)], st.exited,
        st.from + (if moved then [i] else []), st.to + (if moved then [p] else []))
  }

  /** The matching after the first i old items. */
  function PlanUpTo(olds: seq<int>, news: seq<int>, i: nat): (r: Plan)
    requires i <= |olds|
    ensures |r.claim| == |news| && KInRange(r.k, |news|)
  {
    if i == 0 then Plan(0, seq(|news|, _ => None), [], [], [])
    else PlanStep(PlanUpTo(olds, news, i - 1), i - 1, olds[i - 1], news)
  }

  /** The matching of a whole update. */
  function Matching(olds: seq<int>, news: seq<int>): (r: Plan)
    ensures |r.claim| == |news| && KInRange(r.k, |news|)
  {
    PlanUpTo(olds, news, |olds|)
  }

  /** No new index is claimed by old index x. */
  predicate Unclaimed(claim: seq<Option<nat>>, x: nat)
  {
    forall p :: 0 <= p < |claim| ==> claim[p] != Some(x)
  }

  predicate Increasing(xs: seq<nat>)
  {
    forall a, b :: 0 <= a < b < |xs| ==> xs[a] < xs[b]
  }

  /** Every claim pairs equal items, an old index claims at most one new one, and nothing is claimed past i. */
  predicate ClaimsSound(olds: seq<int>, news: seq<int>, i: nat, claim: seq<Option<nat>>)
    requires i <= |olds| && |claim| == |news|
  {
    && (forall p :: 0 <= p < |news| && claim[p].Some? ==> claim[p].value < i && olds[claim[p].value] == news[p])
    && (forall p, q :: 0 <= p < q < |news| && claim[p].Some? ==> claim[p] != claim[q])
  }

  /** The old indices below i that were exited are exactly the unclaimed ones, in order, and each left no equal new item free. */
  predicate ExitsSound(olds: seq<int>, news: seq<int>, i: nat, claim: seq<Option<nat>>, exited: seq<nat>)
    requires i <= |olds| && |claim| == |news|
  {
    && (forall x :: 0 <= x < i ==> (x in exited <==> Unclaimed(claim, x)))
    && (forall q :: 0 <= q < |exited| ==> exited[q] < i)
    && Increasing(exited)
    && (forall q, p :: 0 <= q < |exited| && 0 <= p < |news| && news[p] == olds[exited[q]] ==> claim[p].Some?)
  }

  /** `from` and `to` pair, in order of the old index, claims whose index changed. */
  predicate MovesSound(news: seq<int>, i: nat, claim: seq<Option<nat>>, from: seq<nat>, to: seq<nat>)
    requires |claim| == |news|
  {
    && |from| == |to|
    && (forall q :: 0 <= q < |from| ==> from[q] < i && to[q] < |news| && claim[to[q]] == Some(from[q]) && from[q] != to[q])
    && Increasing(from)
  }

  predicate PlanInv(olds: seq<int>, news: seq<int>, i: nat, st: Plan)
    requires i <= |olds|
  {
    && |st.claim| == |news| && KInRange(st.k, |news|)
    && ClaimsSound(olds, news, i, st.claim)
    && ExitsSound(olds, news, i, st.claim, st.exited)
    && MovesSound(news, i, st.claim, st.from, st.to)
  }

  lemma ModSmall(x: int, n: int)
    requires 0 < n && 0 <= x < 2 * n
    ensures x % n == if x < n then x else x - n
  {
  }

  /** A search that fails from step j on saw no free equal item at the positions it still had to visit. */
  lemma {:induction false} ProbeNoneFrom(v: int, news: seq<int>, claim: seq<Option<nat>>, k0: nat, j: nat, j': nat)
    requires |claim| == |news| && KInRange(k0, |news|) && Probe(v, news, claim, k0, j) == None && j <= j' < |news|
    ensures !(news[Wrapped(k0 + j', |news|)] == v && claim[Wrapped(k0 + j', |news|)].None?)
    decreases j' - j
  {
    if j < j' {
      ProbeNoneFrom(v, news, claim, k0, j + 1, j');
    }
  }

  /** A failed search leaves every new item equal to v claimed. */
  lemma ProbeNone(v: int, news: seq<int>, claim: seq<Option<nat>>, k0: nat)
    requires |claim| == |news| && KInRange(k0, |news|) && Probe(v, news, claim, k0, 0) == None
    ensures forall p :: 0 <= p < |news| && news[p] == v ==> claim[p].Some?
  {
    var n := |news|;
    forall p | 0 <= p < n && news[p] == v
      ensures claim[p].Some?
    {
      var j' := if k0 <= p then p - k0 else p + n - k0;
      ProbeNoneFrom(v, news, claim, k0, 0, j');
    }
  }

  lemma ClaimsStep(olds: seq<int>, news: seq<int>, i: nat, j: nat, claim: seq<Option<nat>>, p: nat)
    requires i < |olds| && j == i + 1 && |claim| == |news| && ClaimsSound(olds, news, i, claim)
    requires p < |news| && claim[p].None? && news[p] == olds[i]
    ensures ClaimsSound(olds, news, j, claim[p := Some(i)])
  {
  }

  lemma ExitsStepNone(olds: seq<int>, news: seq<int>, i: nat, j: nat, claim: seq<Option<nat>>, exited: seq<nat>)
    requires i < |olds| && j == i + 1 && |claim| == |news|
    requires ClaimsSound(olds, news, i, claim) && ExitsSound(olds, news, i, claim, exited)
    requires forall p :: 0 <= p < |news| && news[p] == olds[i] ==> claim[p].Some?
    ensures ExitsSound(olds, news, j, claim, exited + [i])
  {
    var e := exited + [i];
    assert Unclaimed(claim, i);
    forall x | 0 <= x < j
      ensures x in e <==> Unclaimed(claim, x)
    {
      assert x in e <==> x in exited || x == i;
    }
    assert forall q :: 0 <= q < |exited| ==> e[q] == exited[q];
  }

  lemma ExitsStepSome(olds: seq<int>, news: seq<int>, i: nat, j: nat, claim: seq<Option<nat>>, exited: seq<nat>, p: nat)
    requires i < |olds| && j == i + 1 && |claim| == |news|
    requires ClaimsSound(olds, news, i, claim) && ExitsSound(olds, news, i, claim, exited)
    requires p < |news| && claim[p].None?
    ensures ExitsSound(olds, news, j, claim[p := Some(i)], exited)
  {
    var c := claim[p := Some(i)];
    forall x | 0 <= x < j
      ensures x in exited <==> Unclaimed(c, x)
    {
      if x < i {
        assert Unclaimed(c, x) <==> Unclaimed(claim, x) by {
          assert forall q :: 0 <= q < |news| ==> (c[q] == Some(x) <==> claim[q] == Some(x));
        }
      } else {
        assert c[p] == Some(x);
      }
    }
  }

  lemma MovesStep(news: seq<int>, i: nat, j: nat, claim: seq<Option<nat>>, from: seq<nat>, to: seq<nat>, p: nat)
    requires j == i + 1 && |claim| == |news| && MovesSound(news, i, claim, from, to)
    requires p < |news| && claim[p].None?
    ensures var moved := i != p;
      MovesSound(news, j, claim[p := Some(i)], from + (if moved then [i] else []), to + (if moved then [p] else []))
  {
  }

  lemma PlanStepInv(olds: seq<int>, news: seq<int>, i: nat, j: nat, st: Plan)
    requires i < |olds| && j == i + 1 && PlanInv(olds, news, i, st)
    ensures PlanInv(olds, news, j, PlanStep(st, i, olds[i], news))
  {
    match Probe(olds[i], news, st.claim, st.k, 0)
    case None =>
      ProbeNone(olds[i], news, st.claim, st.k);
      ExitsStepNone(olds, news, i, j, st.claim, st.exited);
    case Some(p) =>
      ClaimsStep(olds, news, i, j, st.claim, p);
      ExitsStepSome(olds, news, i, j, st.claim, st.exited, p);
      MovesStep(news, i, j, st.claim, st.from, st.to, p);
  }

  lemma {:induction false} PlanUpToInv(olds: seq<int>, news: seq<int>, i: nat)
    requires i <= |olds|
    ensures PlanInv(olds, news, i, PlanUpTo(olds, news, i))
  {
    if i > 0 {
      var h := i - 1;
      var st := PlanUpTo(olds, news, h);
      PlanUpToInv(olds, news, h);
      assert PlanUpTo(olds, news, i) == PlanStep(st, h, olds[h], news);
      PlanStepInv(olds, news, h, i, st);
    }
  }

  /**
   * The matching is a partial injection from old to new indices between
   * equal items; an old index is exited exactly when it is unmatched, and
   * only when every equal new item is already taken; `from` / `to` pair
   * matches that changed index, in the order of the old indices, and `to`
   * holds no index twice.
   */
  lemma MatchingSound(olds: seq<int>, news: seq<int>)
    ensures var m := Matching(olds, news);
      && (forall p :: 0 <= p < |news| && m.claim[p].Some? ==> m.claim[p].value < |olds| && olds[m.claim[p].value] == news[p])
      && (forall p, q :: 0 <= p < q < |news| && m.claim[p].Some? ==> m.claim[p] != m.claim[q])
      && (forall x :: 0 <= x < |olds| ==> (x in m.exited <==> Unclaimed(m.claim, x)))
      && (forall q :: 0 <= q < |m.exited| ==> m.exited[q] < |olds|)
      && Increasing(m.exited)
      && (forall q, p :: 0 <= q < |m.exited| && 0 <= p < |news| && news[p] == olds[m.exited[q]] ==> m.claim[p].Some?)
      && |m.from| == |m.to|
      && (forall q :: 0 <= q < |m.from| ==> m.to[q] < |news| && m.claim[m.to[q]] == Some(m.from[q]) && m.from[q] != m.to[q])
      && (forall a, b :: 0 <= a < b < |m.to| ==> m.to[a] != m.to[b])
  {
    var m := Matching(olds, news);
    PlanUpToInv(olds, news, |olds|);
    forall a, b | 0 <= a < b < |m.to|
      ensures m.to[a] != m.to[b]
    {
      assert m.from[a] < m.from[b];
    }
  }

  /** With the same items as before, every old index keeps its place: nothing is exited, moved or entered. */
  lemma {:induction false} MatchingUnchangedUpTo(xs: seq<int>, i: nat)
    requires i <= |xs|
    ensures var st := PlanUpTo(xs, xs, i);
      && st.k == (if i < |xs| then i else 0) && st.exited == [] && st.from == [] && st.to == []
      && forall p :: 0 <= p < |xs| ==> st.claim[p] == if p < i then Some(p) else None
  {
    if i > 0 {
      var h := i - 1;
      MatchingUnchangedUpTo(xs, h);
      var st := PlanUpTo(xs, xs, h);
      ModSmall(h, |xs|);
      assert st.claim[h].None?;
      assert Probe(xs[h], xs, st.claim, st.k, 0) == Some(h);
      assert PlanUpTo(xs, xs, i) == PlanStep(st, h, xs[h], xs);
      ModSmall(i, |xs|);
    }
  }

  lemma MatchingUnchanged(xs: seq<int>)
    ensures forall p :: 0 <= p < |xs| ==> Matching(xs, xs).claim[p] == Some(p)
    ensures Matching(xs, xs).exited == [] && Matching(xs, xs).from == [] && Matching(xs, xs).to == []
  {
    MatchingUnchangedUpTo(xs, |xs|);
  }

  // ---------------------------------------------------------------------------
  // The effects and the result of an update
  // ---------------------------------------------------------------------------

  /** The calls made for one unmatched old index x: `exit(item, x)`, then `item.dispose()` when there is an `enter`. */
  function ExitOne(args: seq<Mapped>, x: nat, exit: bool, dispose: bool): (r: seq<Effect>)
  {
    if x < |args| then (if exit then [Exited(args[x], x)] else []) + (if dispose then [Disposed(args[x])] else [])
    else []
  }

  /** The exit calls for the exited old indices, in order. */
  function Exits(args: seq<Mapped>, xs: seq<nat>, exit: bool, dispose: bool): (r: seq<Effect>)
    decreases |xs|
  {
    if |xs| == 0 then []
    else Exits(args, xs[..|xs| - 1], exit, dispose) + ExitOne(args, xs[|xs| - 1], exit, dispose)
  }

  /** `if (move && from.length) move(from, to)` */
  function Moves(m: Plan, move: bool): (r: seq<Effect>)
  {
    if move && |m.from| > 0 then [Moved(m.from, m.to)] else []
  }

  /** The `enter` calls for the unclaimed new indices below q, in order. */
  function EntersUpTo(news: seq<int>, claim: seq<Option<nat>>, enter: bool, q: nat): (r: seq<Effect>)
    requires q <= |news| == |claim|
  {
    if q == 0 then []
    else EntersUpTo(news, claim, enter, q - 1) + (if enter && claim[q - 1].None? then [EnterCalled(news[q - 1], q - 1)] else [])
  }

  /** The new entry at index q: the old entry that claimed it, else a new formula, else the item. */
  function Slot(olds: seq<Mapped>, news: seq<int>, claim: seq<Option<nat>>, enter: bool, q: nat): (r: Mapped)
    requires q < |news| == |claim|
  {
    if claim[q].Some? && claim[q].value < |olds| then olds[claim[q].value]
    else if enter then Entered(news[q], q)
    else Item(news[q])
  }

  /** mapS's new `mapped` array. */
  function Rebuilt(olds: seq<Mapped>, news: seq<int>, claim: seq<Option<nat>>, enter: bool): (r: seq<Mapped>)
    requires |claim| == |news|
  {
    seq(|news|, q requires 0 <= q < |news| => Slot(olds, news, claim, enter, q))
  }

  /** The entries forEach passes to `exit`: the items themselves. */
  function Items(xs: seq<int>): (r: seq<Mapped>)
    ensures |r| == |xs| && forall q :: 0 <= q < |xs| ==> r[q] == Item(xs[q])
  {
    seq(|xs|, q requires 0 <= q < |xs| => Item(xs[q]))
  }

  /** An update with unchanged items rebuilds the same array and calls no callback. */
  lemma UpdateUnchanged(mapped: seq<Mapped>, xs: seq<int>, exit: bool, enter: bool, move: bool)
    requires |mapped| == |xs|
    ensures Rebuilt(mapped, xs, Matching(xs, xs).claim, enter) == mapped
    ensures Exits(mapped, Matching(xs, xs).exited, exit, enter) == []
    ensures Moves(Matching(xs, xs), move) == []
    ensures EntersUpTo(xs, Matching(xs, xs).claim, enter, |xs|) == []
  {
    MatchingUnchanged(xs);
    var claim := Matching(xs, xs).claim;
    assert forall q :: 0 <= q < |xs| ==> Slot(mapped, xs, claim, enter, q) == mapped[q];
    NoEnters(xs, claim, enter, |xs|);
  }

  lemma {:induction false} NoEnters(news: seq<int>, claim: seq<Option<nat>>, enter: bool, q: nat)
    requires q <= |news| == |claim| && forall p :: 0 <= p < |news| ==> claim[p].Some?
    ensures EntersUpTo(news, claim, enter, q) == []
  {
    if q > 0 {
      NoEnters(news, claim, enter, q - 1);
    }
  }

  /** `enter` is called for exactly the unclaimed new indices, each once, in increasing order. */
  lemma {:induction false} EntersExactly(news: seq<int>, claim: seq<Option<nat>>, q: nat, e: Effect)
    requires q <= |news| == |claim|
    ensures e in EntersUpTo(news, claim, true, q) <==>
      e.EnterCalled? && e.index < q && claim[e.index].None? && e.item == news[e.index]
  {
    if q > 0 {
      EntersExactly(news, claim, q - 1, e);
    }
  }

  /** `mapped[i] = x`, which appends when i is the array's length. */
  function Assigned(s: seq<Mapped>, i: nat, x: Mapped): (r: seq<Mapped>)
    requires i <= |s|
    ensures |r| == if i < |s| then |s| else i + 1
    ensures r[i] == x && forall p :: 0 <= p < |s| && p != i ==> r[p] == s[p]
  {
    if i < |s| then s[i := x] else s + [x]
  }

  // ---------------------------------------------------------------------------
  // The reconcilers
  // ---------------------------------------------------------------------------

  /** The closure state of `seq.mapS(enter, exit, move)`; the flags say which callbacks were given. */
  class MapS {
    const enter: bool
    const exit: bool
    const move: bool
    var items: seq<int>
    var mapped: seq<Mapped>
    var len: nat
    var log: seq<Effect>

    predicate Valid()
      reads this
    {
      |items| == len && |mapped| == len
      && (!enter ==> forall q :: 0 <= q < len ==> mapped[q] == Item(items[q]))
    }

    constructor (enter: bool, exit: bool, move: bool)
      ensures Valid() && this.enter == enter && this.exit == exit && this.move == move
      ensures items == [] && mapped == [] && len == 0 && log == []
    {
      this.enter := enter;
      this.exit := exit;
      this.move := move;
      items := [];
      mapped := [];
      len := 0;
      log := [];
    }

    /** One run of the mapS formula, with `news` the value of `seq()`. */
    method Update(news: seq<int>) returns (result: seq<Mapped>)
      requires Valid()
      modifies this
      ensures Valid() && result == mapped
      ensures items == news && len == |news|
      ensures mapped == Rebuilt(old(mapped), news, Matching(old(items), news).claim, enter)
      ensures log == old(log) + Exits(old(mapped), Matching(old(items), news).exited, exit, enter)
        + Moves(Matching(old(items), news), move) + EntersUpTo(news, Matching(old(items), news).claim, enter, |news|)
    {
      // 1) match the old items to unclaimed equal new ones; exit the rest
      var temp, from, to, exits, claim := MatchEntries(items, mapped, news, exit, enter);
      var out := log + exits;
      if move && |from| > 0 {
        out := out + [Moved(from, to)];
      }
      // 2) fill in the new entries, reusing claimed ones; 3) cut the array to the new length
      var entries, enters := FillEntries(mapped, temp, news, enter, claim);
      if !enter {
        PlanUpToInv(items, news, |items|);
        ItemsKept(mapped, items, news, claim);
      }
      // 4) keep a copy of the new items
      mapped := entries;
      len := |news|;
      items := news;
      log := out + enters;
      result := mapped;
    }
  }

  /** Loop 1 of mapS: the `temp` array of reused entries, `from`, `to`, and the exit and dispose calls. */
  method MatchEntries(olds: seq<int>, entries: seq<Mapped>, news: seq<int>, exit: bool, dispose: bool)
    returns (temp: seq<Option<Mapped>>, from: seq<nat>, to: seq<nat>, effects: seq<Effect>, ghost claim: seq<Option<nat>>)
    requires |olds| == |entries|
    ensures var m := Matching(olds, news); claim == m.claim && from == m.from && to == m.to
    ensures effects == Exits(entries, Matching(olds, news).exited, exit, dispose)
    ensures |temp| == |news| && forall p :: 0 <= p < |news| ==> Held(temp, claim, entries, |olds|, p)
  {
    var n := |news|;
    temp := seq(n, _ => None);
    from, to, effects := [], [], [];
    var k: nat := 0;
    claim := seq(n, _ => None);
    ghost var exited: seq<nat> := [];
    for i: nat := 0 to |olds|
      invariant Plan(k, claim, exited, from, to) == PlanUpTo(olds, news, i)
      invariant |temp| == n && |claim| == n && KInRange(k, n)
      invariant forall p :: 0 <= p < n ==> Held(temp, claim, entries, i, p)
      invariant effects == Exits(entries, exited, exit, dispose)
    {
      temp, from, to, effects, k, claim, exited := MatchStep(olds, entries, news, exit, dispose, i, i + 1, temp, from, to, effects, k, claim, exited);
    }
  }

  /** One iteration of loop 1 of mapS, for old index i. */
  method MatchStep(olds: seq<int>, entries: seq<Mapped>, news: seq<int>, exit: bool, dispose: bool, i: nat, j: nat,
                   temp: seq<Option<Mapped>>, from: seq<nat>, to: seq<nat>, effects: seq<Effect>, k: nat,
                   ghost claim: seq<Option<nat>>, ghost exited: seq<nat>)
    returns (temp': seq<Option<Mapped>>, from': seq<nat>, to': seq<nat>, effects': seq<Effect>, k': nat,
             ghost claim': seq<Option<nat>>, ghost exited': seq<nat>)
    requires |olds| == |entries| && i < |olds| && j == i + 1
    requires Plan(k, claim, exited, from, to) == PlanUpTo(olds, news, i)
    requires |temp| == |news| && forall p :: 0 <= p < |news| ==> Held(temp, claim, entries, i, p)
    requires effects == Exits(entries, exited, exit, dispose)
    ensures Plan(k', claim', exited', from', to') == PlanUpTo(olds, news, j)
    ensures |temp'| == |news| && forall p :: 0 <= p < |news| ==> Held(temp', claim', entries, j, p)
    ensures effects' == Exits(entries, exited', exit, dispose)
  {
    HeldFree(temp, claim, entries, i, |news|);
    var slot := SearchTemp(olds[i], news, temp, claim, k);
    if slot.Some? {
      ClaimedPlan(olds, news, i, Plan(k, claim, exited, from, to), slot.value);
      temp', from', to', k', claim' := ClaimStep(entries, news, i, j, temp, from, to, claim, slot.value);
      effects', exited' := effects, exited;
    } else {
      ExitedPlan(olds, news, i, Plan(k, claim, exited, from, to));
      effects', exited' := ExitStep(entries, exit, dispose, i, effects, exited);
      HeldGrow(temp, claim, entries, i, |news|, j);
      temp', from', to', k', claim' := temp, from, to, k, claim;
    }
  }

  /** Old index i takes the free new index p: `temp[p] = mapped[i]`, and a move is noted when p differs from i. */
  method ClaimStep(entries: seq<Mapped>, news: seq<int>, i: nat, j: nat, temp: seq<Option<Mapped>>,
                   from: seq<nat>, to: seq<nat>, ghost claim: seq<Option<nat>>, p: nat)
    returns (temp': seq<Option<Mapped>>, from': seq<nat>, to': seq<nat>, k': nat, ghost claim': seq<Option<nat>>)
    requires i < |entries| && j == i + 1 && p < |news| == |temp| == |claim| && claim[p].None?
    requires forall q :: 0 <= q < |news| ==> Held(temp, claim, entries, i, q)
    ensures temp' == temp[p := Some(entries[i])] && claim' == claim[p := Some(i)]
    ensures from' == from + (if i != p then [i] else []) && to' == to + (if i != p then [p] else [])
    ensures k' == Wrapped(p + 1, |news|)
    ensures forall q :: 0 <= q < |news| ==> Held(temp', claim', entries, j, q)
  {
    HeldUpdate(temp, claim, entries, i, |news|, p, temp[p := Some(entries[i])], claim[p := Some(i)], j);
    temp' := temp[p := Some(entries[i])];
    claim' := claim[p := Some(i)];
    from', to' := from, to;
    if i != p {
      from' := from + [i];
      to' := to + [p];
    }
    ModSmall(p + 1, |news|);
    k' := (p + 1) % |news|;
  }

  /** Old index i found no new index: `exit(mapped[i], i)`, then `mapped[i].dispose()` when there is an `enter`. */
  method ExitStep(entries: seq<Mapped>, exit: bool, dispose: bool, i: nat, effects: seq<Effect>, ghost exited: seq<nat>)
    returns (effects': seq<Effect>, ghost exited': seq<nat>)
    requires i < |entries| && effects == Exits(entries, exited, exit, dispose)
    ensures exited' == exited + [i] && effects' == Exits(entries, exited', exit, dispose)
  {
    ExitsAppend(entries, exited, i, exit, dispose);
    exited' := exited + [i];
    effects' := effects;
    if exit {
      effects' := effects' + [Exited(entries[i], i)];
    }
    if dispose {
      effects' := effects' + [Disposed(entries[i])];
    }
  }

  /** The plan after old index i when its search finds new index p. */
  lemma ClaimedPlan(olds: seq<int>, news: seq<int>, i: nat, st: Plan, p: nat)
    requires i < |olds| && st == PlanUpTo(olds, news, i)
    requires Probe(olds[i], news, st.claim, st.k, 0) == Some(p)
    ensures PlanUpTo(olds, news, i + 1) ==
      Plan(Wrapped(p + 1, |news|), st.claim[p := Some(i)], st.exited,
        st.from + (if i != p then [i] else []), st.to + (if i != p then [p] else []))
  {
  }

  /** The plan after old index i when its search finds nothing. */
  lemma ExitedPlan(olds: seq<int>, news: seq<int>, i: nat, st: Plan)
    requires i < |olds| && st == PlanUpTo(olds, news, i)
    requires Probe(olds[i], news, st.claim, st.k, 0).None?
    ensures PlanUpTo(olds, news, i + 1) == st.(exited := st.exited + [i])
  {
  }

  /** Loops 2 and 3 of mapS: the new `mapped` array, and the `enter` calls made while filling it. */
  method FillEntries(mapped: seq<Mapped>, temp: seq<Option<Mapped>>, news: seq<int>, enter: bool, ghost claim: seq<Option<nat>>)
    returns (entries: seq<Mapped>, effects: seq<Effect>)
    requires |temp| == |claim| == |news| && forall p :: 0 <= p < |news| ==> Held(temp, claim, mapped, |mapped|, p)
    ensures entries == Rebuilt(mapped, news, claim, enter)
    ensures effects == EntersUpTo(news, claim, enter, |news|)
  {
    var n := |news|;
    entries, effects := mapped, [];
    for q := 0 to n
      invariant q <= |entries| && (q < |mapped| ==> |entries| == |mapped|)
      invariant forall p :: 0 <= p < q ==> entries[p] == Slot(mapped, news, claim, enter, p)
      invariant effects == EntersUpTo(news, claim, enter, q)
    {
      assert Held(temp, claim, mapped, |mapped|, q);
      if temp[q].Some? {
        entries := Assigned(entries, q, temp[q].value);
      } else {
        var item := news[q];
        if enter {
          effects := effects + [EnterCalled(item, q)];
          entries := Assigned(entries, q, Entered(item, q));
        } else {
          entries := Assigned(entries, q, Item(item));
        }
      }
    }
    entries := entries[..n];
  }

  /** temp[p] holds the entry of the old index that claimed p, or nothing; every claim comes from an old index below i. */
  predicate Held(temp: seq<Option<Mapped>>, claim: seq<Option<nat>>, mapped: seq<Mapped>, i: nat, p: nat)
    requires p < |temp| == |claim| && i <= |mapped|
  {
    if claim[p].Some? then claim[p].value < i && temp[p] == Some(mapped[claim[p].value]) else temp[p].None?
  }

  lemma HeldUpdate(temp: seq<Option<Mapped>>, claim: seq<Option<nat>>, mapped: seq<Mapped>, i: nat, n: nat, k: nat,
                   temp': seq<Option<Mapped>>, claim': seq<Option<nat>>, j: nat)
    requires |temp| == |claim| == n && i < |mapped| && k < n && claim[k].None? && j == i + 1
    requires temp' == temp[k := Some(mapped[i])] && claim' == claim[k := Some(i)]
    requires forall p :: 0 <= p < n ==> Held(temp, claim, mapped, i, p)
    ensures forall p :: 0 <= p < n ==> Held(temp', claim', mapped, j, p)
  {
    forall p | 0 <= p < n
      ensures Held(temp', claim', mapped, j, p)
    {
      assert Held(temp, claim, mapped, i, p);
    }
  }

  lemma HeldGrow(temp: seq<Option<Mapped>>, claim: seq<Option<nat>>, mapped: seq<Mapped>, i: nat, n: nat, j: nat)
    requires |temp| == |claim| == n && i < |mapped| && j == i + 1
    requires forall p :: 0 <= p < n ==> Held(temp, claim, mapped, i, p)
    ensures forall p :: 0 <= p < n ==> Held(temp, claim, mapped, j, p)
  {
    forall p | 0 <= p < n
      ensures Held(temp, claim, mapped, j, p)
    {
      assert Held(temp, claim, mapped, i, p);
    }
  }

  /** Whether temp[p] is empty is whether p is unclaimed. */
  lemma HeldFree(temp: seq<Option<Mapped>>, claim: seq<Option<nat>>, mapped: seq<Mapped>, i: nat, n: nat)
    requires |temp| == |claim| == n && i <= |mapped|
    requires forall p :: 0 <= p < n ==> Held(temp, claim, mapped, i, p)
    ensures forall p :: 0 <= p < n ==> (temp[p].None? <==> claim[p].None?)
  {
    forall p | 0 <= p < n
      ensures temp[p].None? <==> claim[p].None?
    {
      assert Held(temp, claim, mapped, i, p);
    }
  }

  /**
   * mapS's inner loop: from `k`, step round-robin through the new items
   * for one equal to v whose `temp` slot is empty.
   */
  method SearchTemp(v: int, news: seq<int>, temp: seq<Option<Mapped>>, ghost claim: seq<Option<nat>>, k0: nat)
    returns (r: Option<nat>)
    requires |temp| == |claim| == |news| && KInRange(k0, |news|)
    requires forall p :: 0 <= p < |news| ==> (temp[p].None? <==> claim[p].None?)
    ensures r == Probe(v, news, claim, k0, 0)
  {
    var n := |news|;
    var k := k0;
    for j := 0 to n
      invariant k == Wrapped(k0 + j, n)
      invariant Probe(v, news, claim, k0, j) == Probe(v, news, claim, k0, 0)
    {
      if v == news[k] && temp[k].None? {
        return Some(k);
      }
      ModSmall(k + 1, n);
      k := (k + 1) % n;
    }
    return None;
  }

  /** forEach's inner loop, over its `found` flags. */
  method SearchFound(v: int, news: seq<int>, found: seq<bool>, ghost claim: seq<Option<nat>>, k0: nat)
    returns (r: Option<nat>)
    requires |found| == |claim| == |news| && KInRange(k0, |news|)
    requires forall p :: 0 <= p < |news| ==> (found[p] <==> claim[p].Some?)
    ensures r == Probe(v, news, claim, k0, 0)
  {
    var n := |news|;
    var k := k0;
    for j := 0 to n
      invariant k == Wrapped(k0 + j, n)
      invariant Probe(v, news, claim, k0, j) == Probe(v, news, claim, k0, 0)
    {
      if v == news[k] && !found[k] {
        return Some(k);
      }
      ModSmall(k + 1, n);
      k := (k + 1) % n;
    }
    return None;
  }

  /** Without `enter`, a claimed entry is the old item, which equals the new one. */
  lemma ItemsKept(olds: seq<Mapped>, oldItems: seq<int>, news: seq<int>, claim: seq<Option<nat>>)
    requires |claim| == |news| && |olds| == |oldItems|
    requires forall q :: 0 <= q < |olds| ==> olds[q] == Item(oldItems[q])
    requires forall p :: 0 <= p < |news| && claim[p].Some? ==> claim[p].value < |oldItems| && oldItems[claim[p].value] == news[p]
    ensures forall q :: 0 <= q < |news| ==> Rebuilt(olds, news, claim, false)[q] == Item(news[q])
  {
  }

  lemma ExitsAppend(args: seq<Mapped>, xs: seq<nat>, x: nat, exit: bool, dispose: bool)
    ensures Exits(args, xs + [x], exit, dispose) == Exits(args, xs, exit, dispose) + ExitOne(args, x, exit, dispose)
  {
    assert (xs + [x])[..|xs|] == xs;
  }

  /** The closure state of `seq.forEach(enter, exit, move)`. */
  class ForEach {
    const enter: bool
    const exit: bool
    const move: bool
    var items: seq<int>
    var len: nat
    var log: seq<Effect>

    predicate Valid()
      reads this
    {
      |items| == len
    }

    constructor (enter: bool, exit: bool, move: bool)
      ensures Valid() && this.enter == enter && this.exit == exit && this.move == move
      ensures items == [] && len == 0 && log == []
    {
      this.enter := enter;
      this.exit := exit;
      this.move := move;
      items := [];
      len := 0;
      log := [];
    }

    /** One run of the forEach formula, with `news` the value of `seq()`; it returns the copy of the new items. */
    method Update(news: seq<int>) returns (result: seq<int>)
      requires Valid()
      modifies this
      ensures Valid() && result == items
      ensures items == news && len == |news|
      ensures log == old(log) + Exits(Items(old(items)), Matching(old(items), news).exited, exit, false)
        + Moves(Matching(old(items), news), move) + EntersUpTo(news, Matching(old(items), news).claim, enter, |news|)
    {
      // 1) match the old items to unclaimed equal new ones; exit the rest
      var found, from, to, exits, claim := MatchItems(items, news, exit);
      var out := log + exits;
      if move && |from| > 0 {
        out := out + [Moved(from, to)];
      }
      // 2) enter the unclaimed new items, inside S.pin
      var n := |news|;
      ghost var before := out;
      if enter {
        for q := 0 to n
          invariant out == before + EntersUpTo(news, claim, enter, q)
        {
          if !found[q] {
            out := out + [EnterCalled(news[q], q)];
          }
        }
      } else {
        NoEntersWithout(news, claim, n);
      }
      // 3) and 4)
      len := n;
      items := news;
      log := out;
      result := items;
    }
  }

  /** Loop 1 of forEach: the `found` flags, `from`, `to`, and the exit calls. */
  method MatchItems(olds: seq<int>, news: seq<int>, exit: bool)
    returns (found: seq<bool>, from: seq<nat>, to: seq<nat>, effects: seq<Effect>, ghost claim: seq<Option<nat>>)
    ensures var m := Matching(olds, news); claim == m.claim && from == m.from && to == m.to
    ensures effects == Exits(Items(olds), Matching(olds, news).exited, exit, false)
    ensures |found| == |news| && forall p :: 0 <= p < |news| ==> (found[p] <==> claim[p].Some?)
  {
    var n := |news|;
    found := seq(n, _ => false);
    from, to, effects := [], [], [];
    var k: nat := 0;
    claim := seq(n, _ => None);
    ghost var exited: seq<nat> := [];
    var args := Items(olds);
    for i: nat := 0 to |olds|
      invariant Plan(k, claim, exited, from, to) == PlanUpTo(olds, news, i)
      invariant |claim| == n && KInRange(k, n)
      invariant |found| == n && forall p :: 0 <= p < n ==> (found[p] <==> claim[p].Some?)
      invariant effects == Exits(args, exited, exit, false)
    {
      found, from, to, effects, k, claim, exited := ItemStep(olds, args, news, exit, i, i + 1, found, from, to, effects, k, claim, exited);
    }
  }

  /** One iteration of loop 1 of forEach, for old index i. */
  method ItemStep(olds: seq<int>, args: seq<Mapped>, news: seq<int>, exit: bool, i: nat, j: nat,
                  found: seq<bool>, from: seq<nat>, to: seq<nat>, effects: seq<Effect>, k: nat,
                  ghost claim: seq<Option<nat>>, ghost exited: seq<nat>)
    returns (found': seq<bool>, from': seq<nat>, to': seq<nat>, effects': seq<Effect>, k': nat,
             ghost claim': seq<Option<nat>>, ghost exited': seq<nat>)
    requires |args| == |olds| && i < |olds| && j == i + 1
    requires Plan(k, claim, exited, from, to) == PlanUpTo(olds, news, i)
    requires |claim| == |news| && KInRange(k, |news|)
    requires |found| == |news| && forall p :: 0 <= p < |news| ==> (found[p] <==> claim[p].Some?)
    requires effects == Exits(args, exited, exit, false)
    ensures Plan(k', claim', exited', from', to') == PlanUpTo(olds, news, j)
    ensures |claim'| == |news| && KInRange(k', |news|)
    ensures |found'| == |news| && forall p :: 0 <= p < |news| ==> (found'[p] <==> claim'[p].Some?)
    ensures effects' == Exits(args, exited', exit, false)
  {
    var slot := SearchFound(olds[i], news, found, claim, k);
    found', from', to', effects', k', claim', exited' := found, from, to, effects, k, claim, exited;
    if slot.Some? {
      ClaimedPlan(olds, news, i, Plan(k, claim, exited, from, to), slot.value);
      found', from', to', k', claim' := FoundStep(news, i, found, from, to, claim, slot.value);
    } else {
      ExitedPlan(olds, news, i, Plan(k, claim, exited, from, to));
      effects', exited' := ExitStep(args, exit, false, i, effects, exited);
    }
  }

  /** forEach's old index i takes the free new index p: `found[p] = true`, and a move is noted when p differs from i. */
  method FoundStep(news: seq<int>, i: nat, found: seq<bool>, from: seq<nat>, to: seq<nat>, ghost claim: seq<Option<nat>>, p: nat)
    returns (found': seq<bool>, from': seq<nat>, to': seq<nat>, k': nat, ghost claim': seq<Option<nat>>)
    requires p < |news| == |found| == |claim| && forall q :: 0 <= q < |news| ==> (found[q] <==> claim[q].Some?)
    ensures found' == found[p := true] && claim' == claim[p := Some(i)]
    ensures from' == from + (if i != p then [i] else []) && to' == to + (if i != p then [p] else [])
    ensures k' == Wrapped(p + 1, |news|)
    ensures forall q :: 0 <= q < |news| ==> (found'[q] <==> claim'[q].Some?)
  {
    found' := found[p := true];
    claim' := claim[p := Some(i)];
    from', to' := from, to;
    if i != p {
      from' := from + [i];
      to' := to + [p];
    }
    ModSmall(p + 1, |news|);
    k' := (p + 1) % |news|;
  }

  lemma {:induction false} NoEntersWithout(news: seq<int>, claim: seq<Option<nat>>, q: nat)
    requires q <= |news| == |claim|
    ensures EntersUpTo(news, claim, false, q) == []
  {
    if q > 0 {
      NoEntersWithout(news, claim, q - 1);
    }
  }
}
