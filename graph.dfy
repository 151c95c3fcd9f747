/**
 * The dependency graph of the reactive engine (module 'graph' of
 * dist/surplus.js): sources with their slot arrays, targets with their
 * lineage, generation and listening/locking flags, and dependencies that own
 * one slot each. The JavaScript objects live in an arena and are named by
 * their index there; `Overseer` holds the arena together with the fields of
 * the JavaScript Overseer.
 */
module Graph {
  import opened Wrappers

  /** What the engine can throw. */
  datatype Error =
    | UserError           // a formula body threw
    | LockedParent        // addSubformula on a locked target
    | CleanupAtTopLevel   // S.cleanup with no running formula
    | FinalizeAtTopLevel  // S.finalize with no running formula
    | TypeError           // a property of null or undefined was used
    | OutOfFuel           // the model's bound on nested calls ran out

  /**
   * A function stored in a slot or in `updaters`: `Raw(f)` is the `update`
   * closure of formula f; `Wrapped(owner, inner)` is what the scheduler of
   * target `owner` returned when it was applied to `inner`.
   */
  datatype Updater = Raw(formula: nat) | Wrapped(owner: nat, inner: Updater)

  /** A function kept in `cleanups`, `finalizers` or `deferred`: a user function, named by a tag, or the `dispose` of a formula. */
  datatype Callback = Note(tag: nat) | DisposeOf(formula: nat)

  /**
   * A Source. `lineage` is `None` when it was made under a disposed target
   * (whose lineage is null); `live` turns false when `dispose` nulls the
   * lineage and truncates the slots.
   */
  datatype Source = Source(lineage: Option<seq<nat>>, updates: seq<Option<Updater>>, live: bool)

  /**
   * A Target. `scheduled` says whether `options.update` gave it a scheduler;
   * `index` is `dependenciesIndex`, from source id to dependency. `live`
   * turns false when `dispose` nulls the object's lists; the lists are then
   * empty here.
   */
  datatype Target = Target(
    lineage: seq<nat>, scheduled: bool, listening: bool, pinning: bool, locked: bool, gen: nat,
    dependencies: seq<nat>, index: map<nat, nat>,
    cleanups: seq<Callback>, finalizers: seq<Callback>, updaters: seq<Updater>, live: bool)

  /** A Dependency of `target` on `source`; it owns slot `offset` of the source's `updates`. */
  datatype Dependency = Dependency(target: nat, source: nat, active: bool, gen: nat, offset: nat, update: Updater)

  /** Every Source, Target and Dependency object ever made, in order of creation. */
  datatype Arena = Arena(sources: seq<Source>, targets: seq<Target>, deps: seq<Dependency>)

  /** `os.count` starts at 1, so the source at arena index s has id s + 1. */
  function SourceId(s: nat): nat { s + 1 }

  // ---------------------------------------------------------------------------
  // Well-formedness: every stored index names an object of the arena.
  // ---------------------------------------------------------------------------

  ghost predicate TargetWF(tg: Target, nt: nat, nd: nat)
  {
    (tg.live ==> |tg.updaters| == |tg.lineage| + 1)
    && (forall j :: 0 <= j < |tg.lineage| ==> tg.lineage[j] < nt)
    && (forall j :: 0 <= j < |tg.dependencies| ==> tg.dependencies[j] < nd)
    && (forall id :: id in tg.index ==> tg.index[id] < nd)
  }

  ghost predicate WF(A: Arena)
  {
    (forall d :: 0 <= d < |A.deps| ==> A.deps[d].target < |A.targets| && A.deps[d].source < |A.sources|)
    && (forall t :: 0 <= t < |A.targets| ==> TargetWF(A.targets[t], |A.targets|, |A.deps|))
  }

  /** The fields the Dependency constructor sets once and nothing assigns again. */
  predicate SameIdentity(a: Dependency, b: Dependency)
  {
    a.target == b.target && a.source == b.source && a.offset == b.offset && a.update == b.update
  }

  /** B is a later state of A: objects are only ever added, and no dependency changes its target, source, offset or updater. */
  ghost predicate Grows(A: Arena, B: Arena)
  {
    |A.sources| <= |B.sources| && |A.targets| <= |B.targets| && |A.deps| <= |B.deps|
    && (forall d :: 0 <= d < |A.deps| ==> SameIdentity(A.deps[d], B.deps[d]))
  }

  lemma GrowsTrans(A: Arena, B: Arena, C: Arena)
    requires Grows(A, B) && Grows(B, C)
    ensures Grows(A, C)
  {
  }

  /** The listening and pinning flags of the targets of A are the same in B. */
  ghost predicate SameFlags(A: Arena, B: Arena)
  {
    |A.targets| <= |B.targets|
    && forall t :: 0 <= t < |A.targets| ==>
         B.targets[t].listening == A.targets[t].listening && B.targets[t].pinning == A.targets[t].pinning
  }

  // ---------------------------------------------------------------------------
  // Slots
  // ---------------------------------------------------------------------------

  /**
   * `updates[k] = v` on a JavaScript array: past the end, the array grows to
   * k + 1 and the holes in between read as undefined.
   */
  function SetSlot(updates: seq<Option<Updater>>, k: nat, v: Option<Updater>): (r: seq<Option<Updater>>)
    ensures |r| == if k < |updates| then |updates| else k + 1
    ensures r[k] == v
    ensures forall j :: 0 <= j < |r| && j != k ==> r[j] == if j < |updates| then updates[j] else None
  {
    if k < |updates| then updates[k := v] else updates + seq(k - |updates|, _ => None) + [v]
  }

  /** What `updates[i]` reads: undefined past the end. */
  function SlotAt(updates: seq<Option<Updater>>, i: nat): Option<Updater>
  {
    if i < |updates| then updates[i] else None
  }

  // ---------------------------------------------------------------------------
  // Lineage divergence and the updater chain
  // ---------------------------------------------------------------------------

  /** The length of the longest common prefix of two lineages: where they diverge. */
  function CommonPrefix(a: seq<nat>, b: seq<nat>): (k: nat)
    ensures k <= |a| && k <= |b|
    ensures forall j :: 0 <= j < k ==> a[j] == b[j]
    ensures k < |a| && k < |b| ==> a[k] != b[k]
  {
    if |a| == 0 || |b| == 0 || a[0] != b[0] then 0 else 1 + CommonPrefix(a[1..], b[1..])
  }

  /**
   * `updaters[k]` of a target with this lineage: its own `update`, wrapped by
   * the scheduler of every lineage member at position k or later that has
   * one (`scheds`), the one nearest the root outermost.
   */
  function Chain(lineage: seq<nat>, scheds: seq<bool>, k: nat, raw: Updater): Updater
    requires |scheds| == |lineage| && k <= |lineage|
    decreases |lineage| - k
  {
    if k == |lineage| then raw
    else
      var inner := Chain(lineage, scheds, k + 1, raw);
      if scheds[k] then Wrapped(lineage[k], inner) else inner
  }

  /** With no scheduler at position k or later, `updaters[k]` is the target's own update. */
  lemma {:induction false} ChainUnwrapped(lineage: seq<nat>, scheds: seq<bool>, k: nat, raw: Updater)
    requires |scheds| == |lineage| && k <= |lineage|
    requires forall j :: k <= j < |lineage| ==> !scheds[j]
    ensures Chain(lineage, scheds, k, raw) == raw
    decreases |lineage| - k
  {
    if k < |lineage| {
      ChainUnwrapped(lineage, scheds, k + 1, raw);
    }
  }

  /**
   * Calling `updaters[k]` first calls the scheduler of the lineage member
   * nearest the root among those at position k or later that have one, and
   * hands it `updaters[j + 1]`.
   */
  lemma {:induction false} ChainFirstScheduler(lineage: seq<nat>, scheds: seq<bool>, k: nat, j: nat, raw: Updater)
    requires |scheds| == |lineage| && k <= j < |lineage|
    requires scheds[j] && forall i :: k <= i < j ==> !scheds[i]
    ensures Chain(lineage, scheds, k, raw) == Wrapped(lineage[j], Chain(lineage, scheds, j + 1, raw))
    decreases j - k
  {
    if k < j {
      ChainFirstScheduler(lineage, scheds, k + 1, j, raw);
    }
  }

  /** A `Raw` update is never a scheduler's wrapper: `updaters[k]` is raw exactly when no scheduler sits at position k or later. */
  lemma {:induction false} ChainRawIff(lineage: seq<nat>, scheds: seq<bool>, k: nat, f: nat)
    requires |scheds| == |lineage| && k <= |lineage|
    ensures Chain(lineage, scheds, k, Raw(f)) == Raw(f) <==> forall j :: k <= j < |lineage| ==> !scheds[j]
    decreases |lineage| - k
  {
    if forall j :: k <= j < |lineage| ==> !scheds[j] {
      ChainUnwrapped(lineage, scheds, k, Raw(f));
    } else {
      var j :| k <= j < |lineage| && scheds[j];
      var first := FirstScheduled(scheds, k, j);
      ChainFirstScheduler(lineage, scheds, k, first, Raw(f));
    }
  }

  /** The first scheduled position in [k, j], given that j is scheduled. */
  function FirstScheduled(scheds: seq<bool>, k: nat, j: nat): (i: nat)
    requires k <= j < |scheds| && scheds[j]
    ensures k <= i <= j && scheds[i] && forall m :: k <= m < i ==> !scheds[m]
    decreases j - k
  {
    if scheds[k] then k else FirstScheduled(scheds, k + 1, j)
  }

  // ---------------------------------------------------------------------------
  // The operations of Source, Target and Dependency on the arena
  // ---------------------------------------------------------------------------

  /** The lineage a new Source records: the running target's (null if that target is disposed), or [] at top level. */
  function ParentLineage(A: Arena, target: Option<nat>): Option<seq<nat>>
  {
    match target
    case None => Some([])
    case Some(t) => if t < |A.targets| && A.targets[t].live then Some(A.targets[t].lineage) else None
  }

  /** `dep.activate(gen, src)`: switch the dependency on, refilling its slot in `src`'s array, and stamp the generation. */
  function Activated(A: Arena, d: nat, gen: nat, s: nat): (B: Arena)
    requires d < |A.deps| && s < |A.sources|
    ensures B.targets == A.targets && |B.deps| == |A.deps| && |B.sources| == |A.sources|
    ensures forall e :: 0 <= e < |A.deps| ==> SameIdentity(A.deps[e], B.deps[e]) && (e != d ==> B.deps[e] == A.deps[e])
    ensures B.deps[d].active && B.deps[d].gen == gen
    ensures forall u :: 0 <= u < |A.sources| && u != s ==> B.sources[u] == A.sources[u]
    ensures SameShape(A, B)
  {
    var dep := A.deps[d];
    if dep.active then A.(deps := A.deps[d := dep.(gen := gen)])
    else
      var src := A.sources[s];
      A.(deps := A.deps[d := dep.(active := true, gen := gen)],
         sources := A.sources[s := src.(updates := SetSlot(src.updates, dep.offset, Some(dep.update)))])
  }

  /** `dep.deactivate()`: null the dependency's slot (in its source's array) and switch it off. */
  function Deactivated(A: Arena, d: nat): (B: Arena)
    requires d < |A.deps| && A.deps[d].source < |A.sources|
    ensures B.targets == A.targets && |B.deps| == |A.deps| && |B.sources| == |A.sources|
    ensures forall e :: 0 <= e < |A.deps| ==> SameIdentity(A.deps[e], B.deps[e]) && (e != d ==> B.deps[e] == A.deps[e])
    ensures !B.deps[d].active && B.deps[d].gen == A.deps[d].gen
    ensures forall u :: 0 <= u < |A.sources| && u != A.deps[d].source ==> B.sources[u] == A.sources[u]
    ensures SameShape(A, B)
  {
    var dep := A.deps[d];
    if !dep.active then A
    else
      var src := A.sources[dep.source];
      A.(deps := A.deps[d := dep.(active := false)],
         sources := A.sources[dep.source := src.(updates := SetSlot(src.updates, dep.offset, None))])
  }

  /**
   * `new Dependency(target, src)`: a new active dependency whose slot is
   * appended to the source's array and whose updater is the target's
   * updater at the point where the two lineages diverge. A source with a
   * null lineage makes it throw.
   */
  function WithDependency(A: Arena, t: nat, s: nat): (r: Result<Arena, Error>)
    requires t < |A.targets| && s < |A.sources|
    requires |A.targets[t].updaters| == |A.targets[t].lineage| + 1
    ensures r.Ok? <==> A.sources[s].lineage.Some?
    ensures r.Ok? ==> NewDependencyShape(A, t, s, r.value)
  {
    var tg := A.targets[t];
    var src := A.sources[s];
    match src.lineage
    case None => Err(TypeError)
    case Some(sl) =>
      var d := |A.deps|;
      var dep := Dependency(t, s, true, tg.gen, |src.updates|, tg.updaters[CommonPrefix(tg.lineage, sl)]);
      Ok(Arena(A.sources[s := src.(updates := src.updates + [Some(dep.update)])],
               A.targets[t := tg.(dependencies := tg.dependencies + [d], index := tg.index[SourceId(s) := d])],
               A.deps + [dep]))
  }

  /** The arena after `new Dependency(target, src)` has run: one dependency, one slot, one list entry and one index entry more. */
  ghost predicate NewDependencyShape(A: Arena, t: nat, s: nat, B: Arena)
    requires t < |A.targets| && s < |A.sources| && A.sources[s].lineage.Some?
    requires |A.targets[t].updaters| == |A.targets[t].lineage| + 1
  {
    var tg := A.targets[t];
    var d := |A.deps|;
    |B.deps| == d + 1 && |B.targets| == |A.targets| && |B.sources| == |A.sources|
    && (forall e :: 0 <= e < d ==> B.deps[e] == A.deps[e])
    && B.deps[d] == Dependency(t, s, true, tg.gen, |A.sources[s].updates|,
                               tg.updaters[CommonPrefix(tg.lineage, A.sources[s].lineage.value)])
    && (forall u :: 0 <= u < |A.sources| && u != s ==> B.sources[u] == A.sources[u])
    && B.sources[s] == A.sources[s].(updates := A.sources[s].updates + [Some(B.deps[d].update)])
    && (forall u :: 0 <= u < |A.targets| && u != t ==> B.targets[u] == A.targets[u])
    && B.targets[t] == tg.(dependencies := tg.dependencies + [d], index := tg.index[SourceId(s) := d])
  }

  /** `target.addSource(src)`. */
  function AddedSource(A: Arena, t: nat, s: nat): (r: Result<Arena, Error>)
    requires WF(A) && t < |A.targets| && s < |A.sources|
    ensures !A.targets[t].listening || A.targets[t].locked ==> r == Ok(A)
    ensures A.targets[t].listening && !A.targets[t].locked && !A.targets[t].live ==> r == Err(TypeError)
    ensures r.Ok? ==> WF(r.value) && Stable(A, r.value) && |r.value.targets| == |A.targets|
  {
    var tg := A.targets[t];
    if !tg.listening || tg.locked then Ok(A)
    else if !tg.live then Err(TypeError)
    else if SourceId(s) in tg.index then
      assert TargetWF(tg, |A.targets|, |A.deps|);
      var B := Activated(A, tg.index[SourceId(s)], tg.gen, s);
      ShapeWF(A, B);
      Ok(B)
    else
      var B := WithDependency(A, t, s);
      if B.Ok? then NewDependencyWF(A, t, s, B.value); B else B
  }

  /** One turn of the `endUpdate` loop: a dependency not read in the current generation is switched off. */
  function PruneOne(A: Arena, t: nat, d: nat): (B: Arena)
    requires t < |A.targets| && d < |A.deps| && A.deps[d].source < |A.sources|
  {
    if A.deps[d].active && A.deps[d].gen < A.targets[t].gen then Deactivated(A, d) else A
  }

  /** The arena after the first i turns of the `endUpdate` loop over target t's dependencies. */
  function PrunedUpTo(A: Arena, t: nat, i: nat): (B: Arena)
    requires WF(A) && t < |A.targets| && i <= |A.targets[t].dependencies|
    ensures WF(B) && B.targets == A.targets && |B.deps| == |A.deps| && |B.sources| == |A.sources|
    ensures forall e :: 0 <= e < |A.deps| ==> SameIdentity(A.deps[e], B.deps[e]) && B.deps[e].gen == A.deps[e].gen
  {
    if i == 0 then A
    else
      var B := PrunedUpTo(A, t, i - 1);
      PruneOne(B, t, A.targets[t].dependencies[i - 1])
  }

  /** The arena after the `dispose` loop has deactivated ds[|ds|-1], …, ds[i], last to first. */
  function DeactivatedFrom(A: Arena, ds: seq<nat>, i: nat): (B: Arena)
    requires WF(A) && i <= |ds| && forall j :: 0 <= j < |ds| ==> ds[j] < |A.deps|
    ensures WF(B) && B.targets == A.targets && |B.deps| == |A.deps| && |B.sources| == |A.sources|
    ensures forall e :: 0 <= e < |A.deps| ==> SameIdentity(A.deps[e], B.deps[e]) && B.deps[e].gen == A.deps[e].gen
    decreases |ds| - i
  {
    if i == |ds| then A else Deactivated(DeactivatedFrom(A, ds, i + 1), ds[i])
  }

  /** The end of `Target.dispose`: lineage, scheduler, updaters and the lists are nulled. */
  function Released(A: Arena, t: nat): (B: Arena)
    requires t < |A.targets|
  {
    A.(targets := A.targets[t := A.targets[t].(lineage := [], scheduled := false, updaters := [], cleanups := [],
                                               finalizers := [], dependencies := [], index := map[], live := false)])
  }

  /** `Source.dispose`: the lineage is nulled and the slot array truncated to length 0. */
  function DisposedSource(A: Arena, s: nat): (B: Arena)
    requires s < |A.sources|
    ensures B.targets == A.targets && B.deps == A.deps && |B.sources| == |A.sources|
    ensures B.sources[s] == Source(None, [], false) && forall u :: 0 <= u < |A.sources| && u != s ==> B.sources[u] == A.sources[u]
    ensures Consistent(A) ==> Consistent(B)
  {
    assert Consistent(A) ==> Consistent(A.(sources := A.sources[s := Source(None, [], false)])) by {
      if Consistent(A) { assert WF(A.(sources := A.sources[s := Source(None, [], false)])); }
    }
    A.(sources := A.sources[s := Source(None, [], false)])
  }

  // ---------------------------------------------------------------------------
  // The invariant the graph keeps
  // ---------------------------------------------------------------------------

  /** While a source is live, each dependency's slot holds its updater if it is active and null if not. */
  ghost predicate SlotsAgree(A: Arena)
    requires WF(A)
  {
    forall d :: 0 <= d < |A.deps| && A.sources[A.deps[d].source].live ==>
      A.deps[d].offset < |A.sources[A.deps[d].source].updates|
      && A.sources[A.deps[d].source].updates[A.deps[d].offset] == (if A.deps[d].active then Some(A.deps[d].update) else None)
  }

  /** No two dependencies share a slot of a live source. */
  ghost predicate OffsetsDistinct(A: Arena)
    requires WF(A)
  {
    forall d, e ::
      0 <= d < |A.deps| && 0 <= e < |A.deps| && d != e && A.deps[d].source == A.deps[e].source
      && A.sources[A.deps[d].source].live
      ==> A.deps[d].offset != A.deps[e].offset
  }

  /** `dependenciesIndex[id]` is a dependency of that target on the source with that id. */
  ghost predicate IndexAgrees(A: Arena)
    requires WF(A)
  {
    forall t, id :: 0 <= t < |A.targets| && id in A.targets[t].index ==>
      A.deps[A.targets[t].index[id]].target == t && SourceId(A.deps[A.targets[t].index[id]].source) == id
  }

  /** A live target lists and indexes every dependency it has, and lists only its own. */
  ghost predicate Listed(A: Arena)
    requires WF(A)
  {
    (forall d :: 0 <= d < |A.deps| && A.targets[A.deps[d].target].live ==>
       SourceId(A.deps[d].source) in A.targets[A.deps[d].target].index
       && A.targets[A.deps[d].target].index[SourceId(A.deps[d].source)] == d
       && d in A.targets[A.deps[d].target].dependencies)
    && (forall t, j :: 0 <= t < |A.targets| && 0 <= j < |A.targets[t].dependencies| ==>
          A.deps[A.targets[t].dependencies[j]].target == t)
  }

  /** A dependency's generation never runs ahead of its target's, and a disposed target has no active dependency. */
  ghost predicate GensBounded(A: Arena)
    requires WF(A)
  {
    forall d :: 0 <= d < |A.deps| ==>
      A.deps[d].gen <= A.targets[A.deps[d].target].gen
      && (!A.targets[A.deps[d].target].live ==> !A.deps[d].active)
  }

  ghost predicate Consistent(A: Arena)
  {
    WF(A) && SlotsAgree(A) && OffsetsDistinct(A) && IndexAgrees(A) && Listed(A) && GensBounded(A)
  }

  // ---------------------------------------------------------------------------
  // Every operation keeps the invariant
  // ---------------------------------------------------------------------------

  /** B differs from A at most in which dependencies are active, their generations and the contents of slot arrays. */
  ghost predicate SameShape(A: Arena, B: Arena)
  {
    B.targets == A.targets && |B.deps| == |A.deps| && |B.sources| == |A.sources|
    && (forall e :: 0 <= e < |A.deps| ==> SameIdentity(A.deps[e], B.deps[e]))
    && (forall u :: 0 <= u < |A.sources| ==> B.sources[u].live == A.sources[u].live)
  }

  lemma ShapeKeeps(A: Arena, B: Arena)
    requires Consistent(A) && SameShape(A, B)
    ensures WF(B) && OffsetsDistinct(B) && IndexAgrees(B) && Listed(B)
  {
    ShapeWF(A, B);
    ShapeOffsets(A, B);
    ShapeIndex(A, B);
    ShapeListed(A, B);
  }

  lemma ShapeWF(A: Arena, B: Arena)
    requires WF(A) && SameShape(A, B)
    ensures WF(B)
  {
  }

  lemma ShapeOffsets(A: Arena, B: Arena)
    requires WF(A) && OffsetsDistinct(A) && SameShape(A, B)
    ensures WF(B) && OffsetsDistinct(B)
  {
    ShapeWF(A, B);
  }

  lemma ShapeIndex(A: Arena, B: Arena)
    requires WF(A) && IndexAgrees(A) && SameShape(A, B)
    ensures WF(B) && IndexAgrees(B)
  {
    ShapeWF(A, B);
  }

  lemma ShapeListed(A: Arena, B: Arena)
    requires WF(A) && Listed(A) && SameShape(A, B)
    ensures WF(B) && Listed(B)
  {
    ShapeWF(A, B);
  }

  /** Reactivating a dependency of a live target through its own source, at the target's generation. */
  lemma ActivatedKeeps(A: Arena, d: nat, s: nat)
    requires Consistent(A) && d < |A.deps| && s == A.deps[d].source
    requires A.targets[A.deps[d].target].live
    ensures Consistent(Activated(A, d, A.targets[A.deps[d].target].gen, s))
  {
    var B := Activated(A, d, A.targets[A.deps[d].target].gen, s);
    ShapeKeeps(A, B);
    ActivatedSlots(A, d, A.targets[A.deps[d].target].gen);
    ActivatedGens(A, d);
  }

  lemma ActivatedSlots(A: Arena, d: nat, gen: nat)
    requires WF(A) && SlotsAgree(A) && OffsetsDistinct(A) && d < |A.deps|
    ensures WF(Activated(A, d, gen, A.deps[d].source)) && SlotsAgree(Activated(A, d, gen, A.deps[d].source))
  {
    var s := A.deps[d].source;
    var B := Activated(A, d, gen, s);
    ShapeWF(A, B);
    forall e | 0 <= e < |B.deps| && B.sources[B.deps[e].source].live
      ensures B.deps[e].offset < |B.sources[B.deps[e].source].updates|
      ensures B.sources[B.deps[e].source].updates[B.deps[e].offset]
              == (if B.deps[e].active then Some(B.deps[e].update) else None)
    {
      if B.deps[e].source == s && e != d {
        assert A.deps[e].offset != A.deps[d].offset;
      }
    }
  }

  lemma ActivatedGens(A: Arena, d: nat)
    requires WF(A) && GensBounded(A) && d < |A.deps| && A.targets[A.deps[d].target].live
    ensures WF(Activated(A, d, A.targets[A.deps[d].target].gen, A.deps[d].source))
    ensures GensBounded(Activated(A, d, A.targets[A.deps[d].target].gen, A.deps[d].source))
  {
    ShapeWF(A, Activated(A, d, A.targets[A.deps[d].target].gen, A.deps[d].source));
  }

  /** Switching a dependency off. */
  lemma DeactivatedKeeps(A: Arena, d: nat)
    requires Consistent(A) && d < |A.deps|
    ensures Consistent(Deactivated(A, d))
  {
    var B := Deactivated(A, d);
    ShapeKeeps(A, B);
    DeactivatedSlots(A, d);
    DeactivatedGens(A, d);
  }

  lemma DeactivatedGens(A: Arena, d: nat)
    requires WF(A) && GensBounded(A) && d < |A.deps|
    ensures WF(Deactivated(A, d)) && GensBounded(Deactivated(A, d))
  {
    ShapeWF(A, Deactivated(A, d));
  }

  lemma DeactivatedSlots(A: Arena, d: nat)
    requires WF(A) && SlotsAgree(A) && OffsetsDistinct(A) && d < |A.deps|
    ensures WF(Deactivated(A, d)) && SlotsAgree(Deactivated(A, d))
  {
    var s := A.deps[d].source;
    var B := Deactivated(A, d);
    ShapeWF(A, B);
    forall e | 0 <= e < |B.deps| && B.sources[B.deps[e].source].live
      ensures B.deps[e].offset < |B.sources[B.deps[e].source].updates|
      ensures B.sources[B.deps[e].source].updates[B.deps[e].offset]
              == (if B.deps[e].active then Some(B.deps[e].update) else None)
    {
      if B.deps[e].source == s && e != d {
        assert A.deps[e].offset != A.deps[d].offset;
      }
    }
  }

  /** The requirements under which `addSource` builds a new dependency: a live target that has no dependency on the source yet. */
  ghost predicate CanAddDependency(A: Arena, t: nat, s: nat)
  {
    WF(A) && t < |A.targets| && s < |A.sources| && A.targets[t].live && SourceId(s) !in A.targets[t].index
    && A.sources[s].lineage.Some?
  }

  /** Building a new dependency for a target that had none on that source. */
  lemma WithDependencyKeeps(A: Arena, t: nat, s: nat)
    requires Consistent(A) && CanAddDependency(A, t, s)
    ensures WithDependency(A, t, s).Ok? && Consistent(WithDependency(A, t, s).value)
  {
    var B := WithDependency(A, t, s).value;
    NewDependencyWF(A, t, s, B);
    NewDependencyIndex(A, t, s, B);
    NewDependencyListed(A, t, s, B);
    NewDependencySlots(A, t, s, B);
  }

  lemma NewDependencyWF(A: Arena, t: nat, s: nat, B: Arena)
    requires CanAddDependency(A, t, s) && NewDependencyShape(A, t, s, B)
    ensures WF(B)
  {
    forall u | 0 <= u < |B.targets|
      ensures TargetWF(B.targets[u], |B.targets|, |B.deps|)
    {
      assert TargetWF(A.targets[u], |A.targets|, |A.deps|);
      if u != t {
        TargetWFMono(A.targets[u], |A.targets|, |A.deps|, |B.deps|);
      }
    }
  }

  lemma TargetWFMono(tg: Target, nt: nat, nd: nat, nd': nat)
    requires TargetWF(tg, nt, nd) && nd <= nd'
    ensures TargetWF(tg, nt, nd')
  {
  }

  lemma NewDependencyIndex(A: Arena, t: nat, s: nat, B: Arena)
    requires CanAddDependency(A, t, s) && NewDependencyShape(A, t, s, B) && IndexAgrees(A)
    ensures WF(B) && IndexAgrees(B)
  {
    NewDependencyWF(A, t, s, B);
    forall u, id | 0 <= u < |B.targets| && id in B.targets[u].index
      ensures B.deps[B.targets[u].index[id]].target == u && SourceId(B.deps[B.targets[u].index[id]].source) == id
    {
      if u != t || id != SourceId(s) {
        assert id in A.targets[u].index && B.targets[u].index[id] == A.targets[u].index[id];
      }
    }
  }

  lemma NewDependencyListed(A: Arena, t: nat, s: nat, B: Arena)
    requires CanAddDependency(A, t, s) && NewDependencyShape(A, t, s, B) && Listed(A)
    ensures WF(B) && Listed(B)
  {
    NewDependencyWF(A, t, s, B);
    forall e | 0 <= e < |B.deps| && B.targets[B.deps[e].target].live
      ensures SourceId(B.deps[e].source) in B.targets[B.deps[e].target].index
      ensures B.targets[B.deps[e].target].index[SourceId(B.deps[e].source)] == e
      ensures e in B.targets[B.deps[e].target].dependencies
    {
      if e < |A.deps| {
        var u := A.deps[e].target;
        assert A.deps[e] == B.deps[e];
        assert e in A.targets[u].dependencies;
        assert SourceId(A.deps[e].source) in A.targets[u].index;
        assert SourceId(A.deps[e].source) != SourceId(s) || u != t;
      } else {
        assert B.targets[t].dependencies[|A.targets[t].dependencies|] == e;
      }
    }
    forall u, j | 0 <= u < |B.targets| && 0 <= j < |B.targets[u].dependencies|
      ensures B.deps[B.targets[u].dependencies[j]].target == u
    {
      if u != t || j < |A.targets[t].dependencies| {
        assert B.targets[u].dependencies[j] == A.targets[u].dependencies[j];
      }
    }
  }

  lemma NewDependencySlots(A: Arena, t: nat, s: nat, B: Arena)
    requires CanAddDependency(A, t, s) && NewDependencyShape(A, t, s, B)
    requires SlotsAgree(A) && OffsetsDistinct(A) && GensBounded(A)
    ensures WF(B) && SlotsAgree(B) && OffsetsDistinct(B) && GensBounded(B)
  {
    NewDependencyWF(A, t, s, B);
    NewDependencyAgree(A, t, s, B);
    NewDependencyDistinct(A, t, s, B);
  }

  lemma NewDependencyAgree(A: Arena, t: nat, s: nat, B: Arena)
    requires CanAddDependency(A, t, s) && NewDependencyShape(A, t, s, B) && WF(B) && SlotsAgree(A)
    ensures SlotsAgree(B)
  {
  }

  lemma NewDependencyDistinct(A: Arena, t: nat, s: nat, B: Arena)
    requires CanAddDependency(A, t, s) && NewDependencyShape(A, t, s, B) && WF(B) && SlotsAgree(A) && OffsetsDistinct(A)
    ensures OffsetsDistinct(B)
  {
  }

  /** `addSource` keeps the invariant whichever way it goes. */
  lemma AddedSourceKeeps(A: Arena, t: nat, s: nat)
    requires Consistent(A) && t < |A.targets| && s < |A.sources|
    ensures AddedSource(A, t, s).Ok? ==> Consistent(AddedSource(A, t, s).value)
  {
    var tg := A.targets[t];
    if tg.listening && !tg.locked && tg.live {
      if SourceId(s) in tg.index {
        var d := tg.index[SourceId(s)];
        assert A.deps[d].target == t && A.deps[d].source == s;
        ActivatedKeeps(A, d, s);
      } else if A.sources[s].lineage.Some? {
        WithDependencyKeeps(A, t, s);
      }
    }
  }

  lemma PruneOneKeeps(B: Arena, t: nat, d: nat)
    requires Consistent(B) && t < |B.targets| && d < |B.deps|
    ensures Consistent(PruneOne(B, t, d))
  {
    if B.deps[d].active && B.deps[d].gen < B.targets[t].gen {
      DeactivatedKeeps(B, d);
    }
  }

  lemma {:induction false} PrunedKeeps(A: Arena, t: nat, i: nat)
    requires Consistent(A) && t < |A.targets| && i <= |A.targets[t].dependencies|
    ensures Consistent(PrunedUpTo(A, t, i))
  {
    if i > 0 {
      PrunedKeeps(A, t, i - 1);
      PruneNextKeeps(A, t, i);
    }
  }

  lemma PruneNextKeeps(A: Arena, t: nat, i: nat)
    requires WF(A) && t < |A.targets| && 0 < i <= |A.targets[t].dependencies|
    requires Consistent(PrunedUpTo(A, t, i - 1))
    ensures Consistent(PrunedUpTo(A, t, i))
  {
    var B := PrunedUpTo(A, t, i - 1);
    var d := A.targets[t].dependencies[i - 1];
    assert TargetWF(A.targets[t], |A.targets|, |A.deps|);
    assert d < |B.deps|;
    PruneOneKeeps(B, t, d);
  }

  lemma {:induction false} DeactivatedFromKeeps(A: Arena, ds: seq<nat>, i: nat)
    requires Consistent(A) && i <= |ds| && forall j :: 0 <= j < |ds| ==> ds[j] < |A.deps|
    ensures Consistent(DeactivatedFrom(A, ds, i))
    decreases |ds| - i
  {
    if i < |ds| {
      var j := i + 1;
      DeactivatedFromKeeps(A, ds, j);
      DeactivateNextKeeps(A, ds, i, j);
    }
  }

  lemma DeactivateNextKeeps(A: Arena, ds: seq<nat>, i: nat, j: nat)
    requires WF(A) && i < |ds| && j == i + 1 && forall k :: 0 <= k < |ds| ==> ds[k] < |A.deps|
    requires Consistent(DeactivatedFrom(A, ds, j))
    ensures Consistent(DeactivatedFrom(A, ds, i))
  {
    DeactivatedKeeps(DeactivatedFrom(A, ds, j), ds[i]);
  }

  /** Releasing a target all of whose dependencies are already off. */
  lemma ReleasedKeeps(A: Arena, t: nat)
    requires Consistent(A) && t < |A.targets|
    requires forall d :: 0 <= d < |A.deps| && A.deps[d].target == t ==> !A.deps[d].active
    ensures Consistent(Released(A, t))
  {
    var B := Released(A, t);
    assert WF(B) by {
      forall u | 0 <= u < |B.targets| ensures TargetWF(B.targets[u], |B.targets|, |B.deps|) {
        assert TargetWF(A.targets[u], |A.targets|, |A.deps|);
      }
    }
  }

  lemma DisposedSourceKeeps(A: Arena, s: nat)
    requires Consistent(A) && s < |A.sources|
    ensures Consistent(DisposedSource(A, s))
  {
    var B := DisposedSource(A, s);
    assert WF(B);
  }

  /**
   * A target edit that leaves lineage, updaters, the dependency list and
   * index and liveness alone and does not lower the generation: locking,
   * listening, pinning, the cleanup and finalizer lists, `gen++`.
   */
  ghost predicate PlainEdit(a: Target, b: Target)
  {
    b.lineage == a.lineage && b.updaters == a.updaters && b.dependencies == a.dependencies
    && b.index == a.index && b.live == a.live && a.gen <= b.gen
  }

  lemma PlainEditKeeps(A: Arena, t: nat, tg: Target)
    requires Consistent(A) && t < |A.targets| && PlainEdit(A.targets[t], tg)
    ensures Consistent(A.(targets := A.targets[t := tg]))
  {
    var B := A.(targets := A.targets[t := tg]);
    PlainEditWF(A, t, tg);
    PlainEditListed(A, t, tg);
    PlainEditRest(A, t, tg);
  }

  lemma PlainEditWF(A: Arena, t: nat, tg: Target)
    requires WF(A) && t < |A.targets| && PlainEdit(A.targets[t], tg)
    ensures WF(A.(targets := A.targets[t := tg]))
  {
    var B := A.(targets := A.targets[t := tg]);
    forall u | 0 <= u < |B.targets| ensures TargetWF(B.targets[u], |B.targets|, |B.deps|) {
      assert TargetWF(A.targets[u], |A.targets|, |A.deps|);
    }
  }

  lemma PlainEditListed(A: Arena, t: nat, tg: Target)
    requires WF(A) && Listed(A) && t < |A.targets| && PlainEdit(A.targets[t], tg)
    ensures WF(A.(targets := A.targets[t := tg])) && Listed(A.(targets := A.targets[t := tg]))
  {
    var B := A.(targets := A.targets[t := tg]);
    PlainEditWF(A, t, tg);
    forall d | 0 <= d < |B.deps| && B.targets[B.deps[d].target].live
      ensures d in B.targets[B.deps[d].target].dependencies
    {
      assert d in A.targets[A.deps[d].target].dependencies;
    }
  }

  lemma PlainEditRest(A: Arena, t: nat, tg: Target)
    requires WF(A) && SlotsAgree(A) && OffsetsDistinct(A) && IndexAgrees(A) && GensBounded(A)
    requires t < |A.targets| && PlainEdit(A.targets[t], tg)
    ensures WF(A.(targets := A.targets[t := tg]))
    ensures SlotsAgree(A.(targets := A.targets[t := tg])) && OffsetsDistinct(A.(targets := A.targets[t := tg]))
    ensures IndexAgrees(A.(targets := A.targets[t := tg])) && GensBounded(A.(targets := A.targets[t := tg]))
  {
    PlainEditWF(A, t, tg);
  }

  lemma NewSourceKeeps(A: Arena, lineage: Option<seq<nat>>)
    requires Consistent(A)
    ensures Consistent(A.(sources := A.sources + [Source(lineage, [], true)]))
  {
    var B := A.(sources := A.sources + [Source(lineage, [], true)]);
    assert WF(B);
  }

  /** A target as its constructor leaves it, before any source is read. */
  ghost predicate FreshTarget(tg: Target, nt: nat)
  {
    tg.live && tg.dependencies == [] && tg.index == map[] && |tg.updaters| == |tg.lineage| + 1
    && forall j :: 0 <= j < |tg.lineage| ==> tg.lineage[j] < nt
  }

  lemma NewTargetKeeps(A: Arena, tg: Target)
    requires Consistent(A) && FreshTarget(tg, |A.targets| + 1)
    ensures Consistent(A.(targets := A.targets + [tg]))
  {
    NewTargetWF(A, tg);
    NewTargetListed(A, tg);
    NewTargetRest(A, tg);
  }

  lemma NewTargetWF(A: Arena, tg: Target)
    requires WF(A) && FreshTarget(tg, |A.targets| + 1)
    ensures WF(A.(targets := A.targets + [tg]))
  {
    var B := A.(targets := A.targets + [tg]);
    forall u | 0 <= u < |B.targets| ensures TargetWF(B.targets[u], |B.targets|, |B.deps|) {
      if u < |A.targets| {
        assert TargetWF(A.targets[u], |A.targets|, |A.deps|);
      }
    }
  }

  lemma NewTargetListed(A: Arena, tg: Target)
    requires WF(A) && Listed(A) && FreshTarget(tg, |A.targets| + 1)
    ensures WF(A.(targets := A.targets + [tg])) && Listed(A.(targets := A.targets + [tg]))
  {
    NewTargetWF(A, tg);
    var B := A.(targets := A.targets + [tg]);
    forall u, j | 0 <= u < |B.targets| && 0 <= j < |B.targets[u].dependencies|
      ensures B.deps[B.targets[u].dependencies[j]].target == u
    {
      assert u < |A.targets|;
    }
  }

  lemma NewTargetRest(A: Arena, tg: Target)
    requires WF(A) && SlotsAgree(A) && OffsetsDistinct(A) && IndexAgrees(A) && GensBounded(A)
    requires FreshTarget(tg, |A.targets| + 1)
    ensures WF(A.(targets := A.targets + [tg]))
    ensures SlotsAgree(A.(targets := A.targets + [tg])) && OffsetsDistinct(A.(targets := A.targets + [tg]))
    ensures IndexAgrees(A.(targets := A.targets + [tg])) && GensBounded(A.(targets := A.targets + [tg]))
  {
    NewTargetWF(A, tg);
    var B := A.(targets := A.targets + [tg]);
    forall u, id | 0 <= u < |B.targets| && id in B.targets[u].index
      ensures B.deps[B.targets[u].index[id]].target == u && SourceId(B.deps[B.targets[u].index[id]].source) == id
    {
      assert u < |A.targets|;
    }
  }

  // ---------------------------------------------------------------------------
  // What the invariant and the operations guarantee
  // ---------------------------------------------------------------------------

  /** A live target holds at most one Dependency per source. */
  lemma OneDependencyPerSource(A: Arena, d: nat, e: nat)
    requires Consistent(A) && d < |A.deps| && e < |A.deps|
    requires A.deps[d].target == A.deps[e].target && A.deps[d].source == A.deps[e].source
    requires A.targets[A.deps[d].target].live
    ensures d == e
  {
    var t := A.deps[d].target;
    assert A.targets[t].index[SourceId(A.deps[d].source)] == d;
    assert A.targets[t].index[SourceId(A.deps[e].source)] == e;
  }

  /** While its source is live, a dependency's slot is non-null exactly when it is active, and then it holds the dependency's updater. */
  lemma SlotFollowsActivity(A: Arena, d: nat)
    requires Consistent(A) && d < |A.deps| && A.sources[A.deps[d].source].live
    ensures SlotAt(A.sources[A.deps[d].source].updates, A.deps[d].offset).Some? <==> A.deps[d].active
    ensures A.deps[d].active ==> SlotAt(A.sources[A.deps[d].source].updates, A.deps[d].offset) == Some(A.deps[d].update)
  {
    assert A.deps[d].offset < |A.sources[A.deps[d].source].updates|;
  }

  /**
   * Reading a source from a listening, unlocked, live target leaves the
   * target with an active dependency on it at the target's generation: the
   * very same Dependency object when one is indexed, a new one (whose slot is
   * appended) otherwise.
   */
  lemma AddSourceRegisters(A: Arena, t: nat, s: nat)
    requires Consistent(A) && t < |A.targets| && s < |A.sources|
    requires A.targets[t].listening && !A.targets[t].locked && A.targets[t].live
    requires SourceId(s) in A.targets[t].index || A.sources[s].lineage.Some?
    ensures AddedSource(A, t, s).Ok?
    ensures var B := AddedSource(A, t, s).value;
      SourceId(s) in B.targets[t].index
      && var d := B.targets[t].index[SourceId(s)];
      d < |B.deps| && B.deps[d].target == t && B.deps[d].source == s
      && B.deps[d].active && B.deps[d].gen == B.targets[t].gen
      && (SourceId(s) in A.targets[t].index ==> d == A.targets[t].index[SourceId(s)] && |B.deps| == |A.deps|)
      && (SourceId(s) !in A.targets[t].index ==>
            d == |A.deps| && |B.deps| == |A.deps| + 1 && B.deps[d].offset == |A.sources[s].updates|)
  {
    var tg := A.targets[t];
    if SourceId(s) in tg.index {
      var d := tg.index[SourceId(s)];
      assert A.deps[d].target == t && A.deps[d].source == s;
    } else {
      var B := WithDependency(A, t, s).value;
      assert NewDependencyShape(A, t, s, B);
    }
  }

  /** The first i turns of the `endUpdate` loop switch off exactly the active dependencies among the first i listed whose generation is behind the target's. */
  lemma {:induction false} PrunedActive(A: Arena, t: nat, i: nat)
    requires WF(A) && t < |A.targets| && i <= |A.targets[t].dependencies|
    ensures forall d :: 0 <= d < |A.deps| ==>
      PrunedUpTo(A, t, i).deps[d].active
      == (A.deps[d].active && !(d in A.targets[t].dependencies[..i] && A.deps[d].gen < A.targets[t].gen))
  {
    if i > 0 {
      PrunedActive(A, t, i - 1);
      var ds := A.targets[t].dependencies;
      assert ds[..i] == ds[..i - 1] + [ds[i - 1]];
    }
  }

  /**
   * After `endUpdate` on a live target, a dependency of the target is active
   * exactly when it was active with the target's current generation, i.e.
   * read during this run; so every active one carries the target's
   * generation and, its source being live, an unread one's slot is null.
   */
  lemma EndUpdatePrunes(A: Arena, t: nat)
    requires Consistent(A) && t < |A.targets| && A.targets[t].live
    ensures var B := PrunedUpTo(A, t, |A.targets[t].dependencies|);
      Consistent(B)
      && forall d :: 0 <= d < |A.deps| && A.deps[d].target == t ==>
           (B.deps[d].active <==> A.deps[d].active && A.deps[d].gen == A.targets[t].gen)
           && (B.deps[d].active ==> B.deps[d].gen == B.targets[t].gen)
  {
    var ds := A.targets[t].dependencies;
    PrunedActive(A, t, |ds|);
    PrunedKeeps(A, t, |ds|);
    assert ds[..|ds|] == ds;
  }

  /** The loop over dependencies, last to first, leaves exactly those not yet visited as they were. */
  lemma {:induction false} DeactivatedFromActive(A: Arena, ds: seq<nat>, i: nat)
    requires WF(A) && i <= |ds| && forall j :: 0 <= j < |ds| ==> ds[j] < |A.deps|
    ensures forall d :: 0 <= d < |A.deps| ==> DeactivatedFrom(A, ds, i).deps[d].active == (A.deps[d].active && d !in ds[i..])
    decreases |ds| - i
  {
    if i < |ds| {
      DeactivatedFromActive(A, ds, i + 1);
      assert ds[i..] == [ds[i]] + ds[i + 1..];
    }
  }

  /** `Target.dispose` switches off every dependency of the target, and then releasing the target keeps the invariant. */
  lemma DisposeSwitchesOff(A: Arena, t: nat)
    requires Consistent(A) && t < |A.targets| && A.targets[t].live
    ensures var B := DeactivatedFrom(A, A.targets[t].dependencies, 0);
      (forall d :: 0 <= d < |B.deps| && B.deps[d].target == t ==> !B.deps[d].active)
      && Consistent(Released(B, t))
  {
    var ds := A.targets[t].dependencies;
    var B := DeactivatedFrom(A, ds, 0);
    DeactivatedFromActive(A, ds, 0);
    DeactivatedFromKeeps(A, ds, 0);
    assert ds[0..] == ds;
    ReleasedKeeps(B, t);
  }

  /** `activate` and `deactivate` are idempotent. */
  lemma ActivateIdempotent(A: Arena, d: nat, gen: nat, s: nat)
    requires d < |A.deps| && s < |A.sources|
    ensures Activated(Activated(A, d, gen, s), d, gen, s) == Activated(A, d, gen, s)
  {
  }

  lemma DeactivateIdempotent(A: Arena, d: nat)
    requires d < |A.deps| && A.deps[d].source < |A.sources|
    ensures Deactivated(Deactivated(A, d), d) == Deactivated(A, d)
  {
  }

  // ---------------------------------------------------------------------------
  // The Overseer and the objects it tracks
  // ---------------------------------------------------------------------------

  /** The empty arena a new Overseer starts from is consistent. */
  lemma EmptyConsistent(A: Arena)
    requires |A.sources| == 0 && |A.targets| == 0 && |A.deps| == 0
    ensures Consistent(A)
  {
  }

  /** `updaters` of a target with this lineage: Chain at every position 0 … |lineage|. */
  function UpdaterChain(lineage: seq<nat>, scheds: seq<bool>, raw: Updater): (ups: seq<Updater>)
    requires |scheds| == |lineage|
    ensures |ups| == |lineage| + 1
  {
    seq(|lineage| + 1, k requires 0 <= k <= |lineage| => Chain(lineage, scheds, k, raw))
  }

  /**
   * targets[t] is as the Target constructor leaves it under a parent with this
   * lineage: listening, locked, at generation 1, not pinning, with no
   * dependencies or callbacks, and `update` wrapped by the schedulers of its
   * lineage (the parent's plus itself).
   */
  ghost predicate Constructed(ts: seq<Target>, t: nat, parent: seq<nat>, scheduled: bool, raw: Updater)
  {
    t < |ts| && (forall j :: 0 <= j < |parent| ==> parent[j] < t)
    && var lineage := parent + [t];
    ts[t] == Target(lineage, scheduled, true, false, true, 1, [], map[], [], [], UpdaterChain(lineage, Flags(ts, lineage), raw), true)
  }

  /** B grows A and keeps the listening and pinning flags of A's targets. */
  ghost predicate Stable(A: Arena, B: Arena)
  {
    |A.sources| <= |B.sources| && |A.deps| <= |B.deps| && SameFlags(A, B)
  }

  /** No target of a has a longer list of cleanups or finalizers in b. */
  ghost predicate NoLonger(a: seq<Target>, b: seq<Target>)
  {
    |a| <= |b|
    && forall t :: 0 <= t < |a| ==> |b[t].cleanups| <= |a[t].cleanups| && |b[t].finalizers| <= |a[t].finalizers|
  }

  /** Releasing a target keeps the arena well formed, keeps every flag and empties its lists. */
  lemma ReleasedFrame(A: Arena, t: nat)
    requires WF(A) && t < |A.targets|
    ensures WF(Released(A, t)) && Stable(A, Released(A, t)) && NoLonger(A.targets, Released(A, t).targets)
  {
    var B := Released(A, t);
    forall u | 0 <= u < |B.targets| ensures TargetWF(B.targets[u], |B.targets|, |B.deps|) {
      assert TargetWF(A.targets[u], |A.targets|, |A.deps|);
    }
  }

  /** An optional reference to one of n objects. */
  predicate InRange(r: Option<nat>, n: nat)
  {
    r.Some? ==> r.value < n
  }

  /** The lineage a new Target copies: the running target's, or [] at top level. */
  function TargetParent(A: Arena, target: Option<nat>): seq<nat>
    requires target.Some? ==> target.value < |A.targets|
  {
    if target.None? then [] else A.targets[target.value].lineage
  }

  /** Which members of a lineage have a scheduler. */
  function Flags(ts: seq<Target>, lineage: seq<nat>): (r: seq<bool>)
    requires forall j :: 0 <= j < |lineage| ==> lineage[j] < |ts|
    ensures |r| == |lineage| && forall j :: 0 <= j < |lineage| ==> r[j] == ts[lineage[j]].scheduled
  {
    seq(|lineage|, j requires 0 <= j < |lineage| => ts[lineage[j]].scheduled)
  }

  // ---------------------------------------------------------------------------
  // The Overseer's operations as functions on the arena
  // ---------------------------------------------------------------------------

  lemma SameFlagsTrans(A: Arena, B: Arena, C: Arena)
    requires SameFlags(A, B) && SameFlags(B, C)
    ensures SameFlags(A, C)
  {
  }

  /** A method's result `r` and new arena H follow the outcome B computed from the old arena A: an error leaves A alone. */
  ghost predicate Follows(r: Result<(), Error>, A: Arena, H: Arena, B: Result<Arena, Error>)
  {
    (B.Err? ==> r == Err(B.error) && H == A) && (B.Ok? ==> r == Ok(()) && H == B.value)
  }

  /** `new Source(os)`: one more live source, with the running target's lineage and no slots. */
  function WithSource(A: Arena, target: Option<nat>): (B: Arena)
    requires WF(A)
    ensures WF(B) && Stable(A, B) && B.targets == A.targets && B.deps == A.deps
    ensures |B.sources| == |A.sources| + 1 && B.sources[..|A.sources|] == A.sources
    ensures Consistent(A) ==> Consistent(B)
  {
    assert Consistent(A) ==> Consistent(A.(sources := A.sources + [Source(ParentLineage(A, target), [], true)])) by {
      if Consistent(A) { NewSourceKeeps(A, ParentLineage(A, target)); }
    }
    A.(sources := A.sources + [Source(ParentLineage(A, target), [], true)])
  }

  /** The object the Target constructor builds, before it reads any `sources`, when ts are the targets made so far. */
  function Built(ts: seq<Target>, parent: seq<nat>, scheduled: bool, raw: Updater): (tg: Target)
    requires forall j :: 0 <= j < |parent| ==> parent[j] < |ts|
    ensures Constructed(ts + [tg], |ts|, parent, scheduled, raw) && FreshTarget(tg, |ts| + 1)
  {
    var lineage := parent + [|ts|];
    var tg := Target(lineage, scheduled, true, false, true, 1, [], map[], [], [],
                     UpdaterChain(lineage, Flags(ts, parent) + [scheduled], raw), true);
    assert Flags(ts + [tg], lineage) == Flags(ts, parent) + [scheduled];
    tg
  }

  /** The graph part of `new Target(update, options, os)`: a disposed running target has a null lineage, so it throws. */
  function WithTarget(A: Arena, target: Option<nat>, raw: Updater, scheduled: bool): (r: Result<Arena, Error>)
    requires WF(A) && InRange(target, |A.targets|)
    ensures r.Err? <==> target.Some? && !A.targets[target.value].live
    ensures r.Err? ==> r.error == TypeError
    ensures r.Ok? ==> WF(r.value) && Stable(A, r.value) && r.value.sources == A.sources && r.value.deps == A.deps
    ensures r.Ok? ==> |r.value.targets| == |A.targets| + 1 && r.value.targets[..|A.targets|] == A.targets
    ensures r.Ok? ==> Constructed(r.value.targets, |A.targets|, TargetParent(A, target), scheduled, raw)
    ensures Consistent(A) && r.Ok? ==> Consistent(r.value)
  {
    if target.Some? && !A.targets[target.value].live then Err(TypeError)
    else
      var parent := TargetParent(A, target);
      assert forall j :: 0 <= j < |parent| ==> parent[j] < |A.targets| by {
        if target.Some? { assert TargetWF(A.targets[target.value], |A.targets|, |A.deps|); }
      }
      var tg := Built(A.targets, parent, scheduled, raw);
      NewTargetWF(A, tg);
      var B := A.(targets := A.targets + [tg]);
      assert Consistent(A) ==> Consistent(B) by {
        if Consistent(A) { NewTargetKeeps(A, tg); }
      }
      assert B.targets[..|A.targets|] == A.targets;
      Ok(B)
  }

  /** Target t set to tg by an edit of its flags, generation or callback lists. */
  function Edited(A: Arena, t: nat, tg: Target): (B: Arena)
    requires WF(A) && t < |A.targets| && PlainEdit(A.targets[t], tg)
    ensures WF(B) && B.sources == A.sources && B.deps == A.deps && |B.targets| == |A.targets|
    ensures tg.listening == A.targets[t].listening && tg.pinning == A.targets[t].pinning ==> Stable(A, B)
    ensures |tg.cleanups| <= |A.targets[t].cleanups| && |tg.finalizers| <= |A.targets[t].finalizers| ==> NoLonger(A.targets, B.targets)
    ensures Consistent(A) ==> Consistent(B)
  {
    PlainEditWF(A, t, tg);
    assert Consistent(A) ==> Consistent(A.(targets := A.targets[t := tg])) by {
      if Consistent(A) { PlainEditKeeps(A, t, tg); }
    }
    A.(targets := A.targets[t := tg])
  }

  /** `os.reportReference(src)`. */
  function Referenced(A: Arena, target: Option<nat>, s: nat): (r: Result<Arena, Error>)
    requires WF(A) && InRange(target, |A.targets|) && s < |A.sources|
    ensures target.None? ==> r == Ok(A)
    ensures r.Ok? ==> WF(r.value) && Stable(A, r.value) && |r.value.targets| == |A.targets|
    ensures Consistent(A) && r.Ok? ==> Consistent(r.value)
  {
    if target.None? then Ok(A)
    else
      assert Consistent(A) ==> (AddedSource(A, target.value, s).Ok? ==> Consistent(AddedSource(A, target.value, s).value)) by {
        if Consistent(A) { AddedSourceKeeps(A, target.value, s); }
      }
      AddedSource(A, target.value, s)
  }

  /** fn appended to the finalizers of tg when `final`, to its cleanups otherwise. */
  function Pushed(tg: Target, fn: Callback, final: bool): Target
  {
    if final then tg.(finalizers := tg.finalizers + [fn]) else tg.(cleanups := tg.cleanups + [fn])
  }

  /** `target.cleanups.push(fn)` or `target.finalizers.push(fn)`: the lists of a disposed target are null. */
  function PushedCallback(A: Arena, t: nat, fn: Callback, final: bool): (r: Result<Arena, Error>)
    requires WF(A) && t < |A.targets|
    ensures r.Err? <==> !A.targets[t].live
    ensures r.Err? ==> r.error == TypeError
    ensures r.Ok? ==> WF(r.value) && Stable(A, r.value) && |r.value.targets| == |A.targets|
    ensures r.Ok? ==> var tg := r.value.targets[t];
      (final ==> tg.finalizers == A.targets[t].finalizers + [fn] && tg.cleanups == A.targets[t].cleanups)
      && (!final ==> tg.cleanups == A.targets[t].cleanups + [fn] && tg.finalizers == A.targets[t].finalizers)
    ensures Consistent(A) && r.Ok? ==> Consistent(r.value)
  {
    if !A.targets[t].live then Err(TypeError) else Ok(Edited(A, t, Pushed(A.targets[t], fn, final)))
  }

  /**
   * `target.addSubformula(dispose, pin)`: a locked target refuses; otherwise
   * the child's dispose goes to `finalizers` when pinned (by the option or
   * by an enclosing `S.pin`) and to `cleanups` when not.
   */
  function Subformula(A: Arena, t: nat, dispose: Callback, pin: bool): (r: Result<Arena, Error>)
    requires WF(A) && t < |A.targets|
    ensures A.targets[t].locked ==> r == Err(LockedParent)
    ensures !A.targets[t].locked ==> r == PushedCallback(A, t, dispose, pin || A.targets[t].pinning)
    ensures r.Ok? ==> WF(r.value) && Stable(A, r.value) && |r.value.targets| == |A.targets|
    ensures Consistent(A) && r.Ok? ==> Consistent(r.value)
  {
    if A.targets[t].locked then Err(LockedParent) else PushedCallback(A, t, dispose, pin || A.targets[t].pinning)
  }

  /** `os.reportFormula(dispose, pin)`. */
  function Reported(A: Arena, target: Option<nat>, dispose: Callback, pin: bool): (r: Result<Arena, Error>)
    requires WF(A) && InRange(target, |A.targets|)
    ensures target.None? ==> r == Ok(A)
    ensures r.Ok? ==> WF(r.value) && Stable(A, r.value) && |r.value.targets| == |A.targets|
    ensures Consistent(A) && r.Ok? ==> Consistent(r.value)
  {
    if target.None? then Ok(A) else Subformula(A, target.value, dispose, pin)
  }

  /** `target.endUpdate()`: only a listening target prunes, and the dependency list of a disposed one is null. */
  function Ended(A: Arena, t: nat): (r: Result<Arena, Error>)
    requires WF(A) && t < |A.targets|
    ensures r.Err? <==> A.targets[t].listening && !A.targets[t].live
    ensures r.Err? ==> r.error == TypeError
    ensures !A.targets[t].listening ==> r == Ok(A)
    ensures r.Ok? ==> WF(r.value) && r.value.targets == A.targets && |r.value.sources| == |A.sources| && |r.value.deps| == |A.deps|
    ensures Consistent(A) && r.Ok? ==> Consistent(r.value)
  {
    if !A.targets[t].listening then Ok(A)
    else if !A.targets[t].live then Err(TypeError)
    else
      assert Consistent(A) ==> Consistent(PrunedUpTo(A, t, |A.targets[t].dependencies|)) by {
        if Consistent(A) { PrunedKeeps(A, t, |A.targets[t].dependencies|); }
      }
      Ok(PrunedUpTo(A, t, |A.targets[t].dependencies|))
  }

  /**
   * The end of `Target.dispose`, once its cleanups and finalizers have run:
   * deactivate the dependencies last to first, then null the target's
   * lineage, scheduler, updaters and lists.
   */
  function Dismantled(A: Arena, t: nat): (r: Result<Arena, Error>)
    requires WF(A) && t < |A.targets|
    ensures r.Err? <==> !A.targets[t].live
    ensures r.Err? ==> r.error == TypeError
    ensures r.Ok? ==> WF(r.value) && Stable(A, r.value) && NoLonger(A.targets, r.value.targets) && !r.value.targets[t].live
    ensures r.Ok? ==> |r.value.targets| == |A.targets| && |r.value.sources| == |A.sources| && |r.value.deps| == |A.deps|
    ensures Consistent(A) && r.Ok? ==> Consistent(r.value)
  {
    if !A.targets[t].live then Err(TypeError)
    else
      assert TargetWF(A.targets[t], |A.targets|, |A.deps|);
      var B := DeactivatedFrom(A, A.targets[t].dependencies, 0);
      ReleasedFrame(B, t);
      assert Consistent(A) ==> Consistent(Released(B, t)) by {
        if Consistent(A) { DisposeSwitchesOff(A, t); }
      }
      Ok(Released(B, t))
  }

  /**
   * The Overseer (`count`, `target`, `deferred`) together with the arena of
   * every Source, Target and Dependency object.
   */
  class Overseer {
    var count: nat
    var target: Option<nat>
    var deferred: seq<Callback>
    var sources: seq<Source>
    var targets: seq<Target>
    var deps: seq<Dependency>

    function Heap(): Arena
      reads this
    {
      Arena(sources, targets, deps)
    }

    ghost predicate Valid()
      reads this
    {
      WF(Heap()) && count == |sources| + 1 && InRange(target, |targets|)
    }

    constructor ()
      ensures Valid()
      ensures count == 1 && target == None && deferred == [] && sources == [] && targets == [] && deps == []
    {
      count := 1;
      target := None;
      deferred := [];
      sources := [];
      targets := [];
      deps := [];
    }

    /** `new Source(os)`: the next id, the running target's lineage, no slots. */
    method NewSource() returns (s: nat)
      requires Valid()
      modifies this
      ensures Valid() && target == old(target) && deferred == old(deferred)
      ensures s == |old(sources)| && SourceId(s) == old(count) && count == old(count) + 1
      ensures Heap() == WithSource(old(Heap()), old(target))
      ensures Stable(old(Heap()), Heap())
    {
      var lineage := ParentLineage(Heap(), target);
      s := |sources|;
      count := count + 1;
      sources := sources + [Source(lineage, [], true)];
    }

    /**
     * The graph part of `new Target(update, options, os)`: copy the running
     * target's lineage (a disposed one's is null: TypeError) and append the
     * new target, then fill `updaters` from the end, wrapping `update` in the
     * scheduler of every lineage member that has one. A new target is
     * listening, locked, at generation 1 and not pinning: the constructor
     * reads `options.pinning`, a field the options object never has.
     */
    method NewTarget(raw: Updater, scheduled: bool) returns (r: Result<nat, Error>)
      requires Valid()
      modifies this
      ensures Valid() && count == old(count) && target == old(target) && deferred == old(deferred)
      ensures var B := WithTarget(old(Heap()), old(target), raw, scheduled);
        (B.Err? ==> r == Err(B.error) && Heap() == old(Heap())) && (B.Ok? ==> r == Ok(|old(targets)|) && Heap() == B.value)
    {
      if target.Some? && !targets[target.value].live {
        return Err(TypeError);
      }
      ghost var A := Heap();
      var self := |targets|;
      var parent := TargetParent(Heap(), target);
      assert forall j :: 0 <= j < |parent| ==> parent[j] < self by {
        if target.Some? { assert TargetWF(targets[target.value], |targets|, |deps|); }
      }
      var tg := Construct(targets, parent, scheduled, raw);
      targets := targets + [tg];
      NewTargetWF(A, tg);
      r := Ok(self);
    }

    /** The new Target object, given the targets made before it and its parent's lineage. */
    static method Construct(ts: seq<Target>, parent: seq<nat>, scheduled: bool, raw: Updater) returns (tg: Target)
      requires forall j :: 0 <= j < |parent| ==> parent[j] < |ts|
      ensures tg == Built(ts, parent, scheduled, raw)
    {
      var lineage := parent + [|ts|];
      var placeholder := Target(lineage, scheduled, true, false, true, 1, [], map[], [], [], [], true);
      var ts' := ts + [placeholder];
      var ups := Updaters(ts', lineage, raw);
      tg := placeholder.(updaters := ups);
      assert Flags(ts', lineage) == Flags(ts, parent) + [scheduled];
    }

    /**
     * The loop of the Target constructor that fills `updaters` from the end:
     * slot k holds `update` wrapped by the schedulers of lineage[k..].
     */
    static method Updaters(ts: seq<Target>, lineage: seq<nat>, raw: Updater) returns (ups: seq<Updater>)
      requires forall j :: 0 <= j < |lineage| ==> lineage[j] < |ts|
      ensures ups == UpdaterChain(lineage, Flags(ts, lineage), raw)
    {
      ghost var scheds := Flags(ts, lineage);
      var n := |lineage|;
      var a := new Updater[n + 1](_ => raw);
      var update := raw;
      var i := n;
      while i > 0
        invariant 0 <= i <= n
        invariant update == Chain(lineage, scheds, i, raw)
        invariant forall k {:trigger a[k]} :: i <= k <= n ==> a[k] == Chain(lineage, scheds, k, raw)
      {
        i := i - 1;
        if ts[lineage[i]].scheduled {
          update := Wrapped(lineage[i], update);
        }
        a[i] := update;
      }
      ups := a[..];
      assert forall k :: 0 <= k <= n ==> ups[k] == a[k];
    }

    /** Set `locked`, `listening` or `pinning` of a target, or step its generation. */
    method EditTarget(t: nat, tg: Target)
      requires Valid() && t < |targets| && PlainEdit(targets[t], tg)
      modifies this
      ensures Valid() && count == old(count) && target == old(target) && deferred == old(deferred)
      ensures Heap() == Edited(old(Heap()), t, tg)
    {
      PlainEditWF(Heap(), t, tg);
      targets := targets[t := tg];
    }

    /** `dep.activate(gen, src)`. */
    method Activate(d: nat, gen: nat, s: nat)
      requires Valid() && d < |deps| && s < |sources|
      modifies this
      ensures Valid() && count == old(count) && target == old(target) && deferred == old(deferred)
      ensures Heap() == Activated(old(Heap()), d, gen, s)
      ensures Stable(old(Heap()), Heap())
    {
      ShapeWF(Heap(), Activated(Heap(), d, gen, s));
      var dep := deps[d];
      if !dep.active {
        var src := sources[s];
        sources := sources[s := src.(updates := SetSlot(src.updates, dep.offset, Some(dep.update)))];
      }
      deps := deps[d := dep.(active := true, gen := gen)];
    }

    /** `dep.deactivate()`. */
    method Deactivate(d: nat)
      requires Valid() && d < |deps|
      modifies this
      ensures Valid() && count == old(count) && target == old(target) && deferred == old(deferred)
      ensures Heap() == Deactivated(old(Heap()), d)
      ensures targets == old(targets) && |sources| == |old(sources)| && |deps| == |old(deps)|
    {
      ShapeWF(Heap(), Deactivated(Heap(), d));
      var dep := deps[d];
      if dep.active {
        var src := sources[dep.source];
        sources := sources[dep.source := src.(updates := SetSlot(src.updates, dep.offset, None))];
      }
      deps := deps[d := dep.(active := false)];
    }

    /** The loop of the Dependency constructor that finds where the two lineages diverge. */
    static method Divergence(a: seq<nat>, b: seq<nat>) returns (i: nat)
      ensures i == CommonPrefix(a, b)
    {
      var len := if |a| < |b| then |a| else |b|;
      i := 0;
      while i < len && a[i] == b[i]
        invariant i <= len
        invariant forall j :: 0 <= j < i ==> a[j] == b[j]
      {
        i := i + 1;
      }
    }

    /** `new Dependency(target, src)`. */
    method NewDependency(t: nat, s: nat) returns (r: Result<(), Error>)
      requires Valid() && t < |targets| && s < |sources| && targets[t].live && SourceId(s) !in targets[t].index
      modifies this
      ensures Valid() && count == old(count) && target == old(target) && deferred == old(deferred)
      ensures Follows(r, old(Heap()), Heap(), WithDependency(old(Heap()), t, s))
    {
      assert TargetWF(targets[t], |targets|, |deps|);
      var src := sources[s];
      if src.lineage.None? {
        return Err(TypeError);
      }
      ghost var A := Heap();
      var tg := targets[t];
      var k := Divergence(tg.lineage, src.lineage.value);
      var d := |deps|;
      var dep := Dependency(t, s, true, tg.gen, |src.updates|, tg.updaters[k]);
      sources := sources[s := src.(updates := src.updates + [Some(dep.update)])];
      targets := targets[t := tg.(dependencies := tg.dependencies + [d], index := tg.index[SourceId(s) := d])];
      deps := deps + [dep];
      assert NewDependencyShape(A, t, s, Heap());
      NewDependencyWF(A, t, s, Heap());
      r := Ok(());
    }

    /** `target.addSource(src)`: a no-op unless the target is listening and unlocked. */
    method AddSource(t: nat, s: nat) returns (r: Result<(), Error>)
      requires Valid() && t < |targets| && s < |sources|
      modifies this
      ensures Valid() && count == old(count) && target == old(target) && deferred == old(deferred)
      ensures Follows(r, old(Heap()), Heap(), AddedSource(old(Heap()), t, s))
    {
      var tg := targets[t];
      if !tg.listening || tg.locked {
        return Ok(());
      }
      if !tg.live {
        return Err(TypeError);
      }
      if SourceId(s) in tg.index {
        assert TargetWF(tg, |targets|, |deps|);
        Activate(tg.index[SourceId(s)], tg.gen, s);
        r := Ok(());
      } else {
        r := NewDependency(t, s);
      }
    }

    /** `os.reportReference(src)`: the running target, if any, reads the source. */
    method ReportReference(s: nat) returns (r: Result<(), Error>)
      requires Valid() && s < |sources|
      modifies this
      ensures Valid() && count == old(count) && target == old(target) && deferred == old(deferred)
      ensures Follows(r, old(Heap()), Heap(), Referenced(old(Heap()), old(target), s))
    {
      if target.Some? {
        r := AddSource(target.value, s);
      } else {
        r := Ok(());
      }
    }

    /**
     * `target.addSubformula(dispose, pin)`: a locked target refuses; otherwise
     * the child's dispose goes to `finalizers` when pinned (by the option or
     * by an enclosing `S.pin`) and to `cleanups` when not.
     */
    method AddSubformula(t: nat, dispose: Callback, pin: bool) returns (r: Result<(), Error>)
      requires Valid() && t < |targets|
      modifies this
      ensures Valid() && count == old(count) && target == old(target) && deferred == old(deferred)
      ensures Follows(r, old(Heap()), Heap(), Subformula(old(Heap()), t, dispose, pin))
    {
      var tg := targets[t];
      if tg.locked {
        return Err(LockedParent);
      }
      if !tg.live {
        return Err(TypeError);
      }
      if pin || tg.pinning {
        EditTarget(t, tg.(finalizers := tg.finalizers + [dispose]));
      } else {
        EditTarget(t, tg.(cleanups := tg.cleanups + [dispose]));
      }
      r := Ok(());
    }

    /** `os.reportFormula(dispose, pin)`. */
    method ReportFormula(dispose: Callback, pin: bool) returns (r: Result<(), Error>)
      requires Valid()
      modifies this
      ensures Valid() && count == old(count) && target == old(target) && deferred == old(deferred)
      ensures Follows(r, old(Heap()), Heap(), Reported(old(Heap()), old(target), dispose, pin))
    {
      if target.Some? {
        r := AddSubformula(target.value, dispose, pin);
      } else {
        r := Ok(());
      }
    }

    /** `target.cleanups.push(fn)` (or `finalizers`, when `final`); the lists of a disposed target are null. */
    method PushCallback(t: nat, fn: Callback, final: bool) returns (r: Result<(), Error>)
      requires Valid() && t < |targets|
      modifies this
      ensures Valid() && count == old(count) && target == old(target) && deferred == old(deferred)
      ensures Follows(r, old(Heap()), Heap(), PushedCallback(old(Heap()), t, fn, final))
    {
      var tg := targets[t];
      if !tg.live {
        return Err(TypeError);
      }
      if final {
        EditTarget(t, tg.(finalizers := tg.finalizers + [fn]));
      } else {
        EditTarget(t, tg.(cleanups := tg.cleanups + [fn]));
      }
      r := Ok(());
    }

    /** `target.endUpdate()`: switch off every active dependency whose generation is behind. */
    method EndUpdate(t: nat) returns (r: Result<(), Error>)
      requires Valid() && t < |targets|
      modifies this
      ensures Valid() && count == old(count) && target == old(target) && deferred == old(deferred)
      ensures Follows(r, old(Heap()), Heap(), Ended(old(Heap()), t))
    {
      if !targets[t].listening {
        return Ok(());
      }
      if !targets[t].live {
        return Err(TypeError);
      }
      ghost var A := Heap();
      var ds := targets[t].dependencies;
      var gen := targets[t].gen;
      assert TargetWF(targets[t], |targets|, |deps|);
      var i := 0;
      while i < |ds|
        invariant 0 <= i <= |ds| && Valid() && Heap() == PrunedUpTo(A, t, i)
        invariant count == old(count) && target == old(target) && deferred == old(deferred)
      {
        if deps[ds[i]].active && deps[ds[i]].gen < gen {
          Deactivate(ds[i]);
        }
        i := i + 1;
      }
      r := Ok(());
    }

    /** The loop of `Target.dispose`: deactivate ds[|ds|-1], …, ds[0], last to first. */
    method DeactivateAll(ds: seq<nat>)
      requires Valid() && forall j :: 0 <= j < |ds| ==> ds[j] < |deps|
      modifies this
      ensures Valid() && count == old(count) && target == old(target) && deferred == old(deferred)
      ensures Heap() == DeactivatedFrom(old(Heap()), ds, 0)
      ensures targets == old(targets) && |sources| == |old(sources)| && |deps| == |old(deps)|
    {
      ghost var A := Heap();
      var i := |ds|;
      while i > 0
        invariant WF(A) && |A.deps| == |deps| && forall j :: 0 <= j < |ds| ==> ds[j] < |A.deps|
        invariant 0 <= i <= |ds| && Valid() && Heap() == DeactivatedFrom(A, ds, i)
        invariant count == old(count) && target == old(target) && deferred == old(deferred)
        invariant targets == A.targets && |sources| == |A.sources|
      {
        i := i - 1;
        assert DeactivatedFrom(A, ds, i) == Deactivated(DeactivatedFrom(A, ds, i + 1), ds[i]);
        Deactivate(ds[i]);
      }
    }

    /**
     * The end of `Target.dispose`, after its cleanups and finalizers have run:
     * deactivate the dependencies last to first, then null the target's
     * lineage, scheduler, updaters and lists.
     */
    method DisposeTarget(t: nat) returns (r: Result<(), Error>)
      requires Valid() && t < |targets|
      modifies this
      ensures Valid() && count == old(count) && target == old(target) && deferred == old(deferred)
      ensures Follows(r, old(Heap()), Heap(), Dismantled(old(Heap()), t))
    {
      if !targets[t].live {
        return Err(TypeError);
      }
      ghost var A := Heap();
      var ds := targets[t].dependencies;
      assert TargetWF(targets[t], |targets|, |deps|);
      DeactivateAll(ds);
      ghost var B := Heap();
      ReleasedFrame(B, t);
      targets := targets[t := targets[t].(lineage := [], scheduled := false, updaters := [], cleanups := [],
                                          finalizers := [], dependencies := [], index := map[], live := false)];
      assert Heap() == Released(B, t);
      r := Ok(());
    }

    /** `Source.dispose`: null the lineage, truncate the slot array. */
    method DisposeSource(s: nat)
      requires Valid() && s < |sources|
      modifies this
      ensures Valid() && count == old(count) && target == old(target) && deferred == old(deferred)
      ensures Heap() == DisposedSource(old(Heap()), s)
      ensures Stable(old(Heap()), Heap())
      ensures NoLonger(old(targets), targets)
    {
      sources := sources[s := Source(None, [], false)];
    }
  }
}
