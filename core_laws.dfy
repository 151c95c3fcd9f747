/**
 * What the reactive core promises, stated about the interpreter of module
 * Core: the order in which callbacks run, what `S.peek` hides, what
 * disposal leaves behind and how a write with no subscribers behaves.
 */
module CoreLaws {
  import opened Wrappers
  import opened Graph
  import opened Core

  /** A list of user callbacks only. */
  predicate AllNotes(cbs: seq<Callback>)
  {
    forall i :: 0 <= i < |cbs| ==> cbs[i].Note?
  }

  /** What calling a list of user callbacks, first to last, adds to the log. */
  function Notes(cbs: seq<Callback>): (r: seq<Event>)
    requires AllNotes(cbs)
    ensures |r| == |cbs|
  {
    if |cbs| == 0 then [] else [Noted(cbs[0].tag)] + Notes(cbs[1..])
  }

  /** The callbacks from turn i on: cbs[i], then those from turn i + 1 on. */
  lemma NotesStep(cbs: seq<Callback>, i: nat)
    requires AllNotes(cbs) && i < |cbs|
    ensures Notes(cbs[i..]) == [Noted(cbs[i].tag)] + Notes(cbs[i + 1..])
  {
    assert cbs[i..][1..] == cbs[i + 1..];
  }

  // ---------------------------------------------------------------------------
  // Callbacks run first to last
  // ---------------------------------------------------------------------------

  /**
   * At top level, `os.runDeferred()` calls the deferred user functions in
   * the order they were deferred and leaves the queue empty.
   */
  lemma {:induction false} DeferredRunInOrder(w: World, fuel: nat)
    requires Good(w) && w.target.None? && AllNotes(w.deferred)
    ensures RunDeferred(w, fuel) == Run(w.(log := w.log + Notes(w.deferred), deferred := []), Ok(()))
    decreases |w.deferred|
  {
    if |w.deferred| > 0 {
      var w' := DeferredStep(w, fuel);
      DeferredRunInOrder(w', fuel);
    }
  }

  /**
   * One turn of `os.runDeferred()` at top level: the first deferred user
   * function is taken off the queue and called, which is where the rest of
   * the queue then starts from.
   */
  lemma DeferredStep(w: World, fuel: nat) returns (w': World)
    requires Good(w) && w.target.None? && |w.deferred| > 0 && AllNotes(w.deferred)
    ensures Good(w') && w'.target.None? && AllNotes(w'.deferred) && |w'.deferred| == |w.deferred| - 1
    ensures RunDeferred(w, fuel) == RunDeferred(w', fuel)
    ensures w'.(log := w'.log + Notes(w'.deferred), deferred := []) == w.(log := w.log + Notes(w.deferred), deferred := [])
  {
    w' := RunCallback(w.(deferred := w.deferred[1..]), w.deferred[0], fuel).w;
    assert w' == w.(deferred := w.deferred[1..], log := w.log + [Noted(w.deferred[0].tag)]);
    var d := w.deferred;
    assert Notes(d) == [Noted(d[0].tag)] + Notes(d[1..]);
    assert w'.log + Notes(w'.deferred) == w.log + Notes(d) by {
      assert w'.log + Notes(w'.deferred) == (w.log + [Noted(d[0].tag)]) + Notes(d[1..]);
    }
  }

  /**
   * `Target.cleanup` from turn i on, when every cleanup is a user function:
   * they run first to last, nothing else changes, and the list is emptied.
   */
  lemma {:induction false} CleanupsRunInOrder(w: World, t: nat, i: nat, fuel: nat)
    requires Good(w) && t < |w.heap.targets| && w.heap.targets[t].live
    requires i <= |w.heap.targets[t].cleanups| && AllNotes(w.heap.targets[t].cleanups)
    ensures var tg := w.heap.targets[t];
      RunCleanups(w, t, i, fuel)
      == Run(w.(log := w.log + Notes(tg.cleanups[i..]), heap := Edited(w.heap, t, tg.(cleanups := []))), Ok(()))
    decreases |w.heap.targets[t].cleanups| - i
  {
    var cbs := w.heap.targets[t].cleanups;
    if i == |cbs| {
      assert w.log + Notes(cbs[i..]) == w.log;
    } else {
      var c := RunCallback(w, cbs[i], fuel);
      assert c.w == w.(log := w.log + [Noted(cbs[i].tag)]);
      CleanupsRunInOrder(c.w, t, i + 1, fuel);
      NotesStep(cbs, i);
      assert c.w.log + Notes(cbs[i + 1..]) == w.log + Notes(cbs[i..]);
    }
  }

  /** The finalizer loop of `Target.dispose` from turn i on, when every finalizer is a user function. */
  lemma {:induction false} FinalizersRunInOrder(w: World, t: nat, i: nat, fuel: nat)
    requires Good(w) && t < |w.heap.targets| && w.heap.targets[t].live
    requires i <= |w.heap.targets[t].finalizers| && AllNotes(w.heap.targets[t].finalizers)
    ensures RunFinalizers(w, t, i, fuel) == Run(w.(log := w.log + Notes(w.heap.targets[t].finalizers[i..])), Ok(()))
    decreases |w.heap.targets[t].finalizers| - i
  {
    var cbs := w.heap.targets[t].finalizers;
    if i == |cbs| {
      assert w.log + Notes(cbs[i..]) == w.log;
    } else {
      var c := RunCallback(w, cbs[i], fuel);
      assert c.w == w.(log := w.log + [Noted(cbs[i].tag)]);
      FinalizersRunInOrder(c.w, t, i + 1, fuel);
      NotesStep(cbs, i);
      assert c.w.log + Notes(cbs[i + 1..]) == w.log + Notes(cbs[i..]);
    }
  }

  /**
   * `Target.dispose` on a live target whose callbacks are user functions:
   * the cleanups run, then the finalizers, each list first to last, and then
   * the graph is dismantled.
   */
  lemma DisposeRunsCleanupsThenFinalizers(w: World, t: nat, fuel: nat)
    requires Good(w) && t < |w.heap.targets| && w.heap.targets[t].live
    requires AllNotes(w.heap.targets[t].cleanups) && AllNotes(w.heap.targets[t].finalizers)
    ensures var tg := w.heap.targets[t];
      var B := Edited(w.heap, t, tg.(cleanups := []));
      Dismantled(B, t).Ok?
      && DisposeTarget(w, t, fuel)
         == Run(w.(log := w.log + Notes(tg.cleanups) + Notes(tg.finalizers), heap := Dismantled(B, t).value), Ok(()))
  {
    var tg := w.heap.targets[t];
    CleanupsRunInOrder(w, t, 0, fuel);
    assert tg.cleanups[0..] == tg.cleanups;
    var c := RunCleanups(w, t, 0, fuel);
    assert c.w.heap.targets[t] == tg.(cleanups := []);
    FinalizersRunInOrder(c.w, t, 0, fuel);
    assert tg.finalizers[0..] == tg.finalizers;
  }

  /**
   * The start of a re-run, when the target's cleanups are user functions:
   * they run first to last and the list is emptied, the generation goes up
   * and the target is unlocked, and the finalizers, where the disposes of
   * pinned sub-formulas are kept, are neither run nor dropped: no formula
   * but f changes, the log holds the cleanups' notes only, and the target's
   * wiring is as it was.
   */
  lemma BeginKeepsFinalizers(w: World, f: nat, fuel: nat)
    requires Good(w) && f < |w.formulas| && w.formulas[f].tgt.Some?
    requires var t := w.formulas[f].tgt.value; w.heap.targets[t].live && AllNotes(w.heap.targets[t].cleanups)
    ensures var t := w.formulas[f].tgt.value; var tg := w.heap.targets[t]; var r := Begin(w, f, fuel);
      r.r.Ok? && r.w.log == w.log + Notes(tg.cleanups) && r.w.heap.targets[t].finalizers == tg.finalizers
      && r.w.heap.targets[t].cleanups == [] && r.w.formulas == w.formulas[f := w.formulas[f].(updating := true)]
    ensures var t := w.formulas[f].tgt.value; var tg := w.heap.targets[t]; var r := Begin(w, f, fuel);
      r.w.heap.targets[t].gen == tg.gen + 1 && !r.w.heap.targets[t].locked && r.w.target == Some(t) && r.w.cells == w.cells
    ensures SameWiring(w.heap, Begin(w, f, fuel).w.heap, w.formulas[f].tgt.value)
  {
    var fm := w.formulas[f];
    var t := fm.tgt.value;
    var tg := w.heap.targets[t];
    var w0 := w.(formulas := w.formulas[f := fm.(updating := true)], target := fm.tgt);
    var w1 := w0.(log := w.log + Notes(tg.cleanups), heap := w.heap.(targets := w.heap.targets[t := tg.(cleanups := [])]));
    CleanupsDone(w0, t, fuel, w1);
    BeginThenBegun(w, f, fuel, w1);
    BegunBumps(w1, f, t);
  }

  /** The cleanup loop of a target whose cleanups are user functions, from the start: the one snapshot it ends in. */
  lemma CleanupsDone(w: World, t: nat, fuel: nat, w': World)
    requires Good(w) && t < |w.heap.targets| && w.heap.targets[t].live && AllNotes(w.heap.targets[t].cleanups)
    requires w' == w.(log := w.log + Notes(w.heap.targets[t].cleanups), heap := w.heap.(targets := w.heap.targets[t := w.heap.targets[t].(cleanups := [])]))
    ensures RunCleanups(w, t, 0, fuel) == Run(w', Ok(()))
  {
    CleanupsRunInOrder(w, t, 0, fuel);
    assert w.heap.targets[t].cleanups[0..] == w.heap.targets[t].cleanups;
  }

  /** `beginUpdate` once its cleanup loop has returned normally in snapshot w': the rest is Begun on w'. */
  lemma BeginThenBegun(w: World, f: nat, fuel: nat, w': World)
    requires Good(w) && f < |w.formulas| && w.formulas[f].tgt.Some?
    requires var fm := w.formulas[f];
      RunCleanups(w.(formulas := w.formulas[f := fm.(updating := true)], target := fm.tgt), fm.tgt.value, 0, fuel) == Run(w', Ok(()))
    ensures Good(w') && f < |w'.formulas| && w.formulas[f].tgt.value < |w'.heap.targets|
    ensures Begin(w, f, fuel) == Begun(w', f, w.formulas[f].tgt.value)
  {
  }

  /** The end of `beginUpdate` on the formula's own target: `gen++` and unlocked, and nothing else changes. */
  lemma BegunBumps(w: World, f: nat, t: nat)
    requires Good(w) && f < |w.formulas| && t < |w.heap.targets| && w.formulas[f].tgt == Some(t)
    ensures var tg := w.heap.targets[t];
      Begun(w, f, t) == Run(w.(heap := w.heap.(targets := w.heap.targets[t := tg.(gen := tg.gen + 1, locked := false)])), Ok(()))
  {
    var tg := w.heap.targets[t];
    assert w.heap.targets[t := tg.(gen := tg.gen + 1)][t := tg.(gen := tg.gen + 1, locked := false)]
      == w.heap.targets[t := tg.(gen := tg.gen + 1, locked := false)];
  }

  // ---------------------------------------------------------------------------
  // What S.peek hides
  // ---------------------------------------------------------------------------

  /** Reading data signal c outside `S.peek`: a listening, unlocked, live running target gains an active dependency on its source at its current generation. */
  lemma ReadRegisters(w: World, c: nat)
    requires Good(w) && c < |w.cells| && w.target.Some?
    requires var tg := w.heap.targets[w.target.value]; tg.listening && !tg.locked && tg.live
    requires var s := w.cells[c].src; SourceId(s) in w.heap.targets[w.target.value].index || w.heap.sources[s].lineage.Some?
    ensures var r := ReadSignal(w, DataSig(c)); var t := w.target.value; var s := w.cells[c].src;
      r.r == Ok(Some(w.cells[c].value)) && r.w == w.(heap := r.w.heap)
      && SourceId(s) in r.w.heap.targets[t].index
      && var d := r.w.heap.targets[t].index[SourceId(s)];
      d < |r.w.heap.deps| && r.w.heap.deps[d].target == t && r.w.heap.deps[d].source == s
      && r.w.heap.deps[d].active && r.w.heap.deps[d].gen == r.w.heap.targets[t].gen
  {
    AddSourceRegisters(w.heap, w.target.value, w.cells[c].src);
  }

  /** A script that only calls signals. */
  predicate Reads(body: seq<Action>)
  {
    forall i :: 0 <= i < |body| ==> body[i].Read?
  }

  /** What calling a signal returns when nothing is registered: the current value, or a TypeError for one that does not exist. */
  function ReadValue(cells: seq<Cell>, formulas: seq<Formula>, sig: Signal): Result<Option<int>, Error>
  {
    match sig
    case DataSig(c) => if c < |cells| then Ok(Some(cells[c].value)) else Err(TypeError)
    case FormulaSig(g) => if g < |formulas| then Ok(formulas[g].value) else Err(TypeError)
  }

  /** The value of a script of reads when nothing is registered: the first error, or the last read's value. */
  function ReadsValue(cells: seq<Cell>, formulas: seq<Formula>, body: seq<Action>): Result<Option<int>, Error>
    requires Reads(body)
    decreases |body|
  {
    if |body| == 0 then Ok(None)
    else
      var v := ReadValue(cells, formulas, body[0].signal);
      if v.Err? || |body| == 1 then v else ReadsValue(cells, formulas, body[1..])
  }

  /** With a running target that is not listening, calling a signal registers nothing. */
  lemma ReadUnregistered(w: World, sig: Signal)
    requires Good(w) && w.target.Some? && !w.heap.targets[w.target.value].listening
    ensures ReadSignal(w, sig) == Run(w, ReadValue(w.cells, w.formulas, sig))
  {
  }

  /** A script of reads run while the running target is not listening leaves the snapshot as it was. */
  lemma {:induction false} ReadsUnregistered(w: World, body: seq<Action>, fuel: nat)
    requires Good(w) && w.target.Some? && !w.heap.targets[w.target.value].listening && Reads(body)
    ensures Exec(w, body, fuel) == Run(w, ReadsValue(w.cells, w.formulas, body))
    decreases |body|
  {
    if |body| > 0 {
      ReadUnregistered(w, body[0].signal);
      assert Act(w, body[0], fuel) == Run(w, ReadValue(w.cells, w.formulas, body[0].signal));
      if |body| > 1 {
        assert Reads(body[1..]) by {
          forall i | 0 <= i < |body[1..]| ensures body[1..][i].Read? {
            assert body[1..][i] == body[i + 1];
          }
        }
        ReadsUnregistered(w, body[1..], fuel);
      }
    }
  }

  /**
   * Reads inside `S.peek` register nothing: whatever signals the body calls,
   * the snapshot comes back exactly as it was, and the value is what the
   * reads return.
   */
  lemma PeekReadsWithoutDependency(w: World, inner: seq<Action>, fuel: nat)
    requires Good(w) && fuel > 0 && Peeking(w) && Reads(inner)
    ensures Peeked(w, inner, fuel) == Run(w, ReadsValue(w.cells, w.formulas, inner))
  {
    var w1 := Flagged(w, false, false);
    ReadsUnregistered(w1, inner, fuel - 1);
    assert w1.cells == w.cells && w1.formulas == w.formulas;
    PeekedQuiet(w, inner, fuel, ReadsValue(w.cells, w.formulas, inner));
  }

  /** A body that leaves the snapshot as it was inside `S.peek` leaves it as it was outside too. */
  lemma PeekedQuiet(w: World, inner: seq<Action>, fuel: nat, v: Result<Option<int>, Error>)
    requires Good(w) && fuel > 0 && Peeking(w)
    requires Exec(Flagged(w, false, false), inner, fuel - 1) == Run(Flagged(w, false, false), v)
    ensures Peeked(w, inner, fuel) == Run(w, v)
  {
    ListeningBack(w);
  }

  /** Switching listening off and on again gives back the snapshot of a listening running target. */
  lemma ListeningBack(w: World)
    requires Good(w) && Peeking(w)
    ensures Flagged(Flagged(w, false, false), false, true) == w
  {
    var t := w.target.value;
    assert w.heap.targets[t := w.heap.targets[t]] == w.heap.targets;
  }

  /**
   * A body that throws inside `S.peek`, whatever it did before: the error
   * comes out unchanged and the target that was running is listening again.
   */
  lemma PeekRestoresOnThrow(w: World, inner: seq<Action>, fuel: nat)
    requires Good(w) && fuel > 0 && Peeking(w)
    ensures var e := Exec(Flagged(w, false, false), inner, fuel - 1); var r := Peeked(w, inner, fuel);
      e.r.Err? && Clean(e.r) ==>
        r.r == e.r && r.w == Flagged(e.w, false, true) && r.w.target == w.target && r.w.heap.targets[w.target.value].listening
  {
  }

  /** Whatever the body does, unless it fails like a broken `update`, `S.peek` leaves the running target listening again. */
  lemma PeekRestoresListening(w: World, inner: seq<Action>, fuel: nat)
    requires Good(w) && Peeking(w)
    ensures var r := Peeked(w, inner, fuel); Clean(r.r) ==> r.w.target == w.target && r.w.heap.targets[w.target.value].listening
  {
  }

  /** Likewise `S.pin` leaves the running target not pinning. */
  lemma PinRestoresPinning(w: World, inner: seq<Action>, fuel: nat)
    requires Good(w) && Pinning(w)
    ensures var r := Pinned(w, inner, fuel); Clean(r.r) ==> r.w.target == w.target && !r.w.heap.targets[w.target.value].pinning
  {
  }

  // ---------------------------------------------------------------------------
  // Disposal
  // ---------------------------------------------------------------------------

  /**
   * Once a formula's dispose has succeeded, disposing it again changes
   * nothing, and reading it returns undefined without touching the graph.
   */
  lemma DisposeIdempotent(w: World, f: nat, fuel: nat, fuel': nat)
    requires Good(w) && f < |w.formulas| && DisposeFormula(w, f, fuel).r.Ok?
    ensures var d := DisposeFormula(w, f, fuel).w;
      DisposeFormula(d, f, fuel') == Run(d, Ok(())) && ReadSignal(d, FormulaSig(f)) == Run(d, Ok(None))
  {
    var d := DisposeFormula(w, f, fuel).w;
    assert d.formulas[f := d.formulas[f].(fn := None, tgt := None, value := None)] == d.formulas;
  }

  // ---------------------------------------------------------------------------
  // Propagation
  // ---------------------------------------------------------------------------

  /** Every non-null slot among slots i … len - 1 holds a scheduler's wrapper. */
  predicate AllWrapped(slots: seq<Option<Updater>>, i: nat, len: nat)
  {
    forall j :: i <= j < len && SlotAt(slots, j).Some? ==> SlotAt(slots, j).value.Wrapped?
  }

  /** The hand-offs of the wrappers among slots i … len - 1, in slot order. */
  function Handoffs(slots: seq<Option<Updater>>, i: nat, len: nat): (r: seq<Event>)
    requires AllWrapped(slots, i, len)
    decreases len - i
  {
    if i >= len then []
    else match SlotAt(slots, i)
      case None => Handoffs(slots, i + 1, len)
      case Some(u) => [Handoff(u.owner, u.inner)] + Handoffs(slots, i + 1, len)
  }

  /**
   * `Source.propagate` from slot i on, when every subscriber sits behind a
   * scheduler: each non-null slot below `len` is handed over once, in slot
   * order, and nothing else changes.
   */
  lemma {:induction false} PropagateHandsOff(w: World, s: nat, i: nat, len: nat, fuel: nat)
    requires Good(w) && s < |w.heap.sources| && AllWrapped(w.heap.sources[s].updates, i, len)
    ensures Propagate(w, s, i, len, fuel) == Run(w.(log := w.log + Handoffs(w.heap.sources[s].updates, i, len)), Ok(()))
    decreases len - i
  {
    var slots := w.heap.sources[s].updates;
    if i >= len {
      assert w.log + [] == w.log;
    } else {
      match SlotAt(slots, i)
      case None =>
        PropagateHandsOff(w, s, i + 1, len, fuel);
      case Some(u) =>
        var w' := w.(log := w.log + [Handoff(u.owner, u.inner)]);
        assert Invoke(w, u, fuel) == Run(w', Ok(()));
        PropagateHandsOff(w', s, i + 1, len, fuel);
        assert w'.log + Handoffs(slots, i + 1, len) == w.log + Handoffs(slots, i, len);
    }
  }

  // ---------------------------------------------------------------------------
  // Explicit sources
  // ---------------------------------------------------------------------------

  /** The graph's sources and dependencies, and target t's dependency list, index and listening flag, are the same in a and b. */
  ghost predicate SameWiring(a: Arena, b: Arena, t: nat)
  {
    t < |a.targets| && t < |b.targets| && b.sources == a.sources && b.deps == a.deps
    && b.targets[t].dependencies == a.targets[t].dependencies && b.targets[t].index == a.targets[t].index
    && b.targets[t].listening == a.targets[t].listening
  }

  /** The body of a formula that reads only, run by its own target with listening off, and with no subscribers to tell. */
  ghost predicate QuietRun(w: World, f: nat)
    requires Good(w) && f < |w.formulas|
  {
    var fm := w.formulas[f];
    fm.tgt.Some? && w.target == fm.tgt && !w.heap.targets[fm.tgt.value].listening
    && fm.fn.Some? && Reads(fm.fn.value)
    && (fm.src.Some? ==> w.heap.sources[fm.src.value].updates == [])
  }

  /**
   * A formula made with `options.sources` re-runs after one of them
   * changed: its target is not listening, so whatever its body reads, the
   * run neither registers new dependencies nor prunes old ones
   * (`addSource` and `endUpdate` both return at once).
   */
  lemma ExplicitSourcesStay(w: World, f: nat, fuel: nat)
    requires Good(w) && f < |w.formulas| && !w.formulas[f].updating && w.formulas[f].tgt.Some?
    requires var t := w.formulas[f].tgt.value; w.heap.targets[t].live && !w.heap.targets[t].listening
    requires AllNotes(w.heap.targets[w.formulas[f].tgt.value].cleanups)
    requires w.formulas[f].fn.Some? && Reads(w.formulas[f].fn.value)
    requires w.formulas[f].src.Some? ==> w.heap.sources[w.formulas[f].src.value].updates == []
    ensures SameWiring(w.heap, Update(w, f, fuel).w.heap, w.formulas[f].tgt.value)
  {
    var t := w.formulas[f].tgt.value;
    BeginKeepsFinalizers(w, f, fuel);
    var b := Begin(w, f, fuel);
    assert QuietRun(b.w, f);
    CompleteQuiet(b.w, f, w.target, fuel);
  }

  /** The try block, the finally block and `endUpdate` of such a run leave the wiring as it was. */
  lemma CompleteQuiet(w: World, f: nat, previous: Option<nat>, fuel: nat)
    requires Good(w) && f < |w.formulas| && InRange(previous, |w.heap.targets|) && QuietRun(w, f)
    ensures SameWiring(w.heap, Complete(w, f, previous, fuel).w.heap, w.formulas[f].tgt.value)
  {
    var t := w.formulas[f].tgt.value;
    BodyQuiet(w, f, fuel);
    var e := Body(w, f, fuel);
    FinishQuiet(e.w, f, previous, t);
    var w3 := Finish(e.w, f, previous);
    assert !w3.heap.targets[t].listening;
    assert e.r.Ok? ==> EndStep(w3, f) == Run(w3, Ok(()));
  }

  /** The body of such a run: the reads register nothing and nobody is told of the new value. */
  lemma BodyQuiet(w: World, f: nat, fuel: nat)
    requires Good(w) && f < |w.formulas| && QuietRun(w, f)
    ensures var r := Body(w, f, fuel); var t := w.formulas[f].tgt.value;
      SameWiring(w.heap, r.w.heap, t) && f < |r.w.formulas| && r.w.formulas[f].tgt == Some(t)
  {
    var fm := w.formulas[f];
    var t := fm.tgt.value;
    ReadsUnregistered(w, fm.fn.value, fuel);
    var e := Exec(w, fm.fn.value, fuel);
    if e.r.Ok? {
      var w0 := e.w.(formulas := e.w.formulas[f := e.w.formulas[f].(value := e.r.value)]);
      RelockWiring(w0, f, t);
      var w1 := Relock(w0, f);
      if fm.src.Some? {
        assert PropagateAll(w1, fm.src.value, fuel) == Run(w1, Ok(()));
      }
    }
  }

  /** Locking the target of formula f again changes no wiring. */
  lemma RelockWiring(w: World, f: nat, t: nat)
    requires Good(w) && f < |w.formulas| && w.formulas[f].tgt == Some(t)
    ensures SameWiring(w.heap, Relock(w, f).heap, t)
  {
  }

  /** The finally block of `update` on formula f, whose target is t: only the lock changes. */
  lemma FinishQuiet(w: World, f: nat, previous: Option<nat>, t: nat)
    requires Good(w) && f < |w.formulas| && InRange(previous, |w.heap.targets|) && w.formulas[f].tgt == Some(t)
    ensures var w' := Finish(w, f, previous);
      SameWiring(w.heap, w'.heap, t) && w'.heap.targets[t].listening == w.heap.targets[t].listening && w'.formulas[f].tgt == Some(t)
  {
  }

  // ---------------------------------------------------------------------------
  // Writing
  // ---------------------------------------------------------------------------

  /** A top-level write to a data signal nobody reads: the value is stored and returned, and nothing else happens. */
  lemma WriteWithoutSubscribers(w: World, c: nat, v: int, fuel: nat)
    requires Good(w) && c < |w.cells| && w.target.None? && w.deferred == []
    requires w.heap.sources[w.cells[c].src].updates == []
    ensures var w' := w.(cells := w.cells[c := w.cells[c].(value := v)]);
      Act(w, Write(c, v), fuel) == Run(w', Ok(Some(v))) && ReadSignal(w', DataSig(c)) == Run(w', Ok(Some(v)))
  {
    var w' := w.(cells := w.cells[c := w.cells[c].(value := v)]);
    assert PropagateAll(w', w.cells[c].src, fuel) == Run(w', Ok(()));
  }
}
