/**
 * The reactive core (module 'core' of dist/surplus.js): data signals,
 * formulas and the functions that run inside them. A formula's body is a
 * script of actions, interpreted against a snapshot of the whole runtime:
 * the closures of every formula and data signal, the Overseer's `target`
 * and `deferred`, and the arena of module Graph. Each interpreter function
 * returns the new snapshot together with the call's result or the error it
 * throws; the graph steps are the functions that the methods of
 * Graph.Overseer are proved against. Every nested update, dispose, peek or
 * pin spends one unit of `fuel`, the model's stand-in for the JavaScript
 * call stack.
 */
module Core {
  import opened Wrappers
  import opened Graph

  /** A signal a script can call: data signal c or formula f. */
  datatype Signal = DataSig(cell: nat) | FormulaSig(formula: nat)

  /**
   * The options a formula is made with: an explicit list of sources, `pin`,
   * whether `update` holds a scheduler, and whether `init` is set.
   */
  datatype Options = Options(sources: Option<seq<Signal>>, pin: bool, scheduled: bool, init: bool)

  /** What a formula body does, one call at a time. */
  datatype Action =
    | Read(signal: Signal)                              // call a signal with no argument
    | Write(cell: nat, v: int)                          // call data signal `cell` with a new value
    | MakeData(v: int)                                  // S.data(v)
    | MakeFormula(body: seq<Action>, options: Options)  // S.formula(body, options)
    | Peek(inner: seq<Action>)                          // S.peek(function () { inner })
    | Pin(inner: seq<Action>)                           // S.pin(function () { inner })
    | Defer(cb: Callback)                               // S.defer(cb)
    | Cleanup(cb: Callback)                             // S.cleanup(cb)
    | Finalize(cb: Callback)                            // S.finalize(cb)
    | Dispose(formula: nat)                             // formula.dispose()
    | Throw                                             // the body throws

  /**
   * What the outside world sees: a user callback ran, a scheduler's wrapper
   * was called (the scheduler decides when the update runs), or `init` was
   * handed a new formula's update.
   */
  datatype Event = Noted(tag: nat) | Handoff(owner: nat, inner: Updater) | InitHandoff(formula: nat)

  /** The closure variables of one formula: `fn`, `src`, `tgt`, `value` and `updating`. */
  datatype Formula = Formula(fn: Option<seq<Action>>, src: Option<nat>, tgt: Option<nat>, value: Option<int>, updating: bool)

  /** The closure variables of one data signal: its Source and its value. */
  datatype Cell = Cell(src: nat, value: int)

  /** A snapshot of the whole runtime. */
  datatype World = World(formulas: seq<Formula>, cells: seq<Cell>, log: seq<Event>, heap: Arena,
                         target: Option<nat>, deferred: seq<Callback>)

  /** The snapshot after a call, and what the call returned or threw. */
  datatype Run<T> = Run(w: World, r: Result<T, Error>)

  /** Every source and target a closure refers to exists. */
  ghost predicate Tracked(w: World)
  {
    (forall f :: 0 <= f < |w.formulas| ==> InRange(w.formulas[f].src, |w.heap.sources|) && InRange(w.formulas[f].tgt, |w.heap.targets|))
    && (forall c :: 0 <= c < |w.cells| ==> w.cells[c].src < |w.heap.sources|)
  }

  /** A snapshot whose references all resolve and whose graph keeps its invariant. */
  ghost predicate Good(w: World)
  {
    Consistent(w.heap) && InRange(w.target, |w.heap.targets|) && Tracked(w)
  }

  /** b is a later snapshot than a: nothing is forgotten and the log only grows. */
  ghost predicate Extends(a: World, b: World)
  {
    |a.formulas| <= |b.formulas| && |a.cells| <= |b.cells| && a.log <= b.log
    && |a.heap.sources| <= |b.heap.sources| && |a.heap.targets| <= |b.heap.targets| && |a.heap.deps| <= |b.heap.deps|
  }

  /** Callbacks fail only with a TypeError or by running out of fuel. */
  predicate CallbackError(e: Error)
  {
    e == TypeError || e == OutOfFuel
  }

  /** A call returned, or threw something other than what a broken `update` or `dispose` throws. */
  predicate Clean<T>(r: Result<T, Error>)
  {
    r.Ok? || !CallbackError(r.error)
  }

  /** The running target is as it was. */
  ghost predicate Restored(a: World, b: World)
  {
    b.target == a.target
  }

  /**
   * What any call may do: it keeps the snapshot well formed and only adds to
   * it, and unless it failed like a broken `update`, every `finally` it
   * entered has put back the running target.
   */
  ghost predicate Settled<T>(a: World, run: Run<T>)
  {
    Good(run.w) && Extends(a, run.w) && (Clean(run.r) ==> Restored(a, run.w))
  }

  /**
   * What running a callback (a cleanup, finalizer, deferred function or
   * formula dispose) may change: no data signal is written, the running
   * target and the deferred queue stay, and no list of callbacks grows.
   */
  ghost predicate CallbackStep(a: World, b: World)
  {
    Extends(a, b) && b.cells == a.cells && b.target == a.target && b.deferred == a.deferred
    && NoLonger(a.heap.targets, b.heap.targets)
  }

  // ---------------------------------------------------------------------------
  // Callbacks: cleanups, finalizers, deferred functions and disposal
  // ---------------------------------------------------------------------------

  /** Call a stored callback: a user function is logged; a formula's `dispose` runs. */
  function RunCallback(w: World, cb: Callback, fuel: nat): (r: Run<()>)
    requires Good(w)
    ensures Good(r.w) && CallbackStep(w, r.w)
    ensures r.r.Err? ==> CallbackError(r.r.error)
    ensures cb.Note? ==> r == Run(w.(log := w.log + [Noted(cb.tag)]), Ok(()))
    decreases fuel, 0, 0
  {
    match cb
    case Note(tag) => Run(w.(log := w.log + [Noted(tag)]), Ok(()))
    case DisposeOf(f) =>
      if f >= |w.formulas| then Run(w, Err(TypeError))
      else if fuel == 0 then Run(w, Err(OutOfFuel))
      else DisposeFormula(w, f, fuel - 1)
  }

  /**
   * A formula's `dispose`: dispose its source and its target, then forget
   * `src`, `tgt`, `fn` and `value`. When the target's dispose throws, the
   * closure keeps them and a later call tries again.
   */
  function DisposeFormula(w: World, f: nat, fuel: nat): (r: Run<()>)
    requires Good(w) && f < |w.formulas|
    ensures Good(r.w) && CallbackStep(w, r.w) && f < |r.w.formulas|
    ensures r.r.Err? ==> CallbackError(r.r.error)
    ensures r.r.Ok? ==> var fm := r.w.formulas[f]; fm.fn.None? && fm.src.None? && fm.tgt.None? && fm.value.None?
    decreases fuel, 3, 0
  {
    var fm := w.formulas[f];
    if fm.src.None? then
      Run(w.(formulas := w.formulas[f := fm.(fn := None, tgt := None, value := None)]), Ok(()))
    else
      var w1 := w.(heap := DisposedSource(w.heap, fm.src.value));
      if fm.tgt.None? then Run(w1, Err(TypeError))
      else
        var d := DisposeTarget(w1, fm.tgt.value, fuel);
        if d.r.Err? then d else Run(Forgotten(d.w, f), Ok(()))
  }

  /** The closure of formula f after a successful dispose: no `fn`, `src`, `tgt` or `value`. */
  function Forgotten(w: World, f: nat): (w': World)
    requires Good(w) && f < |w.formulas|
    ensures Good(w') && CallbackStep(w, w') && |w'.formulas| == |w.formulas|
    ensures var fm := w'.formulas[f]; fm.fn.None? && fm.src.None? && fm.tgt.None? && fm.value.None?
  {
    w.(formulas := w.formulas[f := w.formulas[f].(fn := None, src := None, tgt := None, value := None)])
  }

  /**
   * `Target.dispose`: run the cleanups, then the finalizers, then
   * deactivate the dependencies and null the lists.
   */
  function DisposeTarget(w: World, t: nat, fuel: nat): (r: Run<()>)
    requires Good(w) && t < |w.heap.targets|
    ensures Good(r.w) && CallbackStep(w, r.w)
    ensures r.r.Err? ==> CallbackError(r.r.error)
    ensures !w.heap.targets[t].live ==> r == Run(w, Err(TypeError))
    ensures r.r.Ok? ==> !r.w.heap.targets[t].live
    decreases fuel, 2, 0
  {
    var c := RunCleanups(w, t, 0, fuel);
    if c.r.Err? then c
    else
      var z := RunFinalizers(c.w, t, 0, fuel);
      if z.r.Err? then z
      else
        match Dismantled(z.w.heap, t)
        case Err(e) => Run(z.w, Err(e))
        case Ok(B) => Run(z.w.(heap := B), Ok(()))
  }

  /** How many turns the cleanup loop has left: none once the target is disposed. */
  function CleanupsLeft(w: World, t: nat, i: nat): nat
    requires t < |w.heap.targets|
  {
    var tg := w.heap.targets[t];
    if tg.live && i <= |tg.cleanups| then |tg.cleanups| - i else 0
  }

  /** How many turns the finalizer loop has left. */
  function FinalizersLeft(w: World, t: nat, i: nat): nat
    requires t < |w.heap.targets|
  {
    var tg := w.heap.targets[t];
    if tg.live && i <= |tg.finalizers| then |tg.finalizers| - i else 0
  }

  /**
   * `Target.cleanup` from turn i on: call `cleanups[i]` while i is below the
   * list's current length, then empty the list. The list is read afresh each
   * turn; once the target is disposed it is null.
   */
  function RunCleanups(w: World, t: nat, i: nat, fuel: nat): (r: Run<()>)
    requires Good(w) && t < |w.heap.targets|
    ensures Good(r.w) && CallbackStep(w, r.w)
    ensures r.r.Err? ==> CallbackError(r.r.error)
    ensures !w.heap.targets[t].live ==> r == Run(w, Err(TypeError))
    ensures r.r.Ok? ==> r.w.heap.targets[t].live && r.w.heap.targets[t].cleanups == []
    decreases fuel, 1, CleanupsLeft(w, t, i)
  {
    var tg := w.heap.targets[t];
    if !tg.live then Run(w, Err(TypeError))
    else if i >= |tg.cleanups| then Run(w.(heap := Edited(w.heap, t, tg.(cleanups := []))), Ok(()))
    else
      var c := RunCallback(w, tg.cleanups[i], fuel);
      if c.r.Err? then c
      else RunCleanups(c.w, t, i + 1, fuel)
  }

  /** The finalizer loop of `Target.dispose` from turn i on, re-reading the list as the cleanup loop does. */
  function RunFinalizers(w: World, t: nat, i: nat, fuel: nat): (r: Run<()>)
    requires Good(w) && t < |w.heap.targets|
    ensures Good(r.w) && CallbackStep(w, r.w)
    ensures r.r.Err? ==> CallbackError(r.r.error)
    ensures !w.heap.targets[t].live ==> r == Run(w, Err(TypeError))
    ensures r.r.Ok? ==> r.w.heap.targets[t].live
    decreases fuel, 1, FinalizersLeft(w, t, i)
  {
    var tg := w.heap.targets[t];
    if !tg.live then Run(w, Err(TypeError))
    else if i >= |tg.finalizers| then Run(w, Ok(()))
    else
      var c := RunCallback(w, tg.finalizers[i], fuel);
      if c.r.Err? then c
      else RunFinalizers(c.w, t, i + 1, fuel)
  }

  /**
   * `os.runDeferred()`: with no running target, take the deferred functions
   * off the front of the queue one by one and call each.
   */
  function RunDeferred(w: World, fuel: nat): (r: Run<()>)
    requires Good(w)
    ensures Good(r.w) && Extends(w, r.w) && Restored(w, r.w) && r.w.cells == w.cells
    ensures r.r.Err? ==> CallbackError(r.r.error)
    ensures w.target.Some? ==> r == Run(w, Ok(()))
    ensures w.target.None? && r.r.Ok? ==> r.w.deferred == []
    decreases fuel, 4, |w.deferred|
  {
    if w.target.Some? || |w.deferred| == 0 then Run(w, Ok(()))
    else
      var c := RunCallback(w.(deferred := w.deferred[1..]), w.deferred[0], fuel);
      if c.r.Err? then c
      else RunDeferred(c.w, fuel)
  }

  // ---------------------------------------------------------------------------
  // Reading, writing and updating
  // ---------------------------------------------------------------------------

  /** Target t's `locked` flag set to `locked`. */
  function Locked(w: World, t: nat, locked: bool): (w': World)
    requires Good(w) && t < |w.heap.targets|
    ensures Good(w') && w' == w.(heap := w'.heap) && Extends(w, w') && |w'.heap.targets| == |w.heap.targets|
  {
    w.(heap := Edited(w.heap, t, w.heap.targets[t].(locked := locked)))
  }

  /** `if (tgt) tgt.locked = true` for formula f. */
  function Relock(w: World, f: nat): (w': World)
    requires Good(w) && f < |w.formulas|
    ensures Good(w') && w' == w.(heap := w'.heap) && Extends(w, w') && |w'.heap.targets| == |w.heap.targets|
  {
    match w.formulas[f].tgt
    case None => w
    case Some(t) => Locked(w, t, true)
  }

  /**
   * Call a signal with no argument: the running target, if any, reads its
   * source, and the call returns the current value. A disposed formula has
   * no source and its value is undefined.
   */
  function ReadSignal(w: World, sig: Signal): (r: Run<Option<int>>)
    requires Good(w)
    ensures Good(r.w) && Extends(w, r.w) && r.w == w.(heap := r.w.heap) && |r.w.heap.targets| == |w.heap.targets|
  {
    match sig
    case DataSig(c) =>
      if c >= |w.cells| then Run(w, Err(TypeError))
      else
        (match Referenced(w.heap, w.target, w.cells[c].src)
         case Err(e) => Run(w, Err(e))
         case Ok(B) => Run(w.(heap := B), Ok(Some(w.cells[c].value))))
    case FormulaSig(g) =>
      if g >= |w.formulas| then Run(w, Err(TypeError))
      else
        var fm := w.formulas[g];
        if fm.src.None? then Run(w, Ok(fm.value))
        else
          match Referenced(w.heap, w.target, fm.src.value)
          case Err(e) => Run(w, Err(e))
          case Ok(B) => Run(w.(heap := B), Ok(fm.value))
  }

  /** The first loop of the Target constructor: call each of `options.sources`, discarding the values. */
  function ReadSources(w: World, sigs: seq<Signal>): (r: Run<()>)
    requires Good(w)
    ensures Good(r.w) && Extends(w, r.w) && r.w == w.(heap := r.w.heap) && |r.w.heap.targets| == |w.heap.targets|
    ensures r.r.Err? ==> r.r.error == TypeError
    decreases |sigs|
  {
    if |sigs| == 0 then Run(w, Ok(()))
    else
      var c := ReadSignal(w, sigs[0]);
      if c.r.Err? then Run(c.w, Err(c.r.error)) else ReadSources(c.w, sigs[1..])
  }

  /** Call an updater found in a slot: a formula's own `update`, or a scheduler's wrapper, which is handed over. */
  function Invoke(w: World, u: Updater, fuel: nat): (r: Run<()>)
    requires Good(w)
    ensures Settled(w, r)
    decreases fuel, 5, 0
  {
    match u
    case Raw(f) =>
      if f >= |w.formulas| then Run(w, Err(TypeError))
      else if fuel == 0 then Run(w, Err(OutOfFuel))
      else Update(w, f, fuel - 1)
    case Wrapped(owner, inner) => Run(w.(log := w.log + [Handoff(owner, inner)]), Ok(()))
  }

  /**
   * `Source.propagate` from turn i on: call the non-null updaters among the
   * first `len` slots, `len` being the length of the slot array when the
   * loop started; each slot is read afresh.
   */
  function Propagate(w: World, s: nat, i: nat, len: nat, fuel: nat): (r: Run<()>)
    requires Good(w) && s < |w.heap.sources|
    ensures Settled(w, r)
    decreases fuel, 6, len - i
  {
    if i >= len then Run(w, Ok(()))
    else
      match SlotAt(w.heap.sources[s].updates, i)
      case None => Propagate(w, s, i + 1, len, fuel)
      case Some(u) =>
        var c := Invoke(w, u, fuel);
        if c.r.Err? then c else Propagate(c.w, s, i + 1, len, fuel)
  }

  /** `Source.propagate()`: the loop over the slots present when it starts. */
  function PropagateAll(w: World, s: nat, fuel: nat): (r: Run<()>)
    requires Good(w) && s < |w.heap.sources|
    ensures Settled(w, r)
    decreases fuel, 7, 0
  {
    Propagate(w, s, 0, |w.heap.sources[s].updates|, fuel)
  }

  /**
   * A formula's `update`. It does nothing while it is already running or once
   * the formula is disposed. Otherwise it runs `beginUpdate` with its target
   * running, then `fn` inside try/finally, then `endUpdate`. Nothing catches
   * a failing `beginUpdate`: the running target stays changed and `updating`
   * stays set.
   */
  function Update(w: World, f: nat, fuel: nat): (r: Run<()>)
    requires Good(w) && f < |w.formulas|
    ensures Settled(w, r) && f < |r.w.formulas|
    ensures w.formulas[f].updating || w.formulas[f].tgt.None? ==> r == Run(w, Ok(()))
    decreases fuel, 12, 0
  {
    var fm := w.formulas[f];
    if fm.updating || fm.tgt.None? then Run(w, Ok(()))
    else
      var b := Begin(w, f, fuel);
      if b.r.Err? then b else Complete(b.w, f, w.target, fuel)
  }

  /** The rest of `update` once `beginUpdate` is done: the try block, the finally block, then `endUpdate`. */
  function Complete(w: World, f: nat, previous: Option<nat>, fuel: nat): (r: Run<()>)
    requires Good(w) && f < |w.formulas| && InRange(previous, |w.heap.targets|)
    ensures Good(r.w) && Extends(w, r.w) && r.w.target == previous && f < |r.w.formulas|
    decreases fuel, 11, 1
  {
    var e := Body(w, f, fuel);
    var w3 := Finish(e.w, f, previous);
    if e.r.Err? then Run(w3, e.r) else EndStep(w3, f)
  }

  /**
   * The start of `update`: set `updating`, make the target the running one,
   * then `tgt.beginUpdate()` (the cleanups, then `gen++`) and
   * `tgt.locked = false`, on whatever `tgt` holds by then.
   */
  function Begin(w: World, f: nat, fuel: nat): (r: Run<()>)
    requires Good(w) && f < |w.formulas| && w.formulas[f].tgt.Some?
    ensures Good(r.w) && Extends(w, r.w) && f < |r.w.formulas|
    ensures r.r.Err? ==> CallbackError(r.r.error)
    decreases fuel, 5, 0
  {
    var fm := w.formulas[f];
    var t := fm.tgt.value;
    var c := RunCleanups(w.(formulas := w.formulas[f := fm.(updating := true)], target := fm.tgt), t, 0, fuel);
    if c.r.Err? then c else Begun(c.w, f, t)
  }

  /** The rest of `beginUpdate` once the cleanups are done: `gen++` on target t, then `tgt.locked = false` on whatever `tgt` holds by then. */
  function Begun(w: World, f: nat, t: nat): (r: Run<()>)
    requires Good(w) && f < |w.formulas| && t < |w.heap.targets|
    ensures Good(r.w) && Extends(w, r.w) && r.w.formulas == w.formulas
    ensures r.r.Err? ==> r.r.error == TypeError
  {
    var tg := w.heap.targets[t];
    var w2 := w.(heap := Edited(w.heap, t, tg.(gen := tg.gen + 1)));
    match w2.formulas[f].tgt
    case None => Run(w2, Err(TypeError))
    case Some(u) => Run(Locked(w2, u, false), Ok(()))
  }

  /** The finally block of `update`: clear `updating`, lock the target if there still is one, put back the previous running target. */
  function Finish(w: World, f: nat, previous: Option<nat>): (w': World)
    requires Good(w) && f < |w.formulas| && InRange(previous, |w.heap.targets|)
    ensures Good(w') && Extends(w, w') && w'.target == previous && f < |w'.formulas|
    ensures !w'.formulas[f].updating
  {
    Relock(w.(formulas := w.formulas[f := w.formulas[f].(updating := false)], target := previous), f)
  }

  /** `if (tgt) tgt.endUpdate()`: prune the dependencies this run did not read. */
  function EndStep(w: World, f: nat): (r: Run<()>)
    requires Good(w) && f < |w.formulas|
    ensures Good(r.w) && r.w == w.(heap := r.w.heap) && Extends(w, r.w)
    ensures r.r.Err? ==> r.r.error == TypeError
  {
    match w.formulas[f].tgt
    case None => Run(w, Ok(()))
    case Some(t) =>
      match Ended(w.heap, t)
      case Err(e) => Run(w, Err(e))
      case Ok(B) => Run(w.(heap := B), Ok(()))
  }

  /** The try block of `update`: `value = fn()`, then lock the target and propagate the source if the formula still has them. */
  function Body(w: World, f: nat, fuel: nat): (r: Run<()>)
    requires Good(w) && f < |w.formulas|
    ensures Settled(w, r) && f < |r.w.formulas|
    decreases fuel, 11, 0
  {
    match w.formulas[f].fn
    case None => Run(w, Err(TypeError))
    case Some(body) =>
      var e := Exec(w, body, fuel);
      if e.r.Err? then Run(e.w, Err(e.r.error))
      else
        var w1 := Relock(e.w.(formulas := e.w.formulas[f := e.w.formulas[f].(value := e.r.value)]), f);
        match w1.formulas[f].src
        case None => Run(w1, Ok(()))
        case Some(s) => PropagateAll(w1, s, fuel)
  }

  /** Run a script: its value is the value of its last action, undefined for an empty one. */
  function Exec(w: World, body: seq<Action>, fuel: nat): (r: Run<Option<int>>)
    requires Good(w)
    ensures Settled(w, r)
    decreases fuel, 10, |body|
  {
    if |body| == 0 then Run(w, Ok(None))
    else
      var a := Act(w, body[0], fuel);
      if a.r.Err? || |body| == 1 then a else Exec(a.w, body[1..], fuel)
  }

  /** A Run whose value is dropped, as one with an undefined value (`S.pin(fn)` with `fn` returns nothing). */
  function Void<T>(r: Run<T>): (v: Run<Option<int>>)
    ensures v.w == r.w && v.r.Ok? == r.r.Ok? && (r.r.Err? ==> v.r.error == r.r.error)
  {
    if r.r.Ok? then Run(r.w, Ok(None)) else Run(r.w, Err(r.r.error))
  }

  /** One action of a script. */
  function Act(w: World, a: Action, fuel: nat): (r: Run<Option<int>>)
    requires Good(w)
    ensures Settled(w, r)
    decreases fuel, 9, 0
  {
    match a
    case Read(sig) => ReadSignal(w, sig)
    case Write(c, v) => WriteCell(w, c, v, fuel)
    case MakeData(v) => Run(w.(heap := WithSource(w.heap, w.target), cells := w.cells + [Cell(|w.heap.sources|, v)]), Ok(None))
    case MakeFormula(body, options) => Void(NewFormula(w, body, options, fuel))
    case Peek(inner) => Peeked(w, inner, fuel)
    case Pin(inner) => Void(Pinned(w, inner, fuel))
    case Defer(cb) =>
      if w.target.Some? then Run(w.(deferred := w.deferred + [cb]), Ok(None)) else Void(RunCallback(w, cb, fuel))
    case Cleanup(cb) => Void(Register(w, cb, false))
    case Finalize(cb) => Void(Register(w, cb, true))
    case Dispose(g) => Void(RunCallback(w, DisposeOf(g), fuel))
    case Throw => Run(w, Err(UserError))
  }

  /** `S.cleanup(fn)` and `S.finalize(fn)`: push onto the running target's list; at top level they throw. */
  function Register(w: World, cb: Callback, final: bool): (r: Run<()>)
    requires Good(w)
    ensures Settled(w, r) && r.w == w.(heap := r.w.heap)
    ensures w.target.None? ==> r == Run(w, Err(if final then FinalizeAtTopLevel else CleanupAtTopLevel))
  {
    match w.target
    case None => Run(w, Err(if final then FinalizeAtTopLevel else CleanupAtTopLevel))
    case Some(t) =>
      match PushedCallback(w.heap, t, cb, final)
      case Err(e) => Run(w, Err(e))
      case Ok(B) => Run(w.(heap := B), Ok(()))
  }

  /** Calling data signal c with a value: store it, propagate, run the deferred functions, return the current value. */
  function WriteCell(w: World, c: nat, v: int, fuel: nat): (r: Run<Option<int>>)
    requires Good(w)
    ensures Settled(w, r)
    decreases fuel, 8, 0
  {
    if c >= |w.cells| then Run(w, Err(TypeError))
    else
      var p := PropagateAll(w.(cells := w.cells[c := w.cells[c].(value := v)]), w.cells[c].src, fuel);
      if p.r.Err? then Void(p)
      else
        var d := RunDeferred(p.w, fuel);
        if d.r.Err? then Void(d) else Run(d.w, Ok(Some(d.w.cells[c].value)))
  }

  /** Whether `S.peek` switches listening off: there is a running target and it is listening. */
  predicate Peeking(w: World)
    requires Good(w)
  {
    w.target.Some? && w.heap.targets[w.target.value].listening
  }

  /** Whether `S.pin` switches pinning on: there is a running target and it is not pinning yet. */
  predicate Pinning(w: World)
    requires Good(w)
  {
    w.target.Some? && !w.heap.targets[w.target.value].pinning
  }

  /** The running target's listening or pinning flag set to `on`. */
  function Flagged(w: World, pin: bool, on: bool): (w': World)
    requires Good(w) && w.target.Some?
    ensures Good(w') && Extends(w, w') && w' == w.(heap := w'.heap)
    ensures var t := w.target.value; var tg := w'.heap.targets[t];
      if pin then tg.pinning == on && tg.listening == w.heap.targets[t].listening
      else tg.listening == on && tg.pinning == w.heap.targets[t].pinning
  {
    var t := w.target.value;
    var tg := w.heap.targets[t];
    w.(heap := Edited(w.heap, t, if pin then tg.(pinning := on) else tg.(listening := on)))
  }

  /**
   * `S.peek(fn)`: with a listening running target, switch listening off
   * around fn; otherwise just call fn.
   */
  function Peeked(w: World, inner: seq<Action>, fuel: nat): (r: Run<Option<int>>)
    requires Good(w)
    ensures Settled(w, r)
    decreases fuel, 8, 0
  {
    if fuel == 0 then Run(w, Err(OutOfFuel))
    else
      var peeking := Peeking(w);
      var e := Exec(if peeking then Flagged(w, false, false) else w, inner, fuel - 1);
      if peeking then Restore(e, false, true) else e
  }

  /** `S.pin(fn)`: the same pattern for `pinning`, which makes new sub-formulas go to `finalizers`. */
  function Pinned(w: World, inner: seq<Action>, fuel: nat): (r: Run<Option<int>>)
    requires Good(w)
    ensures Settled(w, r)
    decreases fuel, 8, 0
  {
    if fuel == 0 then Run(w, Err(OutOfFuel))
    else
      var pinning := Pinning(w);
      var e := Exec(if pinning then Flagged(w, true, true) else w, inner, fuel - 1);
      if pinning then Restore(e, true, false) else e
  }

  /**
   * The finally block of `S.peek` and `S.pin`: the flag goes back for
   * whatever target is running by then (there is none only after a failed
   * update: TypeError).
   */
  function Restore(e: Run<Option<int>>, pin: bool, on: bool): (r: Run<Option<int>>)
    requires Good(e.w)
    ensures Good(r.w) && Extends(e.w, r.w) && r.w == e.w.(heap := r.w.heap)
    ensures e.w.target.None? ==> r == Run(e.w, Err(TypeError))
    ensures e.w.target.Some? ==> r.r == e.r && r.w == Flagged(e.w, pin, on)
  {
    match e.w.target
    case None => Run(e.w, Err(TypeError))
    case Some(_) => Run(Flagged(e.w, pin, on), e.r)
  }

  /**
   * `S.formula(fn, options)`: a Source and a Target (whose constructor reads
   * `options.sources`, if given), then the rest in Launch. The closure exists
   * from the start, without a target until the constructor returns.
   */
  function NewFormula(w: World, body: seq<Action>, options: Options, fuel: nat): (r: Run<()>)
    requires Good(w)
    ensures Settled(w, r) && |w.formulas| < |r.w.formulas|
    decreases fuel, 8, 0
  {
    var f := |w.formulas|;
    var c := Targeted(Closure(w, body), f, options);
    if c.r.Err? then c else Launch(c.w, f, options, fuel)
  }

  /** The closure of a new formula before its Target exists: a new Source, `fn` set, no target. */
  function Closure(w: World, body: seq<Action>): (w': World)
    requires Good(w)
    ensures Good(w') && Extends(w, w') && w'.target == w.target
    ensures |w'.formulas| == |w.formulas| + 1 && |w'.heap.targets| == |w.heap.targets|
  {
    w.(heap := WithSource(w.heap, w.target),
       formulas := w.formulas + [Formula(Some(body), Some(|w.heap.sources|), None, None, false)])
  }

  /** `tgt = new Target(update, options, os)` for formula f. */
  function Targeted(w: World, f: nat, options: Options): (r: Run<()>)
    requires Good(w) && f < |w.formulas|
    ensures Good(r.w) && Extends(w, r.w) && r.w.target == w.target
    ensures |r.w.formulas| == |w.formulas|
    ensures r.r.Err? ==> r.r.error == TypeError
    ensures r.r.Ok? && options.sources.Some? ==> r.w.formulas[f].tgt == Some(|w.heap.targets|) && !r.w.heap.targets[|w.heap.targets|].listening
  {
    match WithTarget(w.heap, w.target, Raw(f), options.scheduled)
    case Err(e) => Run(w, Err(e))
    case Ok(B) =>
      var t := |w.heap.targets|;
      var s := Sourced(w.(heap := B), t, options.sources, w.target);
      if s.r.Err? then s else Run(WithTgt(s.w, f, t), Ok(()))
  }

  /** The closure's `tgt` variable set to target t. */
  function WithTgt(w: World, f: nat, t: nat): (w': World)
    requires Good(w) && f < |w.formulas| && t < |w.heap.targets|
    ensures Good(w') && w' == w.(formulas := w'.formulas) && |w'.formulas| == |w.formulas|
    ensures w'.formulas[f].tgt == Some(t)
  {
    var w' := w.(formulas := w.formulas[f := w.formulas[f].(tgt := Some(t))]);
    assert Tracked(w') by {
      forall g | 0 <= g < |w'.formulas|
        ensures InRange(w'.formulas[g].src, |w'.heap.sources|) && InRange(w'.formulas[g].tgt, |w'.heap.targets|)
      {
        if g != f {
          assert w'.formulas[g] == w.formulas[g];
        }
      }
    }
    w'
  }

  /**
   * The `options.sources` block of the Target constructor for new target t:
   * run with t as the running, unlocked target; the finally locks t and
   * puts back the previous target; then t stops listening.
   */
  function Sourced(w: World, t: nat, sources: Option<seq<Signal>>, previous: Option<nat>): (r: Run<()>)
    requires Good(w) && t < |w.heap.targets| && previous == w.target
    ensures Good(r.w) && Extends(w, r.w) && r.w.target == previous
    ensures r.w.formulas == w.formulas && |r.w.heap.targets| == |w.heap.targets|
    ensures r.r.Err? ==> r.r.error == TypeError
    ensures r.r.Ok? && sources.Some? ==> !r.w.heap.targets[t].listening
  {
    match sources
    case None => Run(w, Ok(()))
    case Some(sigs) =>
      var s := ReadSources(Locked(w.(target := Some(t)), t, false), sigs);
      var w1 := Locked(s.w.(target := previous), t, true);
      if s.r.Err? then Run(w1, s.r) else Run(Unlistened(w1, t), Ok(()))
  }

  /** `tgt.listening = false`, once a formula's explicit sources have been read. */
  function Unlistened(w: World, t: nat): (w': World)
    requires Good(w) && t < |w.heap.targets|
    ensures Good(w') && w' == w.(heap := w'.heap) && Extends(w, w') && |w'.heap.targets| == |w.heap.targets|
    ensures !w'.heap.targets[t].listening
  {
    w.(heap := Edited(w.heap, t, w.heap.targets[t].(listening := false)))
  }

  /**
   * The rest of `S.formula`: register the dispose with the running target,
   * run `update` (or hand it to `init`), then `runDeferred`.
   */
  function Launch(w: World, f: nat, options: Options, fuel: nat): (r: Run<()>)
    requires Good(w) && f < |w.formulas|
    ensures Settled(w, r) && |w.formulas| <= |r.w.formulas|
    decreases fuel, 7, 0
  {
    match Reported(w.heap, w.target, DisposeOf(f), options.pin)
    case Err(e) => Run(w, Err(e))
    case Ok(C) =>
      var u := Started(w.(heap := C), f, options.init, fuel);
      if u.r.Err? then u else RunDeferred(u.w, fuel)
  }

  /** `if (options.init) options.init(update); else update();` for the new formula f. */
  function Started(w: World, f: nat, init: bool, fuel: nat): (r: Run<()>)
    requires Good(w) && f < |w.formulas|
    ensures Settled(w, r) && |w.formulas| <= |r.w.formulas|
    ensures init ==> r == Run(w.(log := w.log + [InitHandoff(f)]), Ok(()))
    decreases fuel, 6, 0
  {
    if init then Run(w.(log := w.log + [InitHandoff(f)]), Ok(()))
    else if fuel == 0 then Run(w, Err(OutOfFuel))
    else Update(w, f, fuel - 1)
  }
}
