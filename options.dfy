/**
 * The options builder of module 'options' (dist/surplus.js): the chain
 * `S.on(a).when(b).defer().S(fn)` collects a formula's sources, its `pin`
 * flag and the schedulers its `update` and `init` are wrapped in.
 */
module FormulaOptions {
  import opened Wrappers
  import Core

  /** A scheduler the builder can install; the numbers are the arguments it was given. */
  datatype Scheduler =
    | Defer
    | Throttle(t: int)
    | Debounce(t: int)
    | Pause(collector: nat)
    | PauseWhen(preds: seq<Core.Signal>)  // pause(when(preds)), installed by `when`

  /**
   * The `update` or `init` option: one scheduler, or the `compose` closure
   * that `maybeCompose` builds around a newer scheduler and the old option.
   */
  datatype Composite = Single(s: Scheduler) | Composed(outer: Scheduler, inner: Composite)

  /**
   * What a formula's update becomes after wrapping: the update itself, the
   * `undefined` a call without arguments passes, or a scheduler's wrapper
   * around something.
   */
  datatype Wrapper = Update | Undefined | Wrap(scheduler: Scheduler, inner: Wrapper)

  /** The argument of `on` and `when`: falsy, one signal, or an array of signals. */
  datatype Arg = Falsy | One(s: Core.Signal) | Many(l: seq<Core.Signal>)

  /** `!l ? [] : !Array.isArray(l) ? [l] : l` */
  function Normalised(l: Arg): (r: seq<Core.Signal>)
    ensures l.Falsy? ==> r == []
    ensures l.One? ==> r == [l.s]
    ensures l.Many? ==> r == l.l
  {
    match l
    case Falsy => []
    case One(s) => [s]
    case Many(xs) => xs
  }

  /** `maybeConcat(a, b)`: an array is truthy even when empty, so only a missing list is replaced. */
  function MaybeConcat(a: Option<seq<Core.Signal>>, b: seq<Core.Signal>): (r: Option<seq<Core.Signal>>)
    ensures r.Some?
    ensures a.None? ==> r.value == b
    ensures a.Some? ==> |r.value| == |a.value| + |b| && r.value[..|a.value|] == a.value && r.value[|a.value|..] == b
  {
    match a
    case None => Some(b)
    case Some(xs) => Some(xs + b)
  }

  /** Two `on` calls collect the same sources as one `on` with both lists. */
  lemma MaybeConcatTwice(a: Option<seq<Core.Signal>>, b: seq<Core.Signal>, c: seq<Core.Signal>)
    ensures MaybeConcat(MaybeConcat(a, b), c) == MaybeConcat(a, b + c)
  {
    if a.Some? {
      assert a.value + b + c == a.value + (b + c);
    }
  }

  /** `maybeCompose(f, g)`: the new scheduler alone when there is no old option, else the `compose` closure. */
  function MaybeCompose(f: Scheduler, g: Option<Composite>): (r: Composite)
    ensures g.None? ==> r == Single(f)
    ensures g.Some? ==> r.Composed? && r.outer == f && r.inner == g.value
  {
    match g
    case None => Single(f)
    case Some(c) => Composed(f, c)
  }

  /**
   * What calling the option with the formula's update produces, as
   * written: `compose()` calls `f(g())`, so the inner option is called
   * without an argument and the update is lost.
   */
  function Applied(c: Composite, u: Wrapper): (r: Wrapper)
    ensures !u.Wrap? ==> Path(r) == Layers(c)
    decreases c
  {
    match c
    case Single(s) => Wrap(s, u)
    case Composed(f, g) => Wrap(f, Applied(g, Undefined))
  }

  /** The innermost thing a chain of wrappers calls. */
  function Innermost(w: Wrapper): (r: Wrapper)
    ensures !r.Wrap?
    decreases w
  {
    if w.Wrap? then Innermost(w.inner) else w
  }

  /**
   * As written, a composed option ignores the update it is given: after two
   * schedulers the update is replaced by `undefined`.
   */
  lemma {:induction false} AppliedComposedDropsUpdate(c: Composite, u: Wrapper)
    requires c.Composed?
    ensures Applied(c, u) == Applied(c, Undefined)
    ensures Innermost(Applied(c, u)) == Undefined
  {
    AppliedInnermost(c.inner, Undefined);
  }

  lemma {:induction false} AppliedInnermost(c: Composite, u: Wrapper)
    requires !u.Wrap?
    ensures c.Single? ==> Innermost(Applied(c, u)) == u
    ensures c.Composed? ==> Innermost(Applied(c, u)) == Undefined
    decreases c
  {
    match c
    case Single(s) =>
    case Composed(f, g) => AppliedInnermost(g, Undefined);
  }

  /** The evidently intended composition: `compose(update)` returns `f(g(update))`. */
  function AppliedFixed(c: Composite, u: Wrapper): (r: Wrapper)
    ensures Innermost(r) == Innermost(u)
    decreases c
  {
    match c
    case Single(s) => Wrap(s, u)
    case Composed(f, g) => Wrap(f, AppliedFixed(g, u))
  }

  /** The schedulers of a composite, newest (outermost) first. */
  function Layers(c: Composite): (r: seq<Scheduler>)
    decreases c
  {
    match c
    case Single(s) => [s]
    case Composed(f, g) => [f] + Layers(g)
  }

  /** The schedulers a chain of wrappers passes through, outermost first. */
  function Path(w: Wrapper): (r: seq<Scheduler>)
    decreases w
  {
    if w.Wrap? then [w.scheduler] + Path(w.inner) else []
  }

  /**
   * With the intended composition the update is kept, and every scheduler
   * the builder installed wraps it, the latest outermost.
   */
  lemma {:induction false} AppliedFixedKeepsUpdate(c: Composite, u: Wrapper)
    requires !u.Wrap?
    ensures Innermost(AppliedFixed(c, u)) == u
    ensures Path(AppliedFixed(c, u)) == Layers(c)
    decreases c
  {
    match c
    case Single(s) =>
    case Composed(f, g) => AppliedFixedKeepsUpdate(g, u);
  }

  /** `new FormulaOptionsBuilder()`: its `options` are fresh `FormulaOptions`. */
  class OptionsBuilder {
    var sources: Option<seq<Core.Signal>>
    var pin: bool
    var update: Option<Composite>
    var init: Option<Composite>

    constructor ()
      ensures sources.None? && !pin && update.None? && init.None?
    {
      sources := None;
      pin := false;
      update := None;
      init := None;
    }

    /** `on(l)`: add the given signals to the explicit sources. */
    method On(l: Arg)
      modifies this
      ensures sources == MaybeConcat(old(sources), Normalised(l))
      ensures pin == old(pin) && update == old(update) && init == old(init)
    {
      sources := MaybeConcat(sources, Normalised(l));
    }

    /** `once()`: an empty source list, so the formula never re-runs. */
    method Once()
      modifies this
      ensures sources == Some([])
      ensures pin == old(pin) && update == old(update) && init == old(init)
    {
      sources := Some([]);
    }

    /** `pin()` */
    method Pin()
      modifies this
      ensures pin
      ensures sources == old(sources) && update == old(update) && init == old(init)
    {
      pin := true;
    }

    /**
     * `when(l)`: the signals become sources, and `pause(when(l))` wraps both
     * `init` and `update`.
     */
    method When(l: Arg)
      modifies this
      ensures sources == MaybeConcat(old(sources), Normalised(l))
      ensures update == Some(MaybeCompose(PauseWhen(Normalised(l)), old(update)))
      ensures init == Some(MaybeCompose(PauseWhen(Normalised(l)), old(init)))
      ensures pin == old(pin)
    {
      var l' := Normalised(l);
      sources := MaybeConcat(sources, l');
      var scheduler := PauseWhen(l');
      init := Some(MaybeCompose(scheduler, init));
      update := Some(MaybeCompose(scheduler, update));
    }

    /** `defer()`, `throttle(t)`, `debounce(t)` and `pause(collector)`: wrap `update` in the scheduler. */
    method Schedule(s: Scheduler)
      requires !s.PauseWhen?
      modifies this
      ensures update == Some(MaybeCompose(s, old(update)))
      ensures sources == old(sources) && pin == old(pin) && init == old(init)
    {
      update := Some(MaybeCompose(s, update));
    }

    /** The options as the formula reads them. */
    function Built(): (o: Core.Options)
      reads this
      ensures o.sources == sources && o.pin == pin
      ensures o.scheduled <==> update.Some?
      ensures o.init <==> init.Some?
    {
      Core.Options(sources, pin, update.Some?, init.Some?)
    }
  }
}
