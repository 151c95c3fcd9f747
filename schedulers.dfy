/**
 * The schedulers of module 'schedulers' (dist/surplus.js): `pause`,
 * `stopsign` and `when`. A scheduler takes a formula's `update` and returns
 * the function propagation calls instead. The closures' variables are the
 * fields of the classes below; the functions they call (`update`, the
 * collector, the predicates) are not modelled as code: what they are asked
 * to do is recorded as effects, and the values the predicates return are
 * parameters.
 */
module Schedulers {
  import opened Wrappers

  /** What a scheduler's closure does that the outside sees. */
  datatype Effect =
    | Collected  // the collector was handed a fresh `resume`
    | Updated    // the wrapped `update` was called

  // ---------------------------------------------------------------------------
  // pause(collector)
  // ---------------------------------------------------------------------------

  /** The `scheduled` flag after some calls, and what the calls did. */
  datatype Outcome = Outcome(scheduled: bool, effects: seq<Effect>)

  /** A call of the `paused` wrapper, or of one of the `resume` functions it handed out. */
  datatype PauseEvent = Fired | Resumed

  /** The `scheduled` flag after one event, and what the event does. */
  function PauseStep(scheduled: bool, e: PauseEvent): (r: Outcome)
    ensures e.Resumed? ==> r == Outcome(false, [Updated])
    ensures e.Fired? ==> r.scheduled && (r.effects == if scheduled then [] else [Collected])
  {
    match e
    case Fired => if scheduled then Outcome(true, []) else Outcome(true, [Collected])
    case Resumed => Outcome(false, [Updated])
  }

  /** The flag and the effects after a sequence of events. */
  function PauseRun(scheduled: bool, es: seq<PauseEvent>): (r: Outcome)
    ensures |es| > 0 ==> (r.scheduled <==> es[|es| - 1] == Fired)
    decreases |es|
  {
    if |es| == 0 then Outcome(scheduled, [])
    else
      var first := PauseStep(scheduled, es[0]);
      var rest := PauseRun(first.scheduled, es[1..]);
      Outcome(rest.scheduled, first.effects + rest.effects)
  }

  /** How many times e occurs in xs. */
  function Count<T(==)>(xs: seq<T>, e: T): nat
    decreases |xs|
  {
    if |xs| == 0 then 0 else (if xs[0] == e then 1 else 0) + Count(xs[1..], e)
  }

  lemma {:induction false} CountAppend<T>(a: seq<T>, b: seq<T>, e: T)
    ensures Count(a + b, e) == Count(a, e) + Count(b, e)
    decreases |a|
  {
    if |a| == 0 {
      assert a + b == b;
    } else {
      assert (a + b)[0] == a[0] && (a + b)[1..] == a[1..] + b;
      CountAppend(a[1..], b, e);
    }
  }

  /** The state of one `paused` closure: its `scheduled` flag, and what it has done so far. */
  class Paused {
    var scheduled: bool
    var effects: seq<Effect>

    /** `pause(collector)(update)`: nothing is scheduled yet. */
    constructor ()
      ensures !scheduled && effects == []
    {
      scheduled := false;
      effects := [];
    }

    /** `paused()`: while a resume is pending the call is dropped; otherwise hand the collector a `resume`. */
    method Fire()
      modifies this
      ensures scheduled == PauseStep(old(scheduled), Fired).scheduled
      ensures effects == old(effects) + PauseStep(old(scheduled), Fired).effects
    {
      if scheduled {
        return;
      }
      scheduled := true;
      effects := effects + [Collected];
    }

    /** `resume()`: clear the flag, then call `update`; a trigger from inside `update` is collected afresh. */
    method Resume()
      modifies this
      ensures scheduled == PauseStep(old(scheduled), Resumed).scheduled
      ensures effects == old(effects) + PauseStep(old(scheduled), Resumed).effects
    {
      scheduled := false;
      effects := effects + [Updated];
    }
  }

  /**
   * However often `paused` is called, the collector is handed at most one
   * `resume` more than the number of resumes that ran: triggers arriving
   * while one is pending are dropped.
   */
  lemma {:induction false} PauseCoalesces(scheduled: bool, es: seq<PauseEvent>)
    ensures Count(PauseRun(scheduled, es).effects, Collected) <= Count(es, Resumed) + (if scheduled then 0 else 1)
    decreases |es|
  {
    if |es| > 0 {
      var first := PauseStep(scheduled, es[0]);
      var rest := PauseRun(first.scheduled, es[1..]);
      PauseCoalesces(first.scheduled, es[1..]);
      CountAppend(first.effects, rest.effects, Collected);
      var c := Count(first.effects, Collected);
      if es[0] == Resumed {
        assert c == 0 && !first.scheduled;
      } else if scheduled {
        assert first.effects == [] && first.scheduled;
      } else {
        assert c == 1 by { assert first.effects == [Collected]; assert first.effects[1..] == []; }
      }
    }
  }

  /** The wrapped `update` runs exactly once per resume, never on a trigger. */
  lemma {:induction false} PauseUpdatesOnResume(scheduled: bool, es: seq<PauseEvent>)
    ensures Count(PauseRun(scheduled, es).effects, Updated) == Count(es, Resumed)
    decreases |es|
  {
    if |es| > 0 {
      var first := PauseStep(scheduled, es[0]);
      var rest := PauseRun(first.scheduled, es[1..]);
      PauseUpdatesOnResume(first.scheduled, es[1..]);
      CountAppend(first.effects, rest.effects, Updated);
      assert PauseRun(scheduled, es).effects == first.effects + rest.effects;
      assert Count(es, Resumed) == (if es[0] == Resumed then 1 else 0) + Count(es[1..], Resumed);
    }
  }

  /** While a resume is pending, any number of triggers does nothing at all. */
  lemma {:induction false} PauseDropsWhilePending(es: seq<PauseEvent>)
    requires forall i :: 0 <= i < |es| ==> es[i] == Fired
    ensures PauseRun(true, es) == Outcome(true, [])
    decreases |es|
  {
    if |es| > 0 {
      assert PauseStep(true, es[0]) == Outcome(true, []);
      assert forall i :: 0 <= i < |es[1..]| ==> es[1..][i] == es[i + 1];
      PauseDropsWhilePending(es[1..]);
    }
  }

  // ---------------------------------------------------------------------------
  // stopsign()
  // ---------------------------------------------------------------------------

  /** A `stopsign` collector: the updates it has collected and the calls `go` has made. */
  class StopSign {
    var updates: seq<nat>
    var calls: seq<nat>

    constructor ()
      ensures updates == [] && calls == []
    {
      updates := [];
      calls := [];
    }

    /** `collector(update)`: keep the update for the next `go`. */
    method Collect(u: nat)
      modifies this
      ensures updates == old(updates) + [u] && calls == old(calls)
    {
      updates := updates + [u];
    }

    /** `collector.go()`: call every collected update in the order collected, then forget them. */
    method Go()
      modifies this
      ensures calls == old(calls) + old(updates) && updates == []
    {
      var i := 0;
      while i < |updates|
        invariant 0 <= i <= |updates| && updates == old(updates)
        invariant calls == old(calls) + updates[..i]
      {
        calls := calls + [updates[i]];
        i := i + 1;
      }
      updates := [];
    }
  }

  // ---------------------------------------------------------------------------
  // when(preds)
  // ---------------------------------------------------------------------------

  /** No predicate value is undefined. */
  predicate Defined(values: seq<Option<int>>)
  {
    forall i :: 0 <= i < |values| ==> values[i].Some?
  }

  /**
   * `when(preds)(update)()`, given what each predicate would return: call
   * them in order, stop at the first undefined one, and call `update` only if
   * there is none. `evaluated` is how many predicates were called.
   */
  method WhenGate(values: seq<Option<int>>) returns (evaluated: nat, fire: bool)
    ensures fire <==> Defined(values)
    ensures fire ==> evaluated == |values|
    ensures !fire ==> 0 < evaluated <= |values| && values[evaluated - 1].None? && Defined(values[..evaluated - 1])
  {
    var i := 0;
    while i < |values|
      invariant 0 <= i <= |values| && Defined(values[..i])
    {
      if values[i].None? {
        assert values[..i + 1][..i] == values[..i];
        return i + 1, false;
      }
      assert values[..i + 1] == values[..i] + [values[i]];
      i := i + 1;
    }
    assert values[..i] == values;
    return i, true;
  }

  // ---------------------------------------------------------------------------
  // pause(when(preds)), the scheduler of the options builder's `when`
  // ---------------------------------------------------------------------------

  /**
   * A trigger of `pause(when(preds))` as written, given the predicates'
   * values: `paused` sets `scheduled` and hands `resume` to the `when`
   * gate, which calls it at once when every value is defined and drops it
   * otherwise, leaving `scheduled` set.
   */
  function GatedTrigger(scheduled: bool, values: seq<Option<int>>): (r: Outcome)
    ensures scheduled ==> r == Outcome(true, [])
    ensures !scheduled ==> (r.scheduled <==> !Defined(values))
  {
    if scheduled then Outcome(true, [])
    else if Defined(values) then Outcome(false, [Updated])
    else Outcome(true, [])
  }

  /** A sequence of triggers of `pause(when(preds))` as written, each with the predicates' values of the moment. */
  function GatedRun(scheduled: bool, triggers: seq<seq<Option<int>>>): (r: Outcome)
    ensures scheduled ==> r == Outcome(true, [])
    decreases |triggers|
  {
    if |triggers| == 0 then Outcome(scheduled, [])
    else
      var first := GatedTrigger(scheduled, triggers[0]);
      var rest := GatedRun(first.scheduled, triggers[1..]);
      Outcome(rest.scheduled, first.effects + rest.effects)
  }

  /**
   * As written, one trigger that arrives while a predicate is undefined
   * leaves `scheduled` set for good: a later trigger with every predicate
   * defined is dropped too, and `update` never runs.
   */
  lemma GatedTriggerSticks()
    ensures GatedRun(false, [[None], [Some(1)]]) == Outcome(true, [])
  {
    var ts: seq<seq<Option<int>>> := [[None], [Some(1)]];
    assert !Defined(ts[0]) by { assert ts[0][0].None?; }
    assert ts[1..] == [ts[1]] && ts[1..][1..] == [];
    assert GatedTrigger(false, ts[0]) == Outcome(true, []);
    assert GatedTrigger(true, ts[1]) == Outcome(true, []) && GatedRun(true, []) == Outcome(true, []);
    assert GatedRun(true, ts[1..]) == Outcome(true, []);
  }

  /** The evidently intended gate: a trigger with an undefined predicate is dropped without leaving a resume pending. */
  function GatedTriggerFixed(scheduled: bool, values: seq<Option<int>>): (r: Outcome)
    ensures !scheduled ==> !r.scheduled && (r.effects == if Defined(values) then [Updated] else [])
  {
    if scheduled then Outcome(true, [])
    else if Defined(values) then Outcome(false, [Updated])
    else Outcome(false, [])
  }

  /** Triggers of the intended gate, starting from nothing scheduled. */
  function GatedRunFixed(scheduled: bool, triggers: seq<seq<Option<int>>>): (r: Outcome)
    ensures !scheduled ==> !r.scheduled
    decreases |triggers|
  {
    if |triggers| == 0 then Outcome(scheduled, [])
    else
      var first := GatedTriggerFixed(scheduled, triggers[0]);
      var rest := GatedRunFixed(first.scheduled, triggers[1..]);
      Outcome(rest.scheduled, first.effects + rest.effects)
  }

  /** With the intended gate, `update` runs exactly once for every trigger whose predicates are all defined. */
  lemma {:induction false} GatedRunFixedUpdates(triggers: seq<seq<Option<int>>>)
    ensures !GatedRunFixed(false, triggers).scheduled
    ensures Count(GatedRunFixed(false, triggers).effects, Updated) == |FiringTriggers(triggers)|
    decreases |triggers|
  {
    if |triggers| > 0 {
      GatedRunFixedUpdates(triggers[1..]);
      var first := GatedTriggerFixed(false, triggers[0]);
      CountAppend(first.effects, GatedRunFixed(false, triggers[1..]).effects, Updated);
    }
  }

  /** The triggers whose predicates are all defined. */
  function FiringTriggers(triggers: seq<seq<Option<int>>>): (r: seq<seq<Option<int>>>)
    ensures |r| <= |triggers| && forall i :: 0 <= i < |r| ==> Defined(r[i])
    decreases |triggers|
  {
    if |triggers| == 0 then []
    else (if Defined(triggers[0]) then [triggers[0]] else []) + FiringTriggers(triggers[1..])
  }
}
