/**
 * `debounce` of main.js. Every function it wraps shares ONE module-level
 * timer variable, `debounceTimer`: a call of any wrapper cancels whatever is
 * pending there and schedules itself instead. A pending call is the wrapped
 * function together with the arguments it will be applied to. The delay is
 * not modelled: time passes only when the pending timer elapses.
 */
module Debounce {

  import opened Wrappers

  datatype TimerEvent<Call> =
    | Trigger(call: Call)  // a wrapper is called: clearTimeout, then setTimeout for this call
    | Elapse               // the scheduled delay has passed

  /** The slot after an event, and the call that ran during it, if any. */
  datatype Step<Call> = Step(slot: Option<Call>, ran: Option<Call>)

  function Next<Call>(slot: Option<Call>, ev: TimerEvent<Call>): Step<Call> {
    match ev
    case Trigger(c) => Step(Some(c), None)
    case Elapse => Step(None, slot)
  }

  /** The slot after a sequence of events. */
  function SlotAfter<Call>(slot: Option<Call>, evs: seq<TimerEvent<Call>>): Option<Call>
    decreases |evs|
  {
    if evs == [] then slot else SlotAfter(Next(slot, evs[0]).slot, evs[1..])
  }

  /** The calls that actually run during a sequence of events, in order. */
  function Runs<Call>(slot: Option<Call>, evs: seq<TimerEvent<Call>>): seq<Call>
    decreases |evs|
  {
    if evs == [] then []
    else
      var step := Next(slot, evs[0]);
      (if step.ran.Some? then [step.ran.value] else []) + Runs(step.slot, evs[1..])
  }

  /** A burst of calls of the wrappers, with no elapsed delay in between. */
  function Burst<Call>(calls: seq<Call>): (evs: seq<TimerEvent<Call>>)
    ensures |evs| == |calls|
    ensures forall i :: 0 <= i < |calls| ==> evs[i] == Trigger(calls[i])
  {
    if calls == [] then [] else [Trigger(calls[0])] + Burst(calls[1..])
  }

  /** However many calls a burst holds, afterwards exactly one call is pending: the last one,
      with the last arguments. Nothing runs during the burst. */
  lemma {:induction false} BurstKeepsLast<Call>(slot: Option<Call>, calls: seq<Call>)
    requires calls != []
    ensures SlotAfter(slot, Burst(calls)) == Some(calls[|calls| - 1])
    ensures Runs(slot, Burst(calls)) == []
    decreases |calls|
  {
    var evs := Burst(calls);
    assert evs[1..] == Burst(calls[1..]);
    if |calls| > 1 {
      BurstKeepsLast(Some(calls[0]), calls[1..]);
    }
  }

  /** A burst followed by the delay runs the wrapped function exactly once, with the arguments
      of the last call of the burst, and leaves nothing pending; a later elapse runs nothing. */
  lemma BurstThenElapseRunsOnce<Call>(slot: Option<Call>, calls: seq<Call>)
    requires calls != []
    ensures Runs(slot, Burst(calls) + [Elapse]) == [calls[|calls| - 1]]
    ensures SlotAfter(slot, Burst(calls) + [Elapse]) == None
    ensures Runs(slot, Burst(calls) + [Elapse, Elapse]) == [calls[|calls| - 1]]
  {
    BurstKeepsLast(slot, calls);
    RunsAppend(slot, Burst(calls), [Elapse]);
    SlotAfterAppend(slot, Burst(calls), [Elapse]);
    RunsAppend(slot, Burst(calls), [Elapse, Elapse]);
    var last: Option<Call>, empty: Option<Call> := Some(calls[|calls| - 1]), None;
    var once: seq<TimerEvent<Call>> := [Elapse];
    assert Runs(last, once) == [calls[|calls| - 1]] + Runs(empty, []);
    assert Runs(last, [Elapse, Elapse]) == [calls[|calls| - 1]] + Runs(empty, once);
    assert Runs(empty, once) == [] + Runs(empty, []);
  }

  lemma {:induction false} RunsAppend<Call>(slot: Option<Call>, a: seq<TimerEvent<Call>>, b: seq<TimerEvent<Call>>)
    ensures Runs(slot, a + b) == Runs(slot, a) + Runs(SlotAfter(slot, a), b)
    decreases |a|
  {
    if a == [] {
      assert a + b == b;
    } else {
      var step := Next(slot, a[0]);
      var ran := if step.ran.Some? then [step.ran.value] else [];
      assert (a + b)[0] == a[0] && (a + b)[1..] == a[1..] + b;
      assert Runs(slot, a + b) == ran + Runs(step.slot, a[1..] + b);
      assert Runs(slot, a) == ran + Runs(step.slot, a[1..]);
      assert SlotAfter(slot, a) == SlotAfter(step.slot, a[1..]);
      RunsAppend(step.slot, a[1..], b);
    }
  }

  lemma {:induction false} SlotAfterAppend<Call>(slot: Option<Call>, a: seq<TimerEvent<Call>>, b: seq<TimerEvent<Call>>)
    ensures SlotAfter(slot, a + b) == SlotAfter(SlotAfter(slot, a), b)
    decreases |a|
  {
    if a == [] {
      assert a + b == b;
    } else {
      assert (a + b)[1..] == a[1..] + b;
      SlotAfterAppend(Next(slot, a[0]).slot, a[1..], b);
    }
  }

  function CountTriggers<Call>(evs: seq<TimerEvent<Call>>): nat
    decreases |evs|
  {
    if evs == [] then 0 else (if evs[0].Trigger? then 1 else 0) + CountTriggers(evs[1..])
  }

  /** Debouncing never runs more calls than were made (plus one already pending), nor more
      than the number of times the delay elapsed, and everything it runs was asked for. */
  lemma {:induction false} RunsBounded<Call>(slot: Option<Call>, evs: seq<TimerEvent<Call>>)
    ensures |Runs(slot, evs)| <= CountTriggers(evs) + (if slot.Some? then 1 else 0)
    ensures |Runs(slot, evs)| <= |evs| - CountTriggers(evs)
    ensures forall c :: c in Runs(slot, evs) ==> Some(c) == slot || Trigger(c) in evs
    decreases |evs|
  {
    if evs != [] {
      var step := Next(slot, evs[0]);
      RunsBounded(step.slot, evs[1..]);
      forall c | c in Runs(slot, evs)
        ensures Some(c) == slot || Trigger(c) in evs
      {
        if c in Runs(step.slot, evs[1..]) {
          assert Some(c) == step.slot || Trigger(c) in evs[1..];
        }
      }
    }
  }

  /** The `debounceTimer` slot itself. */
  class Debouncer<Call> {
    var pending: Option<Call>

    constructor ()
      ensures pending == None
    {
      pending := None;
    }

    /** A call of a debounced wrapper: the pending call is cancelled and this one scheduled. */
    method Trigger(call: Call)
      modifies this
      ensures pending == Next(old(pending), TimerEvent.Trigger(call)).slot
    {
      pending := Some(call);
    }

    /** The delay elapses: the pending call, if any, is handed out to run, and nothing is
        pending any more. */
    method Elapse() returns (ran: Option<Call>)
      modifies this
      ensures Step(pending, ran) == Next(old(pending), TimerEvent.Elapse)
    {
      ran := pending;
      pending := None;
    }
  }
}
