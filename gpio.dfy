/**
 * Raspberry Pi GPIO controller: configured input and output pins, timed
 * output pulses, and the polling monitor that debounces rising edges on the
 * input pins and calls their callbacks.
 *
 * Pin levels read from the hardware, the clock and the callbacks' behaviour
 * are parameters; every level written to an output line is recorded in
 * `writes`. Times are whole milliseconds.
 */
module Gpio {
  import opened Base

  /** A BCM pin number. */
  type Pin = int

  /** One level written to an output line. */
  datatype Write = Write(pin: Pin, high: bool)

  /** The level last written to `pin`, if any. */
  function LastWrite(writes: seq<Write>, pin: Pin): (r: Option<bool>)
    ensures r.None? <==> forall k :: 0 <= k < |writes| ==> writes[k].pin != pin
  {
    if writes == [] then None
    else if writes[|writes| - 1].pin == pin then Some(writes[|writes| - 1].high)
    else LastWrite(writes[..|writes| - 1], pin)
  }

  /** What the monitor remembers about one pin between polls: the level it
      saw last, and the time of a rising edge still waiting for its check. */
  datatype PinState = PinState(last: bool, pending: Option<int>)

  /** A pending edge is only ever kept while the pin reads high. */
  predicate Consistent(s: PinState)
  {
    s.pending.Some? ==> s.last
  }

  /** The outcome of polling one pin: its new state and whether its callback runs. */
  datatype Poll = Poll(state: PinState, fired: bool)

  /** One poll of one pin read at `level` at time `now`. A rising edge starts
      a pending trigger, a falling edge drops it; once a trigger is at least
      `debounce` ms old the pin is read again (`recheck`) and the callback
      runs if it is still high. Either way the trigger is then dropped. */
  function DebounceStep(s: PinState, level: bool, recheck: bool, now: int, debounce: int): (r: Poll)
    ensures r.state.last == level
    ensures Consistent(s) ==> Consistent(r.state)
    ensures r.fired ==> recheck && r.state.pending.None?
    ensures Consistent(s) && r.fired ==> level
    ensures level && !s.last ==> (r.state.pending == Some(now) <==> 0 < debounce)
    ensures !level ==> r.state.pending.None? || s.pending == r.state.pending
    ensures Consistent(s) && !level ==> r.state.pending.None? && !r.fired
    ensures Consistent(s) && level && s.pending.Some? && now - s.pending.value >= debounce ==>
      r.state.pending.None? && (r.fired <==> recheck)
    ensures Consistent(s) && r.fired ==>
      level && (if s.last then s.pending.Some? && now - s.pending.value >= debounce else debounce <= 0)
  {
    var pending :=
      if level && !s.last then Some(now)
      else if !level && s.last then None
      else s.pending;
    if pending.Some? && now - pending.value >= debounce then
      Poll(PinState(level, None), recheck)
    else
      Poll(PinState(level, pending), false)
  }

  /** One poll of one pin as sampled: the time, the level read, and the
      level the second read would see. */
  datatype Sample = Sample(now: int, level: bool, recheck: bool)

  /** Polling one pin over a run of samples: the final state and how many
      times its callback ran. */
  function Monitor(s: PinState, trace: seq<Sample>, debounce: int): (r: (PinState, nat))
    ensures Consistent(s) ==> Consistent(r.0)
    ensures r.1 <= |trace|
    decreases |trace|
  {
    if trace == [] then (s, 0)
    else
      var p := DebounceStep(s, trace[0].level, trace[0].recheck, trace[0].now, debounce);
      var rest := Monitor(p.state, trace[1..], debounce);
      (rest.0, rest.1 + (if p.fired then 1 else 0))
  }

  /** Polling over two runs in a row is polling over the first, then over the second. */
  lemma {:induction false} MonitorAppend(s: PinState, a: seq<Sample>, b: seq<Sample>, debounce: int)
    ensures Monitor(s, a + b, debounce).0 == Monitor(Monitor(s, a, debounce).0, b, debounce).0
    ensures Monitor(s, a + b, debounce).1 == Monitor(s, a, debounce).1 + Monitor(Monitor(s, a, debounce).0, b, debounce).1
    decreases |a|
  {
    if a != [] {
      var p := DebounceStep(s, a[0].level, a[0].recheck, a[0].now, debounce);
      assert (a + b)[0] == a[0] && (a + b)[1..] == a[1..] + b;
      MonitorAppend(p.state, a[1..], b, debounce);
    } else {
      assert a + b == b;
    }
  }

  /** No callback runs while a pin reads low. */
  lemma {:induction false} NoCallbackWhileLow(s: PinState, trace: seq<Sample>, debounce: int)
    requires Consistent(s)
    requires forall k :: 0 <= k < |trace| ==> !trace[k].level
    ensures Monitor(s, trace, debounce).1 == 0
    ensures trace != [] ==> Monitor(s, trace, debounce).0 == PinState(false, None)
    decreases |trace|
  {
    if trace != [] {
      var p := DebounceStep(s, trace[0].level, trace[0].recheck, trace[0].now, debounce);
      NoCallbackWhileLow(p.state, trace[1..], debounce);
    }
  }

  /** No callback runs within `debounce` ms of time `t0` when no trigger
      older than `t0` is pending: a trigger is always as old as its edge. */
  lemma {:induction false} NoCallbackWithinDebounce(s: PinState, trace: seq<Sample>, debounce: int, t0: int)
    requires s.pending.Some? ==> s.pending.value >= t0
    requires forall k :: 0 <= k < |trace| ==> t0 <= trace[k].now < t0 + debounce
    ensures Monitor(s, trace, debounce).1 == 0
    ensures Monitor(s, trace, debounce).0.pending.Some? ==> Monitor(s, trace, debounce).0.pending.value >= t0
    decreases |trace|
  {
    if trace != [] {
      var p := DebounceStep(s, trace[0].level, trace[0].recheck, trace[0].now, debounce);
      NoCallbackWithinDebounce(p.state, trace[1..], debounce, t0);
    }
  }

  /** A press that is released again within the debounce time, after which
      the pin stays low, never runs the callback. */
  lemma ShortBounceNeverFires(bounce: seq<Sample>, after: seq<Sample>, debounce: int, t0: int)
    requires forall k :: 0 <= k < |bounce| ==> t0 <= bounce[k].now < t0 + debounce
    requires forall k :: 0 <= k < |after| ==> !after[k].level
    ensures Monitor(PinState(false, None), bounce + after, debounce).1 == 0
  {
    var s := PinState(false, None);
    MonitorAppend(s, bounce, after, debounce);
    NoCallbackWithinDebounce(s, bounce, debounce, t0);
    NoCallbackWhileLow(Monitor(s, bounce, debounce).0, after, debounce);
  }

  /** A pin that was already seen high with nothing pending runs no callback while it stays high. */
  lemma {:induction false} HeldHighIdle(trace: seq<Sample>, debounce: int)
    requires forall k :: 0 <= k < |trace| ==> trace[k].level
    ensures Monitor(PinState(true, None), trace, debounce) == (PinState(true, None), 0)
    decreases |trace|
  {
    if trace != [] {
      HeldHighIdle(trace[1..], debounce);
    }
  }

  /** However long a pin is held high, its callback runs at most once. */
  lemma {:induction false} HeldHighFiresAtMostOnce(s: PinState, trace: seq<Sample>, debounce: int)
    requires Consistent(s)
    requires forall k :: 0 <= k < |trace| ==> trace[k].level
    ensures Monitor(s, trace, debounce).1 <= 1
    decreases |trace|
  {
    if trace != [] {
      var p := DebounceStep(s, trace[0].level, trace[0].recheck, trace[0].now, debounce);
      if p.fired {
        HeldHighIdle(trace[1..], debounce);
      } else {
        HeldHighFiresAtMostOnce(p.state, trace[1..], debounce);
      }
    }
  }

  /** A trigger pending since `t0` on a pin held high fires exactly once,
      provided some poll comes at least `debounce` ms after `t0` and the
      second read confirms the level. */
  lemma {:induction false} PendingTriggerFires(trace: seq<Sample>, debounce: int, t0: int)
    requires forall k :: 0 <= k < |trace| ==> trace[k].level && trace[k].recheck
    requires exists k :: 0 <= k < |trace| && trace[k].now - t0 >= debounce
    ensures Monitor(PinState(true, Some(t0)), trace, debounce).1 == 1
    decreases |trace|
  {
    var p := DebounceStep(PinState(true, Some(t0)), true, true, trace[0].now, debounce);
    if p.fired {
      HeldHighIdle(trace[1..], debounce);
    } else {
      var k :| 0 <= k < |trace| && trace[k].now - t0 >= debounce;
      assert k > 0;
      assert trace[1..][k - 1] == trace[k];
      PendingTriggerFires(trace[1..], debounce, t0);
    }
  }

  /** A press held high past the debounce time, and confirmed by the second
      read, runs the callback exactly once. */
  lemma SustainedPressFiresOnce(trace: seq<Sample>, debounce: int)
    requires trace != []
    requires forall k :: 0 <= k < |trace| ==> trace[k].level && trace[k].recheck
    requires exists k :: 0 <= k < |trace| && trace[k].now - trace[0].now >= debounce
    ensures Monitor(PinState(false, None), trace, debounce).1 == 1
  {
    var t0 := trace[0].now;
    var p := DebounceStep(PinState(false, None), true, true, t0, debounce);
    if p.fired {
      HeldHighIdle(trace[1..], debounce);
    } else {
      var k :| 0 <= k < |trace| && trace[k].now - t0 >= debounce;
      assert k > 0;
      assert trace[1..][k - 1] == trace[k];
      PendingTriggerFires(trace[1..], debounce, t0);
    }
  }

  /** A poll of `pin` given the monitor's memory and the debounce times;
      a pin never seen counts as low, one without a debounce time as 0 ms. */
  function PollWith(last: map<Pin, bool>, pending: map<Pin, int>, debounceMs: map<Pin, int>,
                    pin: Pin, now: int, line: Pin -> bool, recheck: Pin -> bool): Poll
  {
    DebounceStep(
      PinState(if pin in last then last[pin] else false,
               if pin in pending then Some(pending[pin]) else None),
      line(pin), recheck(pin), now,
      if pin in debounceMs then debounceMs[pin] else 0)
  }

  /** `pin`'s memory in `last` and `pending` is what `poll` left. */
  ghost predicate Polled(last: map<Pin, bool>, pending: map<Pin, int>, pin: Pin, poll: Poll)
  {
    && pin in last && last[pin] == poll.state.last
    && (pin in pending <==> poll.state.pending.Some?)
    && (pin in pending ==> pending[pin] == poll.state.pending.value)
  }

  /** `pin`'s memory is the same in both pairs of maps. */
  ghost predicate Kept(last: map<Pin, bool>, pending: map<Pin, int>, last0: map<Pin, bool>, pending0: map<Pin, int>, pin: Pin)
  {
    && (pin in last <==> pin in last0) && (pin in last ==> last[pin] == last0[pin])
    && (pin in pending <==> pin in pending0) && (pin in pending ==> pending[pin] == pending0[pin])
  }

  /** The monitor's memory after recording `state` for `pin`. */
  method Remember(last: map<Pin, bool>, pending: map<Pin, int>, pin: Pin, poll: Poll)
    returns (last': map<Pin, bool>, pending': map<Pin, int>)
    requires forall p :: p in pending ==> p in last && last[p]
    requires Consistent(poll.state)
    ensures forall p :: p in pending' ==> p in last' && last'[p]
    ensures Polled(last', pending', pin, poll)
    ensures forall p :: p != pin ==> Kept(last', pending', last, pending, p)
  {
    var state := poll.state;
    last' := last[pin := state.last];
    if state.pending.Some? {
      pending' := pending[pin := state.pending.value];
    } else {
      pending' := pending - {pin};
    }
  }

  /** Whether `pin`'s callback runs in a monitor pass from the memory
      `last`/`pending`: it has a callback and its poll fires. */
  predicate Fires(callbacks: map<Pin, Handler>, debounceMs: map<Pin, int>,
                  last: map<Pin, bool>, pending: map<Pin, int>,
                  now: int, line: Pin -> bool, recheck: Pin -> bool, pin: Pin)
  {
    pin in callbacks && PollWith(last, pending, debounceMs, pin, now, line, recheck).fired
  }

  /** The pins of `pins` whose callback runs in a pass, in the order of `pins`. */
  function FiredOf(pins: seq<Pin>, callbacks: map<Pin, Handler>, debounceMs: map<Pin, int>,
                   last: map<Pin, bool>, pending: map<Pin, int>,
                   now: int, line: Pin -> bool, recheck: Pin -> bool): (r: seq<Pin>)
    ensures |r| <= |pins|
    ensures forall p :: p in r <==> p in pins && Fires(callbacks, debounceMs, last, pending, now, line, recheck, p)
  {
    if pins == [] then []
    else
      var pin := pins[|pins| - 1];
      FiredOf(pins[..|pins| - 1], callbacks, debounceMs, last, pending, now, line, recheck)
        + (if Fires(callbacks, debounceMs, last, pending, now, line, recheck, pin) then [pin] else [])
  }

  /** The pins of `fired` whose callback raises, in order. */
  function Raised(fired: seq<Pin>, raising: set<Pin>): (r: seq<Pin>)
    ensures |r| <= |fired|
    ensures forall p :: p in r <==> p in fired && p in raising
  {
    if fired == [] then []
    else
      var pin := fired[|fired| - 1];
      Raised(fired[..|fired| - 1], raising) + (if pin in raising then [pin] else [])
  }

  /** Visiting pin `i` of `pins` keeps the fired pins and the raising ones
      in the order of `pins`. */
  lemma VisitedInOrder(pins: seq<Pin>, i: nat, callbacks: map<Pin, Handler>, debounceMs: map<Pin, int>,
                       last: map<Pin, bool>, pending: map<Pin, int>,
                       now: int, line: Pin -> bool, recheck: Pin -> bool, raising: set<Pin>,
                       fired: seq<Pin>, failed: seq<Pin>, fired': seq<Pin>, failed': seq<Pin>)
    requires i < |pins|
    requires fired == FiredOf(pins[..i], callbacks, debounceMs, last, pending, now, line, recheck)
    requires failed == Raised(fired, raising)
    requires fired' == fired + (if Fires(callbacks, debounceMs, last, pending, now, line, recheck, pins[i]) then [pins[i]] else [])
    requires failed' == failed + (if Fires(callbacks, debounceMs, last, pending, now, line, recheck, pins[i]) && pins[i] in raising
                                  then [pins[i]] else [])
    ensures fired' == FiredOf(pins[..i + 1], callbacks, debounceMs, last, pending, now, line, recheck)
    ensures failed' == Raised(fired', raising)
  {
    assert pins[..i + 1][..i] == pins[..i];
    if fired' != fired {
      assert fired'[..|fired|] == fired;
    }
  }

  /** Where a monitor pass stands once the pins in `seen` were visited:
      every visited pin with a callback holds what its poll left and fired
      if its poll did, every other pin's memory is untouched. */
  ghost predicate PassState(seen: set<Pin>, callbacks: map<Pin, Handler>, debounceMs: map<Pin, int>,
                            last0: map<Pin, bool>, pending0: map<Pin, int>,
                            now: int, line: Pin -> bool, recheck: Pin -> bool, raising: set<Pin>,
                            last: map<Pin, bool>, pending: map<Pin, int>, fired: seq<Pin>, failed: seq<Pin>)
  {
    && (forall p :: p in pending ==> p in last && last[p])
    && (forall p :: p in fired <==> p in seen && p in callbacks
                                    && PollWith(last0, pending0, debounceMs, p, now, line, recheck).fired)
    && (forall p :: p in failed <==> p in fired && p in raising)
    && (forall p :: p in seen && p in callbacks ==>
          Polled(last, pending, p, PollWith(last0, pending0, debounceMs, p, now, line, recheck)))
    && (forall p :: !(p in seen && p in callbacks) ==> Kept(last, pending, last0, pending0, p))
  }

  /** The monitor's visit to one input pin not visited yet in this pass: a
      pin with a callback is polled, its memory updated and its callback run
      if the poll fires. */
  method VisitPin(ghost seen: set<Pin>, pin: Pin, callbacks: map<Pin, Handler>, debounceMs: map<Pin, int>,
                  ghost last0: map<Pin, bool>, ghost pending0: map<Pin, int>,
                  now: int, line: Pin -> bool, recheck: Pin -> bool, raising: set<Pin>,
                  last: map<Pin, bool>, pending: map<Pin, int>, fired: seq<Pin>, failed: seq<Pin>)
    returns (last': map<Pin, bool>, pending': map<Pin, int>, fired': seq<Pin>, failed': seq<Pin>)
    requires pin !in seen
    requires PassState(seen, callbacks, debounceMs, last0, pending0, now, line, recheck, raising,
                       last, pending, fired, failed)
    ensures PassState(seen + {pin}, callbacks, debounceMs, last0, pending0, now, line, recheck, raising,
                      last', pending', fired', failed')
    ensures fired' == fired + (if Fires(callbacks, debounceMs, last0, pending0, now, line, recheck, pin) then [pin] else [])
    ensures failed' == failed + (if Fires(callbacks, debounceMs, last0, pending0, now, line, recheck, pin) && pin in raising
                                 then [pin] else [])
  {
    last', pending', fired', failed' := last, pending, fired, failed;
    if pin in callbacks {
      var state := PinState(if pin in last then last[pin] else false,
                            if pin in pending then Some(pending[pin]) else None);
      var debounce := if pin in debounceMs then debounceMs[pin] else 0;
      var poll := DebounceStep(state, line(pin), recheck(pin), now, debounce);
      assert poll == PollWith(last0, pending0, debounceMs, pin, now, line, recheck) by {
        assert Kept(last, pending, last0, pending0, pin);
      }
      last', pending' := Remember(last, pending, pin, poll);
      forall p | p != pin
        ensures !(p in seen && p in callbacks) ==> Kept(last', pending', last0, pending0, p)
        ensures p in seen && p in callbacks ==>
          Polled(last', pending', p, PollWith(last0, pending0, debounceMs, p, now, line, recheck))
      {
        assert Kept(last', pending', last, pending, p);
      }
      if poll.fired {
        fired' := fired + [pin];
        if pin in raising {
          failed' := failed + [pin];
        }
      }
    }
  }

  /** Where the monitor's loop over `pins` stands after its first `i` pins:
      `seen` holds them, the pass state is `PassState` for them, and the
      fired and raising pins are those of `pins[..i]`, in order. */
  ghost predicate Visited(pins: seq<Pin>, i: nat, seen: set<Pin>, callbacks: map<Pin, Handler>, debounceMs: map<Pin, int>,
                          last0: map<Pin, bool>, pending0: map<Pin, int>,
                          now: int, line: Pin -> bool, recheck: Pin -> bool, raising: set<Pin>,
                          last: map<Pin, bool>, pending: map<Pin, int>, fired: seq<Pin>, failed: seq<Pin>)
  {
    && i <= |pins|
    && seen == (set k | 0 <= k < i :: pins[k])
    && PassState(seen, callbacks, debounceMs, last0, pending0, now, line, recheck, raising,
                 last, pending, fired, failed)
    && fired == FiredOf(pins[..i], callbacks, debounceMs, last0, pending0, now, line, recheck)
    && failed == Raised(fired, raising)
  }

  /** One round of the monitor's loop: visiting pin `i` extends `Visited` by it. */
  method VisitAt(pins: seq<Pin>, i: nat, ghost seen: set<Pin>, callbacks: map<Pin, Handler>, debounceMs: map<Pin, int>,
                 ghost last0: map<Pin, bool>, ghost pending0: map<Pin, int>,
                 now: int, line: Pin -> bool, recheck: Pin -> bool, raising: set<Pin>,
                 last: map<Pin, bool>, pending: map<Pin, int>, fired: seq<Pin>, failed: seq<Pin>)
    returns (last': map<Pin, bool>, pending': map<Pin, int>, fired': seq<Pin>, failed': seq<Pin>)
    requires Distinct(pins) && i < |pins|
    requires Visited(pins, i, seen, callbacks, debounceMs, last0, pending0, now, line, recheck, raising,
                     last, pending, fired, failed)
    ensures Visited(pins, i + 1, seen + {pins[i]}, callbacks, debounceMs, last0, pending0, now, line, recheck, raising,
                    last', pending', fired', failed')
  {
    assert pins[i] !in seen;
    last', pending', fired', failed' :=
      VisitPin(seen, pins[i], callbacks, debounceMs, last0, pending0, now, line, recheck, raising,
               last, pending, fired, failed);
    VisitedInOrder(pins, i, callbacks, debounceMs, last0, pending0, now, line, recheck, raising,
                   fired, failed, fired', failed');
    assert seen + {pins[i]} == set k | 0 <= k < i + 1 :: pins[k];
  }

  /** The monitor's loop over the input pins `pins`, polling those with a
      callback, from the memory `last0`/`pending0`: the new memory, the pins
      whose callback ran and those whose callback raised, in the order of `pins`. */
  method PollPins(pins: seq<Pin>, callbacks: map<Pin, Handler>, debounceMs: map<Pin, int>,
                  last0: map<Pin, bool>, pending0: map<Pin, int>,
                  now: int, line: Pin -> bool, recheck: Pin -> bool, raising: set<Pin>)
    returns (last: map<Pin, bool>, pending: map<Pin, int>, fired: seq<Pin>, failed: seq<Pin>)
    requires Distinct(pins)
    requires forall p :: p in pending0 ==> p in last0 && last0[p]
    ensures forall p :: p in pending ==> p in last && last[p]
    ensures forall p :: p in fired <==> p in pins && p in callbacks
                                        && PollWith(last0, pending0, debounceMs, p, now, line, recheck).fired
    ensures forall p :: p in failed <==> p in fired && p in raising
    ensures forall p :: p in pins && p in callbacks ==>
      Polled(last, pending, p, PollWith(last0, pending0, debounceMs, p, now, line, recheck))
    ensures forall p :: !(p in pins && p in callbacks) ==> Kept(last, pending, last0, pending0, p)
    ensures fired == FiredOf(pins, callbacks, debounceMs, last0, pending0, now, line, recheck)
    ensures failed == Raised(fired, raising)
  {
    last, pending := last0, pending0;
    ghost var seen: set<Pin> := {};
    fired, failed := [], [];
    for i := 0 to |pins|
      invariant Visited(pins, i, seen, callbacks, debounceMs, last0, pending0, now, line, recheck, raising,
                        last, pending, fired, failed)
    {
      last, pending, fired, failed :=
        VisitAt(pins, i, seen, callbacks, debounceMs, last0, pending0, now, line, recheck, raising,
                last, pending, fired, failed);
      seen := seen + {pins[i]};
    }
    VisitedAll(pins, seen, callbacks, debounceMs, last0, pending0, now, line, recheck, raising,
               last, pending, fired, failed);
  }

  /** Once every pin is visited, the pass state covers all of `pins`. */
  lemma VisitedAll(pins: seq<Pin>, seen: set<Pin>, callbacks: map<Pin, Handler>, debounceMs: map<Pin, int>,
                   last0: map<Pin, bool>, pending0: map<Pin, int>,
                   now: int, line: Pin -> bool, recheck: Pin -> bool, raising: set<Pin>,
                   last: map<Pin, bool>, pending: map<Pin, int>, fired: seq<Pin>, failed: seq<Pin>)
    requires Visited(pins, |pins|, seen, callbacks, debounceMs, last0, pending0, now, line, recheck, raising,
                     last, pending, fired, failed)
    ensures PassState((set p | p in pins), callbacks, debounceMs, last0, pending0, now, line, recheck, raising,
                      last, pending, fired, failed)
    ensures fired == FiredOf(pins, callbacks, debounceMs, last0, pending0, now, line, recheck)
    ensures failed == Raised(fired, raising)
  {
    assert pins[..|pins|] == pins;
    assert seen == (set p | p in pins);
  }

  /** No pin occurs twice in `pins`. */
  ghost predicate Distinct(pins: seq<Pin>)
  {
    forall i, j :: 0 <= i < j < |pins| ==> pins[i] != pins[j]
  }

  /** Appending a pin not yet in a list without repeats keeps it without repeats. */
  lemma DistinctAppend(pins: seq<Pin>, pin: Pin)
    requires Distinct(pins) && pin !in pins
    ensures Distinct(pins + [pin])
  {
  }

  /** The GPIO controller. */
  class GpioController {
    /** Configured input pins, in the order they were set up. */
    var inputPins: seq<Pin>
    /** Configured output pins and the level last set on each. */
    var outputPins: map<Pin, bool>
    /** The output pins in the order they were set up. */
    var outputOrder: seq<Pin>
    var callbacks: map<Pin, Handler>
    var debounceMs: map<Pin, int>
    /** Whether the monitor thread runs. */
    var monitorRunning: bool
    /** The monitor thread's memory of each pin (last level, pending trigger time). */
    var lastStates: map<Pin, bool>
    var pendingTriggers: map<Pin, int>
    /** Every level written to an output line, in order. */
    var writes: seq<Write>
    /** Pins that a running pulse timer will drive low. */
    var pendingLows: multiset<Pin>

    ghost predicate Valid()
      reads this
    {
      InputsValid() && OutputsValid() && MemoryValid()
    }

    /** Each input pin is configured once, and only input pins are watched,
        by a running monitor. */
    ghost predicate InputsValid()
      reads this`inputPins, this`callbacks, this`monitorRunning
    {
      && Distinct(inputPins)
      && (forall p :: p in callbacks ==> p in inputPins)
      && (callbacks != map[] ==> monitorRunning)
    }

    /** Each output pin is configured once, and its recorded level is the
        last one written to its line. */
    ghost predicate OutputsValid()
      reads this`outputPins, this`outputOrder, this`writes
    {
      && Distinct(outputOrder)
      && (forall p :: p in outputPins <==> p in outputOrder)
      && (forall p :: p in outputPins ==> LastWrite(writes, p) == Some(outputPins[p]))
    }

    /** The monitor only keeps a pending trigger for a pin it saw high. */
    ghost predicate MemoryValid()
      reads this`lastStates, this`pendingTriggers
    {
      forall p :: p in pendingTriggers ==> p in lastStates && lastStates[p]
    }

    constructor ()
      ensures Valid()
      ensures inputPins == [] && outputPins == map[] && outputOrder == [] && callbacks == map[] && debounceMs == map[]
      ensures !monitorRunning && lastStates == map[] && pendingTriggers == map[]
      ensures writes == [] && pendingLows == multiset{}
    {
      inputPins, outputPins, callbacks, debounceMs := [], map[], map[], map[];
      outputOrder := [];
      monitorRunning := false;
      lastStates, pendingTriggers := map[], map[];
      writes, pendingLows := [], multiset{};
    }

    /** Configure `pin` as an input with a debounce time; with a callback the
        pin is watched, starting the monitor thread (with a fresh memory) if
        it is not running. A pin already configured is left as it is. */
    method SetupInput(pin: Pin, callback: Option<Handler>, debounce: int)
      requires Valid()
      modifies this`inputPins, this`debounceMs, this`callbacks, this`monitorRunning, this`lastStates, this`pendingTriggers
      ensures Valid()
      ensures pin in old(inputPins) ==> unchanged(this)
      ensures pin !in old(inputPins) ==>
        inputPins == old(inputPins) + [pin] && debounceMs == old(debounceMs)[pin := debounce]
        && callbacks == (if callback.Some? then old(callbacks)[pin := callback.value] else old(callbacks))
        && monitorRunning == (old(monitorRunning) || callback.Some?)
      ensures pin !in old(inputPins) && callback.Some? && !old(monitorRunning) ==>
        lastStates == map[] && pendingTriggers == map[]
      ensures !(pin !in old(inputPins) && callback.Some? && !old(monitorRunning)) ==>
        lastStates == old(lastStates) && pendingTriggers == old(pendingTriggers)
    {
      if pin in inputPins {
        return;
      }
      AddInput(pin, callback, debounce);
    }

    /** Configure `pin`, not yet an input, as one. */
    method AddInput(pin: Pin, callback: Option<Handler>, debounce: int)
      requires Valid() && pin !in inputPins
      modifies this`inputPins, this`debounceMs, this`callbacks, this`monitorRunning, this`lastStates, this`pendingTriggers
      ensures Valid()
      ensures inputPins == old(inputPins) + [pin] && debounceMs == old(debounceMs)[pin := debounce]
      ensures callbacks == (if callback.Some? then old(callbacks)[pin := callback.value] else old(callbacks))
      ensures monitorRunning == (old(monitorRunning) || callback.Some?)
      ensures callback.Some? && !old(monitorRunning) ==> lastStates == map[] && pendingTriggers == map[]
      ensures !(callback.Some? && !old(monitorRunning)) ==>
        lastStates == old(lastStates) && pendingTriggers == old(pendingTriggers)
    {
      DistinctAppend(inputPins, pin);
      inputPins := inputPins + [pin];
      debounceMs := debounceMs[pin := debounce];
      if callback.Some? {
        callbacks := callbacks[pin := callback.value];
        if !monitorRunning {
          monitorRunning := true;
          lastStates, pendingTriggers := map[], map[];
        }
      }
    }

    /** Configure `pin` as an output driven at `initial`, unless it already is one. */
    method SetupOutput(pin: Pin, initial: bool)
      requires Valid()
      modifies this`outputPins, this`outputOrder, this`writes
      ensures Valid()
      ensures pin in old(outputPins) ==>
        outputPins == old(outputPins) && outputOrder == old(outputOrder) && writes == old(writes)
      ensures pin !in old(outputPins) ==>
        outputPins == old(outputPins)[pin := initial] && outputOrder == old(outputOrder) + [pin]
        && writes == old(writes) + [Write(pin, initial)]
    {
      if pin in outputPins {
        return;
      }
      writes := writes + [Write(pin, initial)];
      outputPins := outputPins[pin := initial];
      DistinctAppend(outputOrder, pin);
      outputOrder := outputOrder + [pin];
      LastWriteAppend(old(writes), Write(pin, initial));
    }

    /** Drive an output pin high; a positive `duration` (seconds) starts a
        timer that drives it low again. Pins not configured as outputs are
        ignored. */
    method OutputHigh(pin: Pin, duration: Option<real>)
      requires Valid()
      modifies this`outputPins, this`writes, this`pendingLows
      ensures Valid()
      ensures pin !in old(outputPins) ==> unchanged(this)
      ensures pin in old(outputPins) ==>
        outputPins == old(outputPins)[pin := true] && writes == old(writes) + [Write(pin, true)]
        && pendingLows == old(pendingLows) + (if duration.Some? && duration.value > 0.0 then multiset{pin} else multiset{})
    {
      if pin !in outputPins {
        return;
      }
      writes := writes + [Write(pin, true)];
      outputPins := outputPins[pin := true];
      LastWriteAppend(old(writes), Write(pin, true));
      if duration.Some? && duration.value > 0.0 {
        pendingLows := pendingLows + multiset{pin};
      }
    }

    /** Drive an output pin low; pins not configured as outputs are ignored. */
    method OutputLow(pin: Pin)
      requires Valid()
      modifies this`outputPins, this`writes
      ensures Valid()
      ensures pin !in old(outputPins) ==> outputPins == old(outputPins) && writes == old(writes)
      ensures pin in old(outputPins) ==>
        outputPins == old(outputPins)[pin := false] && writes == old(writes) + [Write(pin, false)]
    {
      if pin !in outputPins {
        return;
      }
      writes := writes + [Write(pin, false)];
      outputPins := outputPins[pin := false];
      LastWriteAppend(old(writes), Write(pin, false));
    }

    /** A pulse: the pin goes high now and a timer will drive it low after `duration` seconds. */
    method OutputPulse(pin: Pin, duration: real)
      requires Valid()
      modifies this`outputPins, this`writes, this`pendingLows
      ensures Valid()
      ensures pin !in old(outputPins) ==> unchanged(this)
      ensures pin in old(outputPins) ==>
        outputPins == old(outputPins)[pin := true] && writes == old(writes) + [Write(pin, true)]
        && pendingLows == old(pendingLows) + (if duration > 0.0 then multiset{pin} else multiset{})
    {
      OutputHigh(pin, Some(duration));
    }

    /** A pulse timer running out drives its pin low, if the pin is still an output. */
    method TimerElapsed(pin: Pin)
      requires Valid() && pin in pendingLows
      modifies this`outputPins, this`writes, this`pendingLows
      ensures Valid()
      ensures pendingLows == old(pendingLows) - multiset{pin}
      ensures pin !in old(outputPins) ==> outputPins == old(outputPins) && writes == old(writes)
      ensures pin in old(outputPins) ==>
        outputPins == old(outputPins)[pin := false] && writes == old(writes) + [Write(pin, false)]
    {
      pendingLows := pendingLows - multiset{pin};
      OutputLow(pin);
    }

    /** The level of an input pin as the hardware reports it (`line`); false
        for a pin not configured as an input. */
    function ReadInput(pin: Pin, line: bool): (high: bool)
      reads this
      ensures high <==> pin in inputPins && line
    {
      if pin in inputPins then line else false
    }

    /** What the monitor's next poll does with `pin`, from its memory of the pin. */
    ghost function PollOf(pin: Pin, now: int, line: Pin -> bool, recheck: Pin -> bool): Poll
      reads this
    {
      PollWith(lastStates, pendingTriggers, debounceMs, pin, now, line, recheck)
    }

    /** One pass of the monitor thread at time `now`: every watched input pin
        is polled in turn. `fired` are the pins whose callback ran, `failed`
        those whose callback raised (the pass goes on regardless). */
    method MonitorPass(now: int, line: Pin -> bool, recheck: Pin -> bool, raising: set<Pin>)
      returns (fired: seq<Pin>, failed: seq<Pin>)
      requires Valid()
      modifies this`lastStates, this`pendingTriggers
      ensures Valid()
      ensures forall p :: p in fired <==> p in inputPins && p in callbacks && old(PollOf(p, now, line, recheck)).fired
      ensures forall p :: p in failed <==> p in fired && p in raising
      ensures forall p :: p in inputPins && p in callbacks ==>
        Polled(lastStates, pendingTriggers, p, old(PollOf(p, now, line, recheck)))
      ensures forall p :: !(p in inputPins && p in callbacks) ==>
        Kept(lastStates, pendingTriggers, old(lastStates), old(pendingTriggers), p)
      ensures fired == FiredOf(inputPins, callbacks, debounceMs, old(lastStates), old(pendingTriggers), now, line, recheck)
      ensures failed == Raised(fired, raising)
    {
      var last, pending;
      last, pending, fired, failed :=
        PollPins(inputPins, callbacks, debounceMs, lastStates, pendingTriggers, now, line, recheck, raising);
      lastStates, pendingTriggers := last, pending;
    }

    /** Shut down: stop the monitor, drive every output low, release the
        pins and forget the inputs, outputs and callbacks (debounce times are
        kept). Timers still running find their pins gone. */
    method Cleanup()
      requires Valid()
      modifies this`monitorRunning, this`lastStates, this`pendingTriggers, this`writes
      modifies this`inputPins, this`outputPins, this`outputOrder, this`callbacks
      ensures Valid()
      ensures !monitorRunning && inputPins == [] && callbacks == map[]
      ensures outputPins == map[] && outputOrder == []
      ensures lastStates == map[] && pendingTriggers == map[]
      ensures debounceMs == old(debounceMs) && pendingLows == old(pendingLows)
      ensures writes == old(writes) + LowWrites(old(outputOrder))
      ensures forall p :: p in old(outputPins) ==> LastWrite(writes, p) == Some(false)
    {
      var log := DriveLow(writes, outputOrder);
      LowWritesLeaveLow(writes, outputOrder, outputPins);
      monitorRunning := false;
      lastStates, pendingTriggers := map[], map[];
      writes := log;
      inputPins, outputPins, outputOrder, callbacks := [], map[], [], map[];
    }
  }

  /** Driving each pin of `pins` low, in order. */
  function LowWrites(pins: seq<Pin>): (w: seq<Write>)
    ensures |w| == |pins|
    ensures forall k :: 0 <= k < |pins| ==> w[k] == Write(pins[k], false)
  {
    seq(|pins|, k requires 0 <= k < |pins| => Write(pins[k], false))
  }

  /** After a run of writes that are all low, a pin written in that run was last written low. */
  lemma {:induction false} LastWriteOfLows(writes: seq<Write>, lows: seq<Write>, pin: Pin)
    requires forall k :: 0 <= k < |lows| ==> !lows[k].high
    requires Write(pin, false) in lows
    ensures LastWrite(writes + lows, pin) == Some(false)
    decreases |lows|
  {
    var all := writes + lows;
    var init := lows[..|lows| - 1];
    assert all[..|all| - 1] == writes + init;
    if lows[|lows| - 1].pin != pin {
      assert Write(pin, false) in init;
      LastWriteOfLows(writes, init, pin);
    }
  }

  /** The write log after driving each pin of `pins` low, in order. */
  method DriveLow(writes: seq<Write>, pins: seq<Pin>) returns (log: seq<Write>)
    ensures log == writes + LowWrites(pins)
  {
    log := writes;
    for i := 0 to |pins|
      invariant log == writes + LowWrites(pins[..i])
    {
      LowWritesStep(pins, i);
      log := log + [Write(pins[i], false)];
    }
    assert pins[..|pins|] == pins;
  }

  /** Driving one more pin low extends the run of low writes by that pin. */
  lemma LowWritesStep(pins: seq<Pin>, i: nat)
    requires i < |pins|
    ensures LowWrites(pins[..i + 1]) == LowWrites(pins[..i]) + [Write(pins[i], false)]
  {
  }

  /** After every pin of `pins` is driven low, each was last written low. */
  lemma LowWritesLeaveLow<V>(writes: seq<Write>, pins: seq<Pin>, outputs: map<Pin, V>)
    requires forall p :: p in outputs ==> p in pins
    ensures forall p :: p in outputs ==> LastWrite(writes + LowWrites(pins), p) == Some(false)
  {
    forall p | p in outputs
      ensures LastWrite(writes + LowWrites(pins), p) == Some(false)
    {
      var k :| 0 <= k < |pins| && pins[k] == p;
      assert LowWrites(pins)[k] == Write(p, false);
      LastWriteOfLows(writes, LowWrites(pins), p);
    }
  }

  /** Appending a write changes only the last level of its own pin. */
  lemma LastWriteAppend(writes: seq<Write>, w: Write)
    ensures LastWrite(writes + [w], w.pin) == Some(w.high)
    ensures forall p :: p != w.pin ==> LastWrite(writes + [w], p) == LastWrite(writes, p)
  {
    assert (writes + [w])[..|writes|] == writes;
  }
}
