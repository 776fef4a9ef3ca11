/**
 * The motion sequencer driven by the GPIO buttons: starting and stopping
 * the endless test cycle, the cycle worker itself, the three-fold grasp
 * routine and the handling of glove frames.
 *
 * What the sequencer does is recorded in an event log. The hand controller,
 * the GPIO lines and the other threads are not part of this module: whether
 * a move succeeds, whether an alarm is raised and whether the stop flag is
 * found set at a given check are answers supplied by an `Observer`, indexed
 * by the step at which they are asked.
 */
module Motion {
  import opened Base
  import Glove

  /** Number of passes the cycle worker makes at most. */
  const CycleCount: nat := 10000

  /** Steps in one pass of the cycle, and in one round of the grasp. */
  const Steps: nat := 4

  /** The positions of one pass of the cycle, in order. */
  const CyclePositions: seq<seq<int>> := [
    [10000, 10000, 0, 0, 0, 0],
    [0, 0, 0, 0, 0, 0],
    [0, 0, 10000, 10000, 10000, 10000],
    [0, 0, 0, 0, 0, 0]]

  /** The positions of one round of the grasp, in order. */
  const GraspPositions: seq<seq<int>> := [
    [5000, 0, 0, 0, 0, 0],
    [5000, 0, 10000, 10000, 10000, 10000],
    [5000, 10000, 10000, 10000, 10000, 10000],
    [5000, 0, 10000, 10000, 10000, 10000]]

  /** How many times the grasp repeats its positions. */
  const GraspRounds: nat := 3

  /** Device-name prefix of the glove frames that drive the hand. */
  const TeleopPrefix: string := "teleop_"

  /** What the status outputs show: running (the running line high, the
      ready line low), ready (the other way round), or an alarm. */
  datatype Indicator = Running | Ready | AlarmShown

  /** What the sequencer does, in order. A move is numbered by its pass of
      the cycle (or round of the grasp) and its index in the positions. */
  datatype Event =
    | Move(round: nat, index: nat, positions: seq<int>)   // a move to `positions`
    | Pulse(pass: nat)                                    // a cycle-complete pulse after pass `pass`
    | Indicate(status: Indicator)                         // the status outputs changed
    | StopMotors                                          // all motors stopped
    | MoveZero                                            // a move to the zero position
    | StopListening                                       // the glove receiver stopped
    | MoveAngles(angles: seq<real>)                       // a move to the angles of a glove frame

  /** The answers the cycle worker gets: the passes at whose opening check
      the stop flag is found set, the steps (pass, index) before which it is
      found set, before which an alarm is raised, whose move fails, and after
      whose successful move the flag is found set. */
  datatype Observer = Observer(
    stopAtPass: set<nat>,
    stopBefore: set<(nat, nat)>,
    alarm: set<(nat, nat)>,
    moveFails: set<(nat, nat)>,
    stopAfter: set<(nat, nat)>)

  /** The events of the rest of pass `pass` of the cycle from its step `i`
      on. A stop or an alarm before a step ends the worker without that
      step's move; a failed move goes on to the next step, with neither the
      pulse nor the stop check after it; the pulse follows a successful move
      of the last position, and a stop found after a successful move ends the
      worker. */
  function PassEvents(w: Observer, pass: nat, i: nat): seq<Event>
    requires i <= Steps
    decreases Steps - i
  {
    if i == Steps || (pass, i) in w.stopBefore then []
    else if (pass, i) in w.alarm then [Indicate(AlarmShown)]
    else if (pass, i) in w.moveFails then [Move(pass, i, CyclePositions[i])] + PassEvents(w, pass, i + 1)
    else
      var done := [Move(pass, i, CyclePositions[i])] + (if i == Steps - 1 then [Pulse(pass)] else []);
      if (pass, i) in w.stopAfter then done else done + PassEvents(w, pass, i + 1)
  }

  /** Whether the worker ends during the rest of pass `pass` from step `i` on. */
  predicate PassEnds(w: Observer, pass: nat, i: nat)
    requires i <= Steps
    decreases Steps - i
  {
    if i == Steps then false
    else if (pass, i) in w.stopBefore || (pass, i) in w.alarm then true
    else if (pass, i) !in w.moveFails && (pass, i) in w.stopAfter then true
    else PassEnds(w, pass, i + 1)
  }

  /** The events of the cycle worker from pass `pass` on, before its final
      status change: passes run while the stop flag is clear at their start
      and fewer than `CycleCount` have run, until one ends the worker. */
  function WorkerLog(w: Observer, pass: nat): seq<Event>
    decreases CycleCount - pass
  {
    if pass in w.stopAtPass || pass >= CycleCount then []
    else
      if PassEnds(w, pass, 0) then PassEvents(w, pass, 0)
      else PassEvents(w, pass, 0) + WorkerLog(w, pass + 1)
  }

  /** Every move in `log` was preceded by a clear stop flag and no alarm at
      its step, and goes to that step's position of the cycle. */
  ghost predicate MovesChecked(w: Observer, log: seq<Event>)
  {
    forall e :: e in log && e.Move? ==>
      e.index < Steps && (e.round, e.index) !in w.stopBefore && (e.round, e.index) !in w.alarm
      && e.positions == CyclePositions[e.index]
  }

  /** Every pulse in `log` follows a successful move to the last position of
      its pass, which is itself in `log`. */
  ghost predicate PulsesEarned(w: Observer, log: seq<Event>)
  {
    forall e :: e in log && e.Pulse? ==>
      (e.pass, Steps - 1) !in w.moveFails && Move(e.pass, Steps - 1, CyclePositions[Steps - 1]) in log
  }

  /** Both rules hold of a log made of two logs that obey them. */
  lemma CheckedJoin(w: Observer, a: seq<Event>, b: seq<Event>)
    requires MovesChecked(w, a) && PulsesEarned(w, a)
    requires MovesChecked(w, b) && PulsesEarned(w, b)
    ensures MovesChecked(w, a + b) && PulsesEarned(w, a + b)
  {
    forall e | e in a + b && e.Pulse?
      ensures Move(e.pass, Steps - 1, CyclePositions[Steps - 1]) in a + b
    {
      if e in a {
        assert Move(e.pass, Steps - 1, CyclePositions[Steps - 1]) in a;
      } else {
        assert Move(e.pass, Steps - 1, CyclePositions[Steps - 1]) in b;
      }
    }
  }

  /** What the rest of a pass records obeys both rules. */
  lemma {:induction false} PassChecked(w: Observer, pass: nat, i: nat)
    requires i <= Steps
    ensures MovesChecked(w, PassEvents(w, pass, i)) && PulsesEarned(w, PassEvents(w, pass, i))
    decreases Steps - i
  {
    if i < Steps && (pass, i) !in w.stopBefore && (pass, i) !in w.alarm {
      var move := Move(pass, i, CyclePositions[i]);
      var rest := PassEvents(w, pass, i + 1);
      if (pass, i) in w.moveFails {
        PassChecked(w, pass, i + 1);
        CheckedJoin(w, [move], rest);
      } else {
        var done := [move] + (if i == Steps - 1 then [Pulse(pass)] else []);
        assert MovesChecked(w, done) && PulsesEarned(w, done) by {
          forall e | e in done
            ensures e == move || (i == Steps - 1 && e == Pulse(pass))
          {
          }
        }
        if (pass, i) !in w.stopAfter {
          PassChecked(w, pass, i + 1);
          CheckedJoin(w, done, rest);
        }
      }
    }
  }

  /** The whole worker's log obeys both rules: no move without a clear stop
      flag and no alarm just before it, no pulse without a successful move to
      the last position. */
  lemma {:induction false} WorkerChecked(w: Observer, pass: nat)
    ensures MovesChecked(w, WorkerLog(w, pass)) && PulsesEarned(w, WorkerLog(w, pass))
    decreases CycleCount - pass
  {
    if !(pass in w.stopAtPass || pass >= CycleCount) {
      PassChecked(w, pass, 0);
      if !PassEnds(w, pass, 0) {
        WorkerChecked(w, pass + 1);
      }
    }
  }

  /** Number of pulses in a log. */
  function PulseCount(log: seq<Event>): nat
  {
    if log == [] then 0
    else (if log[0].Pulse? then 1 else 0) + PulseCount(log[1..])
  }

  /** Pulses of a joined log add up. */
  lemma {:induction false} PulseCountJoin(a: seq<Event>, b: seq<Event>)
    ensures PulseCount(a + b) == PulseCount(a) + PulseCount(b)
    decreases |a|
  {
    if a == [] {
      assert a + b == b;
    } else {
      assert (a + b)[0] == a[0];
      assert (a + b)[1..] == a[1..] + b;
      PulseCountJoin(a[1..], b);
    }
  }

  /** Step `i` of pass `pass` goes through undisturbed: no stop flag around
      it, no alarm before it, and its move succeeds. */
  predicate StepClear(w: Observer, pass: nat, i: nat)
  {
    (pass, i) !in w.stopBefore && (pass, i) !in w.alarm && (pass, i) !in w.moveFails && (pass, i) !in w.stopAfter
  }

  /** A pass emits at most one pulse, and exactly one when it runs to its end
      with every step clear. */
  lemma {:induction false} PassPulses(w: Observer, pass: nat, i: nat)
    requires i <= Steps
    ensures PulseCount(PassEvents(w, pass, i)) <= 1
    ensures i < Steps && (forall j :: i <= j < Steps ==> StepClear(w, pass, j)) ==>
            PulseCount(PassEvents(w, pass, i)) == 1 && !PassEnds(w, pass, i)
    decreases Steps - i
  {
    if i < Steps && (pass, i) !in w.stopBefore && (pass, i) !in w.alarm {
      var move := [Move(pass, i, CyclePositions[i])];
      var pulse := if i == Steps - 1 then [Pulse(pass)] else [];
      var rest := PassEvents(w, pass, i + 1);
      PassPulses(w, pass, i + 1);
      assert PulseCount(move) == 0 by {
        assert move[1..] == [];
      }
      assert PulseCount(pulse) == (if i == Steps - 1 then 1 else 0) by {
        if i == Steps - 1 {
          assert pulse[1..] == [];
        }
      }
      if (pass, i) in w.moveFails {
        PulseCountJoin(move, rest);
        assert !StepClear(w, pass, i);
      } else {
        PulseCountJoin(move, pulse);
        if (pass, i) !in w.stopAfter {
          assert PassEvents(w, pass, i) == (move + pulse) + rest;
          PulseCountJoin(move + pulse, rest);
          if i == Steps - 1 {
            assert rest == [];
          }
        } else {
          assert !StepClear(w, pass, i);
        }
      }
    } else if i < Steps {
      assert !StepClear(w, pass, i);
    }
  }

  /** The worker emits at most one pulse per pass, so never more than
      `CycleCount`. */
  lemma {:induction false} WorkerPulses(w: Observer, pass: nat)
    requires pass <= CycleCount
    ensures PulseCount(WorkerLog(w, pass)) <= CycleCount - pass
    decreases CycleCount - pass
  {
    var log := WorkerLog(w, pass);
    if pass in w.stopAtPass || pass >= CycleCount {
      assert log == [];
    } else {
      var first := PassEvents(w, pass, 0);
      PassPulses(w, pass, 0);
      if PassEnds(w, pass, 0) {
        assert log == first;
      } else {
        var rest := WorkerLog(w, pass + 1);
        assert log == first + rest;
        WorkerPulses(w, pass + 1);
        PulseCountJoin(first, rest);
      }
    }
  }

  /** Every move and pulse of a pass carries that pass's number. */
  lemma {:induction false} PassRounds(w: Observer, pass: nat, i: nat)
    requires i <= Steps
    ensures forall e :: e in PassEvents(w, pass, i) ==>
      (e.Move? ==> e.round == pass) && (e.Pulse? ==> e.pass == pass)
    decreases Steps - i
  {
    if i < Steps && (pass, i) !in w.stopBefore && (pass, i) !in w.alarm {
      PassRounds(w, pass, i + 1);
    }
  }

  /** The worker runs only passes below `CycleCount` whose opening stop check
      was clear: every move and pulse from pass `pass` on belongs to such a
      pass, whether or not its moves succeed. */
  lemma {:induction false} WorkerRounds(w: Observer, pass: nat)
    ensures forall e :: e in WorkerLog(w, pass) && e.Move? ==>
      pass <= e.round < CycleCount && e.round !in w.stopAtPass
    ensures forall e :: e in WorkerLog(w, pass) && e.Pulse? ==>
      pass <= e.pass < CycleCount && e.pass !in w.stopAtPass
    decreases CycleCount - pass
  {
    var log := WorkerLog(w, pass);
    if pass in w.stopAtPass || pass >= CycleCount {
      assert log == [];
    } else {
      var first := PassEvents(w, pass, 0);
      PassRounds(w, pass, 0);
      if PassEnds(w, pass, 0) {
        assert log == first;
      } else {
        var rest := WorkerLog(w, pass + 1);
        assert log == first + rest;
        WorkerRounds(w, pass + 1);
        assert forall e :: e in log ==> e in first || e in rest;
      }
    }
  }

  /** The observer of an undisturbed run: the stop flag is never found set,
      no alarm is raised and every move succeeds. */
  const Undisturbed: Observer := Observer({}, {}, {}, {}, {})

  /** Undisturbed, the worker emits exactly one pulse per remaining pass. */
  lemma {:induction false} UndisturbedPulses(pass: nat)
    requires pass <= CycleCount
    ensures PulseCount(WorkerLog(Undisturbed, pass)) == CycleCount - pass
    decreases CycleCount - pass
  {
    var w := Undisturbed;
    var log := WorkerLog(w, pass);
    if pass == CycleCount {
      assert log == [];
    } else {
      var first := PassEvents(w, pass, 0);
      assert forall j: nat :: StepClear(w, pass, j);
      PassPulses(w, pass, 0);
      var rest := WorkerLog(w, pass + 1);
      assert log == first + rest;
      UndisturbedPulses(pass + 1);
      PulseCountJoin(first, rest);
    }
  }

  /** The grasp from step `i` of round `r` on, given whether the stop flag
      is found set before each step: a set flag ends the grasp at once,
      without the move to zero; after the last round the hand moves to zero. */
  function GraspLog(stop: set<(nat, nat)>, r: nat, i: nat): seq<Event>
    requires r <= GraspRounds && i <= Steps
    decreases GraspRounds - r, Steps - i
  {
    if r == GraspRounds then [MoveZero]
    else if i == Steps then GraspLog(stop, r + 1, 0)
    else if (r, i) in stop then []
    else [Move(r, i, GraspPositions[i])] + GraspLog(stop, r, i + 1)
  }

  /** A grasp that finds the flag set at step (`r`, `i`) after the moves
      `made` was stopped: it never moves to zero. */
  lemma GraspStopped(stop: set<(nat, nat)>, r: nat, i: nat, made: seq<Event>)
    requires r < GraspRounds && i < Steps && (r, i) in stop
    requires GraspLog(stop, 0, 0) == made + GraspLog(stop, r, i)
    ensures MoveZero !in GraspLog(stop, 0, 0) && !ClearFrom(stop, 0, 0)
  {
    assert NotBefore(0, 0, r, i);
    GraspZero(stop, 0, 0);
  }

  /** A grasp that ends with the move to zero found the flag clear throughout. */
  lemma GraspFinished(stop: set<(nat, nat)>, made: seq<Event>)
    requires GraspLog(stop, 0, 0) == made + [MoveZero]
    ensures MoveZero in GraspLog(stop, 0, 0) && ClearFrom(stop, 0, 0)
  {
    assert GraspLog(stop, 0, 0)[|made|] == MoveZero;
    GraspZero(stop, 0, 0);
  }

  /** The moves of round `r` of the grasp from index `i` on, in order. */
  function GraspRound(r: nat, i: nat): (moves: seq<Event>)
    requires i <= Steps
    ensures |moves| == Steps - i
    ensures forall k :: 0 <= k < |moves| ==> moves[k] == Move(r, i + k, GraspPositions[i + k])
    decreases Steps - i
  {
    if i == Steps then [] else [Move(r, i, GraspPositions[i])] + GraspRound(r, i + 1)
  }

  /** Step (`r2`, `i2`) comes at or after step (`r`, `i`). */
  predicate NotBefore(r: nat, i: nat, r2: nat, i2: nat)
  {
    r < r2 || (r == r2 && i <= i2)
  }

  /** A round in which the flag is never found set makes all its moves in order. */
  lemma {:induction false} GraspRoundClear(stop: set<(nat, nat)>, r: nat, i: nat)
    requires r < GraspRounds && i <= Steps
    requires forall j :: i <= j < Steps ==> (r, j) !in stop
    ensures GraspLog(stop, r, i) == GraspRound(r, i) + GraspLog(stop, r + 1, 0)
    decreases Steps - i
  {
    if i < Steps {
      GraspRoundClear(stop, r, i + 1);
    }
  }

  /** The rounds of the grasp from round `r` on, each with all its moves. */
  function GraspFrom(r: nat): seq<Event>
    requires r <= GraspRounds
    decreases GraspRounds - r
  {
    if r == GraspRounds then [] else GraspRound(r, 0) + GraspFrom(r + 1)
  }

  /** With the flag never found set, the grasp makes every round's four
      grasp moves in order and then moves to zero. */
  lemma {:induction false} GraspComplete(stop: set<(nat, nat)>, r: nat)
    requires r <= GraspRounds
    requires stop == {}
    ensures GraspLog(stop, r, 0) == GraspFrom(r) + [MoveZero]
    decreases GraspRounds - r
  {
    if r < GraspRounds {
      GraspRoundClear(stop, r, 0);
      GraspComplete(stop, r + 1);
      Regroup(GraspRound(r, 0), GraspFrom(r + 1), [MoveZero], GraspLog(stop, r + 1, 0), GraspFrom(r));
    }
  }

  /** Every grasp move goes to its index's grasp position, at a step not
      before the start where the flag was found clear. */
  lemma {:induction false} GraspChecked(stop: set<(nat, nat)>, r: nat, i: nat)
    requires r <= GraspRounds && i <= Steps
    ensures forall e :: e in GraspLog(stop, r, i) && e.Move? ==>
      e.round < GraspRounds && e.index < Steps && NotBefore(r, i, e.round, e.index)
      && (e.round, e.index) !in stop && e.positions == GraspPositions[e.index]
    decreases GraspRounds - r, Steps - i
  {
    if r < GraspRounds {
      if i == Steps {
        GraspChecked(stop, r + 1, 0);
      } else if (r, i) !in stop {
        GraspChecked(stop, r, i + 1);
      }
    }
  }

  /** The flag is found clear at every grasp step from (`r`, `i`) on. */
  ghost predicate ClearFrom(stop: set<(nat, nat)>, r: nat, i: nat)
  {
    forall r2: nat, i2: nat :: r2 < GraspRounds && i2 < Steps && NotBefore(r, i, r2, i2) ==> (r2, i2) !in stop
  }

  /** The grasp moves to zero exactly when the flag is found clear at every
      remaining step. */
  lemma {:induction false} GraspZero(stop: set<(nat, nat)>, r: nat, i: nat)
    requires r <= GraspRounds && i <= Steps
    ensures MoveZero in GraspLog(stop, r, i) <==> ClearFrom(stop, r, i)
    decreases GraspRounds - r, Steps - i
  {
    if r == GraspRounds {
      assert GraspLog(stop, r, i) == [MoveZero];
    } else if i == Steps {
      GraspZero(stop, r + 1, 0);
      assert ClearFrom(stop, r, i) <==> ClearFrom(stop, r + 1, 0) by {
        assert forall r2: nat, i2: nat :: i2 < Steps ==> (NotBefore(r, i, r2, i2) <==> NotBefore(r + 1, 0, r2, i2));
      }
    } else if (r, i) in stop {
      assert GraspLog(stop, r, i) == [];
      assert NotBefore(r, i, r, i);
    } else {
      GraspZero(stop, r, i + 1);
      assert GraspLog(stop, r, i) == [Move(r, i, GraspPositions[i])] + GraspLog(stop, r, i + 1);
      assert ClearFrom(stop, r, i) <==> ClearFrom(stop, r, i + 1) by {
        assert forall r2: nat, i2: nat :: NotBefore(r, i, r2, i2) <==> (r2 == r && i2 == i) || NotBefore(r, i + 1, r2, i2);
      }
    }
  }

  /** Whether a glove device drives the hand: its name starts with the teleop prefix. */
  predicate IsTeleop(name: string)
  {
    TeleopPrefix <= name
  }

  /** The moves a batch of glove records makes: records of other devices
      are skipped, the first teleop record whose right hand is not
      calibrated ends the batch, and a calibrated one with angles moves the
      hand to its right-hand angles. */
  function GloveMoves(records: seq<Glove.GloveData>): seq<Event>
  {
    if records == [] then []
    else
      var g := records[0];
      if !IsTeleop(g.deviceName) then GloveMoves(records[1..])
      else if !g.rightCalibrated then []
      else (if g.rightAngles != [] then [MoveAngles(g.rightAngles)] else []) + GloveMoves(records[1..])
  }

  /** Every glove move comes from a calibrated teleop record, with its right-hand angles. */
  lemma {:induction false} GloveMovesFrom(records: seq<Glove.GloveData>)
    ensures forall e :: e in GloveMoves(records) ==>
      e.MoveAngles? && e.angles != [] &&
      exists j :: 0 <= j < |records| && IsTeleop(records[j].deviceName) && records[j].rightCalibrated
                  && records[j].rightAngles == e.angles
  {
    if records != [] {
      GloveMovesFrom(records[1..]);
      forall e | e in GloveMoves(records[1..])
        ensures exists j :: 0 <= j < |records| && IsTeleop(records[j].deviceName) && records[j].rightCalibrated
                            && records[j].rightAngles == e.angles
      {
        var j :| 0 <= j < |records[1..]| && IsTeleop(records[1..][j].deviceName) && records[1..][j].rightCalibrated
                 && records[1..][j].rightAngles == e.angles;
        assert records[j + 1] == records[1..][j];
      }
    }
  }

  /** A teleop record with an uncalibrated right hand drops itself and every record after it. */
  lemma {:induction false} GloveStopsAtUncalibrated(before: seq<Glove.GloveData>, g: Glove.GloveData, after: seq<Glove.GloveData>)
    requires IsTeleop(g.deviceName) && !g.rightCalibrated
    ensures GloveMoves(before + [g] + after) == GloveMoves(before)
    decreases |before|
  {
    if before == [] {
      assert before + [g] + after == [g] + after;
    } else {
      assert (before + [g] + after)[1..] == before[1..] + [g] + after;
      GloveStopsAtUncalibrated(before[1..], g, after);
    }
  }

  /** A record of another device changes nothing. */
  lemma {:induction false} GloveSkipsOthers(before: seq<Glove.GloveData>, g: Glove.GloveData, after: seq<Glove.GloveData>)
    requires !IsTeleop(g.deviceName)
    ensures GloveMoves(before + [g] + after) == GloveMoves(before + after)
    decreases |before|
  {
    if before == [] {
      assert before + [g] + after == [g] + after && before + after == after;
      assert ([g] + after)[0] == g && ([g] + after)[1..] == after;
    } else {
      assert (before + [g] + after)[1..] == before[1..] + [g] + after;
      assert (before + after)[1..] == before[1..] + after;
      GloveSkipsOthers(before[1..], g, after);
    }
  }

  /** Step `i` of pass `pass` of the cycle worker: the stop check and the
      alarm check before it, the move, the pulse after the last position and
      the stop check after a successful move. `ended` says whether the worker
      ends at this step. */
  method RunStep(w: Observer, pass: nat, i: nat) returns (step: seq<Event>, ended: bool)
    requires i < Steps
    ensures ended ==> PassEvents(w, pass, i) == step && PassEnds(w, pass, i)
    ensures !ended ==> PassEvents(w, pass, i) == step + PassEvents(w, pass, i + 1)
                       && PassEnds(w, pass, i) == PassEnds(w, pass, i + 1)
  {
    if (pass, i) in w.stopBefore {
      return [], true;
    }
    if (pass, i) in w.alarm {
      return [Indicate(AlarmShown)], true;
    }
    var success := (pass, i) !in w.moveFails;
    step := [Move(pass, i, CyclePositions[i])];
    if !success {
      return step, false;
    }
    if i == Steps - 1 {
      step := step + [Pulse(pass)];
    }
    ended := (pass, i) in w.stopAfter;
  }

  /** One pass of the cycle worker, step by step: the events it records
      and whether it ends the worker. */
  method RunPass(w: Observer, pass: nat) returns (log: seq<Event>, ended: bool)
    ensures log == PassEvents(w, pass, 0)
    ensures ended == PassEnds(w, pass, 0)
  {
    log := [];
    var i := 0;
    while i < Steps
      invariant i <= Steps
      invariant PassEvents(w, pass, 0) == log + PassEvents(w, pass, i)
      invariant PassEnds(w, pass, 0) == PassEnds(w, pass, i)
      decreases Steps - i
    {
      var step, stop := RunStep(w, pass, i);
      if stop {
        return log + step, true;
      }
      Regroup(log, step, PassEvents(w, pass, i + 1), PassEvents(w, pass, i), log + step);
      log := log + step;
      i := i + 1;
    }
    ended := false;
  }

  /** Round `r` of the grasp after the events `made`: its moves, in order,
      and whether the stop flag, found set before some step, ended the grasp. */
  method RunRound(stop: set<(nat, nat)>, r: nat, ghost made: seq<Event>) returns (moves: seq<Event>, stopped: bool)
    requires r < GraspRounds
    requires GraspLog(stop, 0, 0) == made + GraspLog(stop, r, 0)
    ensures stopped ==> GraspLog(stop, 0, 0) == made + moves
    ensures stopped ==> MoveZero !in GraspLog(stop, 0, 0) && !ClearFrom(stop, 0, 0)
    ensures !stopped ==> GraspLog(stop, 0, 0) == made + moves + GraspLog(stop, r + 1, 0)
  {
    moves := [];
    for i := 0 to Steps
      invariant GraspLog(stop, 0, 0) == made + moves + GraspLog(stop, r, i)
    {
      if (r, i) in stop {
        GraspStopped(stop, r, i, made + moves);
        return moves, true;
      }
      var move := Move(r, i, GraspPositions[i]);
      Regroup(made + moves, [move], GraspLog(stop, r, i + 1), GraspLog(stop, r, i), made + moves + [move]);
      moves := moves + [move];
    }
    stopped := false;
  }

  /** The grasp's rounds, in order, and whether the stop flag, found set
      before some step, ended them (in which case there is no move to zero). */
  method RunGrasp(stop: set<(nat, nat)>) returns (log: seq<Event>, stopped: bool)
    ensures log == GraspLog(stop, 0, 0)
    ensures stopped <==> MoveZero !in log
    ensures stopped <==> !ClearFrom(stop, 0, 0)
  {
    log := [];
    for r := 0 to GraspRounds
      invariant GraspLog(stop, 0, 0) == log + GraspLog(stop, r, 0)
    {
      var moves, ended := RunRound(stop, r, log);
      if ended {
        return log + moves, true;
      }
      log := log + moves;
    }
    GraspFinished(stop, log);
    log := log + [MoveZero];
    stopped := false;
  }

  /** The passes of the cycle worker, in order, before its final status change. */
  method RunCycle(w: Observer) returns (log: seq<Event>)
    ensures log == WorkerLog(w, 0)
  {
    var passes: nat := 0;
    log := [];
    while passes !in w.stopAtPass && passes < CycleCount
      invariant passes <= CycleCount
      invariant WorkerLog(w, 0) == log + WorkerLog(w, passes)
      decreases CycleCount - passes
    {
      var pass, ended := RunPass(w, passes);
      if ended {
        return log + pass;
      }
      Regroup(log, pass, WorkerLog(w, passes + 1), WorkerLog(w, passes), log + pass);
      log := log + pass;
      passes := passes + 1;
    }
    assert log + [] == log;
  }

  /** The motion controller's own state. */
  class MotionController {
    /** Whether the hand controller reports a connected device. */
    var connected: bool
    /** Whether a cycle or a grasp is in progress. */
    var motionRunning: bool
    /** The stop flag as this controller's handlers last wrote it. */
    var stopFlag: bool
    /** Whether the glove receiver is listening. */
    var gloveListening: bool
    /** What the sequencer did, in order. */
    var events: seq<Event>

    constructor (deviceConnected: bool)
      ensures connected == deviceConnected
      ensures !motionRunning && !stopFlag && !gloveListening && events == []
    {
      connected := deviceConnected;
      motionRunning, stopFlag, gloveListening := false, false, false;
      events := [];
    }

    /** The start button: with a device connected and no motion running,
        mark motion as running, clear the stop flag, show "running" and
        start the cycle worker (reported as `started`). */
    method OnStartMotion() returns (started: bool)
      modifies this`motionRunning, this`stopFlag, this`events
      ensures started <==> connected && !old(motionRunning)
      ensures !started ==>
        motionRunning == old(motionRunning) && stopFlag == old(stopFlag) && events == old(events)
      ensures started ==> motionRunning && !stopFlag && events == old(events) + [Indicate(Running)]
    {
      if !connected {
        return false;
      }
      if motionRunning {
        return false;
      }
      motionRunning := true;
      stopFlag := false;
      events := events + [Indicate(Running)];
      started := true;
    }

    /** The stop button: a running motion is told to stop; then, whatever
        was running, the motors stop, the glove receiver stops, the hand
        moves to zero and the outputs show "ready". */
    method OnStopMotion()
      modifies this`motionRunning, this`stopFlag, this`gloveListening, this`events
      ensures !motionRunning && !gloveListening
      ensures stopFlag == (old(stopFlag) || old(motionRunning))
      ensures events == old(events) + [StopMotors] + (if old(gloveListening) then [StopListening] else [])
                        + [MoveZero, Indicate(Ready)]
    {
      if motionRunning {
        stopFlag := true;
        motionRunning := false;
      }
      events := events + [StopMotors];
      if gloveListening {
        gloveListening := false;
        events := events + [StopListening];
      }
      events := events + [MoveZero, Indicate(Ready)];
    }

    /** The cycle worker: passes run while the stop flag is clear and fewer
        than `CycleCount` have run, until one ends it; whichever way it ends,
        motion is marked as no longer running and the outputs show "ready". */
    method RunMotionCycle(w: Observer)
      modifies this`motionRunning, this`events
      ensures !motionRunning
      ensures events == old(events) + WorkerLog(w, 0) + [Indicate(Ready)]
    {
      var log := RunCycle(w);
      events := events + log;
      motionRunning := false;
      events := events + [Indicate(Ready)];
    }

    /** The grasp button: a running motion is told to stop, the stop flag is
        cleared and motion marked as running; the grasp then runs (see
        `GraspLog`, `stop` being whether the flag is found set before each
        step), and motion is marked as no longer running however it ends. A
        flag found set is left set, so it still tells that the grasp was
        stopped, which is exactly when the hand did not move to zero. */
    method OnStartGrasp(stop: set<(nat, nat)>)
      modifies this`motionRunning, this`stopFlag, this`events
      ensures !motionRunning
      ensures stopFlag <==> MoveZero !in GraspLog(stop, 0, 0)
      ensures stopFlag <==> !ClearFrom(stop, 0, 0)
      ensures events == old(events) + GraspLog(stop, 0, 0)
    {
      // The source sets the flag, sleeps, then clears it: a running worker
      // can see the set flag in between, so the store is not dead there.
      if motionRunning {
        stopFlag := true;
      }
      stopFlag := false;
      motionRunning := true;
      var log, stopped := RunGrasp(stop);
      events := events + log;
      stopFlag := stopped;
      motionRunning := false;
    }

    /** The glove frame handler: for each record in turn, skip other devices,
        end at a teleop record whose right hand is not calibrated, and move
        the hand to the right-hand angles of a calibrated one that has them. */
    method GloveDataCallback(records: seq<Glove.GloveData>)
      modifies this`events
      ensures events == old(events) + GloveMoves(records)
    {
      if records == [] {
        return;
      }
      var i := 0;
      while i < |records|
        invariant i <= |records|
        invariant old(events) + GloveMoves(records) == events + GloveMoves(records[i..])
      {
        var g := records[i];
        assert records[i..][1..] == records[i + 1..];
        if !IsTeleop(g.deviceName) {
          i := i + 1;
          continue;
        }
        if !g.rightCalibrated {
          return;
        }
        ghost var before := events;
        var made: seq<Event> := [];
        if g.rightAngles != [] {
          made := [MoveAngles(g.rightAngles)];
          events := events + made;
        }
        Regroup(before, made, GloveMoves(records[i + 1..]), GloveMoves(records[i..]), events);
        i := i + 1;
      }
    }
  }
}
