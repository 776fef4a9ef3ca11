/**
 * The calls the hand controller makes into the vendor's motion library.
 *
 * The library is seen only through the calls made to it, kept in order in
 * a log. Which calls raise is fixed up front as the set `faults` of log
 * positions, and what an alarm query answers as the function `reading` of
 * its log position. A checked call that raises ends the operation that
 * made it: the calls of an operation are those before the first raising
 * position, plus the one that raised.
 */
module HandCommands {
  import opened Base

  datatype Command =
    | Initial(channel: int)
    | GetDof
    | SetControlMode(motor: int, controlMode: int)
    | SetEnable(motor: int, enable: bool)
    | HomeMotors(motor: int)
    | SetTargetPosition(motor: int, position: int)
    | SetPositionVelocity(motor: int, velocity: int)
    | SetMaxCurrent(motor: int, current: int)
    | MoveMotors(motor: int)
    | StopMotors(motor: int)
    | GetNowAlarm(motor: int)
    | DecodeCanFd(data: seq<byte>)

  /** How many of `n` calls starting at log position `p` succeed before the
      first one that raises (`n` when none does). */
  function FirstFault(faults: set<nat>, p: nat, n: nat): (k: nat)
    ensures k <= n
    decreases n
  {
    if n == 0 then 0
    else if p in faults then 0
    else 1 + FirstFault(faults, p + 1, n - 1)
  }

  /** The calls before the first fault all go through, and the call after
      them (if any) raises. */
  lemma {:induction false} FirstFaultWindow(faults: set<nat>, p: nat, n: nat)
    ensures forall q :: p <= q < p + FirstFault(faults, p, n) ==> q !in faults
    ensures FirstFault(faults, p, n) < n ==> p + FirstFault(faults, p, n) in faults
    decreases n
  {
    if n > 0 && p !in faults {
      FirstFaultWindow(faults, p + 1, n - 1);
    }
  }

  /** Calls made when the first `k` of `n` succeed: the one that raises is made too. */
  function Attempted(k: nat, n: nat): nat
  {
    if k < n then k + 1 else n
  }

  /** The calls of `cmds` made from log position `p`, up to and including the
      first that raises. */
  function Issued(faults: set<nat>, p: nat, cmds: seq<Command>): seq<Command>
  {
    cmds[..Attempted(FirstFault(faults, p, |cmds|), |cmds|)]
  }

  /** Conversely, a run of `k` calls that go through followed by one that
      raises (or by the end) is where the first fault is. */
  lemma {:induction false} FirstFaultAt(faults: set<nat>, p: nat, n: nat, k: nat)
    requires k <= n
    requires forall q :: p <= q < p + k ==> q !in faults
    requires k < n ==> p + k in faults
    ensures FirstFault(faults, p, n) == k
    decreases k
  {
    if k > 0 {
      FirstFaultAt(faults, p + 1, n - 1, k - 1);
    }
  }

  /** The calls made are exactly those before the first raising position, plus that one. */
  lemma IssuedUpTo(faults: set<nat>, p: nat, cmds: seq<Command>, k: nat)
    requires k <= |cmds|
    requires forall q :: p <= q < p + k ==> q !in faults
    requires k < |cmds| ==> p + k in faults
    ensures FirstFault(faults, p, |cmds|) == k
    ensures Issued(faults, p, cmds) == cmds[..Attempted(k, |cmds|)]
  {
    FirstFaultAt(faults, p, |cmds|, k);
  }

  /** Making the calls of `part`, which sit at offset `k` of `cmds`, after
      the first `k` calls of `cmds` went through: either all of them go
      through too, or the calls made so far are those `cmds` makes from `p`. */
  lemma IssuedStep(faults: set<nat>, p: nat, cmds: seq<Command>, k: nat, d: nat, part: seq<Command>)
    requires k + |part| <= |cmds| && cmds[k..k + |part|] == part
    requires forall q :: p <= q < p + k ==> q !in faults
    requires d == FirstFault(faults, p + k, |part|)
    ensures d == |part| ==> cmds[..k] + Issued(faults, p + k, part) == cmds[..k + |part|]
    ensures d == |part| ==> forall q :: p <= q < p + k + |part| ==> q !in faults
    ensures d < |part| ==> cmds[..k] + Issued(faults, p + k, part) == Issued(faults, p, cmds)
    ensures d < |part| ==> FirstFault(faults, p, |cmds|) == k + d
  {
    FirstFaultWindow(faults, p + k, |part|);
    if d == |part| {
      assert cmds[..k + |part|] == cmds[..k] + cmds[k..k + |part|];
    } else {
      IssuedUpTo(faults, p, cmds, k + d);
      assert cmds[..k + d + 1] == cmds[..k] + part[..d + 1];
    }
  }

  // ---------------------------------------------------------------------
  // Moves
  // ---------------------------------------------------------------------

  /** The calls for one joint: its motor's target, velocity and current limit. */
  function JointCalls(motor: int, position: int, velocity: int, current: int): seq<Command>
  {
    [SetTargetPosition(motor, position), SetPositionVelocity(motor, velocity), SetMaxCurrent(motor, current)]
  }

  /** The per-joint calls of a move, joint after joint; joint j drives motor j+1. */
  function JointCommands(positions: seq<int>, velocity: int, current: int): (cmds: seq<Command>)
    ensures |cmds| == 3 * |positions|
    decreases |positions|
  {
    if positions == [] then []
    else
      var n := |positions|;
      JointCommands(positions[..n - 1], velocity, current) + JointCalls(n, positions[n - 1], velocity, current)
  }

  /** Every call of a complete move: the per-joint calls, then one group move. */
  function MoveCommands(positions: seq<int>, velocity: int, current: int): (cmds: seq<Command>)
    ensures |cmds| == 3 * |positions| + 1
  {
    JointCommands(positions, velocity, current) + [MoveMotors(0)]
  }

  /** The calls of joint `j` sit at offset 3j. */
  lemma {:induction false} JointCommandsAt(positions: seq<int>, velocity: int, current: int, j: nat)
    requires j < |positions|
    ensures JointCommands(positions, velocity, current)[3 * j..3 * j + 3] == JointCalls(j + 1, positions[j], velocity, current)
    decreases |positions|
  {
    var n := |positions|;
    var init := positions[..n - 1];
    if j < n - 1 {
      JointCommandsAt(init, velocity, current, j);
      assert init[j] == positions[j];
      assert JointCommands(positions, velocity, current)[3 * j..3 * j + 3]
        == JointCommands(init, velocity, current)[3 * j..3 * j + 3];
    }
  }

  /** The three calls of joint `j` in a move. */
  lemma JointSlice(positions: seq<int>, velocity: int, current: int, j: nat)
    requires j < |positions|
    ensures MoveCommands(positions, velocity, current)[3 * j..3 * j + 3] ==
      [SetTargetPosition(j + 1, positions[j]), SetPositionVelocity(j + 1, velocity), SetMaxCurrent(j + 1, current)]
  {
    JointCommandsAt(positions, velocity, current, j);
    assert MoveCommands(positions, velocity, current)[3 * j..3 * j + 3]
      == JointCommands(positions, velocity, current)[3 * j..3 * j + 3];
  }

  /** A move gives motor j+1 its target positions[j], then the velocity, then
      the current limit, for each joint in turn, and ends with one group move. */
  lemma MoveCommandsLayout(positions: seq<int>, velocity: int, current: int)
    ensures |MoveCommands(positions, velocity, current)| == 3 * |positions| + 1
    ensures forall j :: 0 <= j < |positions| ==>
      MoveCommands(positions, velocity, current)[3 * j] == SetTargetPosition(j + 1, positions[j]) &&
      MoveCommands(positions, velocity, current)[3 * j + 1] == SetPositionVelocity(j + 1, velocity) &&
      MoveCommands(positions, velocity, current)[3 * j + 2] == SetMaxCurrent(j + 1, current)
    ensures MoveCommands(positions, velocity, current)[3 * |positions|] == MoveMotors(0)
  {
    var cmds := MoveCommands(positions, velocity, current);
    forall j | 0 <= j < |positions|
      ensures cmds[3 * j] == SetTargetPosition(j + 1, positions[j])
      ensures cmds[3 * j + 1] == SetPositionVelocity(j + 1, velocity)
      ensures cmds[3 * j + 2] == SetMaxCurrent(j + 1, current)
    {
      JointSlice(positions, velocity, current, j);
      assert cmds[3 * j..3 * j + 3][0] == cmds[3 * j];
      assert cmds[3 * j..3 * j + 3][1] == cmds[3 * j + 1];
      assert cmds[3 * j..3 * j + 3][2] == cmds[3 * j + 2];
    }
  }

  /** The calls a move makes from log position `p` once the controller is
      ready: none when the position count differs from the active joints. */
  function MoveLog(faults: set<nat>, p: nat, dof: int, positions: seq<int>, velocity: int, current: int): seq<Command>
  {
    if |positions| != dof then []
    else Issued(faults, p, MoveCommands(positions, velocity, current))
  }

  /** A move from log position `p` goes through. */
  predicate MoveSucceeds(faults: set<nat>, p: nat, dof: int, positions: seq<int>)
  {
    |positions| == dof && FirstFault(faults, p, 3 * |positions| + 1) == 3 * |positions| + 1
  }

  /** A move goes through exactly when it has one position per active joint
      and none of its calls raises; it then makes every call of the move. */
  lemma {:induction false} MoveSucceedsIff(faults: set<nat>, p: nat, dof: int, positions: seq<int>, velocity: int, current: int)
    ensures MoveSucceeds(faults, p, dof, positions) <==>
      |positions| == dof && forall i :: p <= i < p + 3 * |positions| + 1 ==> i !in faults
    ensures MoveSucceeds(faults, p, dof, positions) ==>
      MoveLog(faults, p, dof, positions, velocity, current) == MoveCommands(positions, velocity, current)
  {
    MoveCommandsLayout(positions, velocity, current);
    var n := 3 * |positions| + 1;
    FirstFaultWindow(faults, p, n);
    if |positions| == dof && forall i :: p <= i < p + n ==> i !in faults {
      IssuedUpTo(faults, p, MoveCommands(positions, velocity, current), n);
    }
  }

  /** Positions of the zero pose: one 0 per active joint (none for a count below 1). */
  function ZeroPositions(n: int): (z: seq<int>)
    ensures |z| == if n > 0 then n else 0
    ensures forall i :: 0 <= i < |z| ==> z[i] == 0
  {
    if n > 0 then seq(n, _ => 0) else []
  }

  /** Moving to zero targets 0 on every active motor; with a negative joint
      count it cannot go through. */
  lemma {:induction false} ZeroMoveTargets(faults: set<nat>, p: nat, dof: int, velocity: int, current: int)
    ensures dof < 0 ==> !MoveSucceeds(faults, p, dof, ZeroPositions(dof))
    ensures MoveSucceeds(faults, p, dof, ZeroPositions(dof)) ==>
      forall j :: 0 <= j < dof ==> MoveLog(faults, p, dof, ZeroPositions(dof), velocity, current)[3 * j] == SetTargetPosition(j + 1, 0)
  {
    if MoveSucceeds(faults, p, dof, ZeroPositions(dof)) {
      MoveSucceedsIff(faults, p, dof, ZeroPositions(dof), velocity, current);
      MoveCommandsLayout(ZeroPositions(dof), velocity, current);
    }
  }

  /** The calls of moves made one after another from log position `p`,
      stopping after the first move that does not go through. */
  function SequenceLog(faults: set<nat>, p: nat, dof: int, lists: seq<seq<int>>, velocity: int, current: int): seq<Command>
    decreases |lists|
  {
    if lists == [] then []
    else
      var first := MoveLog(faults, p, dof, lists[0], velocity, current);
      if MoveSucceeds(faults, p, dof, lists[0])
      then first + SequenceLog(faults, p + |first|, dof, lists[1..], velocity, current)
      else first
  }

  predicate SequenceSucceeds(faults: set<nat>, p: nat, dof: int, lists: seq<seq<int>>)
    decreases |lists|
  {
    lists == [] ||
    (MoveSucceeds(faults, p, dof, lists[0]) &&
     SequenceSucceeds(faults, p + 3 * |lists[0]| + 1, dof, lists[1..]))
  }

  /** Every call of every move, in order. */
  function AllMoves(lists: seq<seq<int>>, velocity: int, current: int): seq<Command>
    decreases |lists|
  {
    if lists == [] then []
    else MoveCommands(lists[0], velocity, current) + AllMoves(lists[1..], velocity, current)
  }

  /** A move that goes through makes `3 * n + 1` calls. */
  lemma MoveLogLength(faults: set<nat>, p: nat, dof: int, positions: seq<int>, velocity: int, current: int)
    requires MoveSucceeds(faults, p, dof, positions)
    ensures |MoveLog(faults, p, dof, positions, velocity, current)| == 3 * |positions| + 1
  {
    MoveSucceedsIff(faults, p, dof, positions, velocity, current);
    MoveCommandsLayout(positions, velocity, current);
  }

  /** A sequence that goes through made every move in full, each with one
      position per active joint. */
  lemma {:induction false} SequenceSuccessLog(faults: set<nat>, p: nat, dof: int, lists: seq<seq<int>>, velocity: int, current: int)
    requires SequenceSucceeds(faults, p, dof, lists)
    ensures forall i :: 0 <= i < |lists| ==> |lists[i]| == dof
    ensures SequenceLog(faults, p, dof, lists, velocity, current) == AllMoves(lists, velocity, current)
    decreases |lists|
  {
    if lists != [] {
      MoveSucceedsIff(faults, p, dof, lists[0], velocity, current);
      MoveLogLength(faults, p, dof, lists[0], velocity, current);
      SequenceSuccessLog(faults, p + 3 * |lists[0]| + 1, dof, lists[1..], velocity, current);
      assert forall i :: 1 <= i < |lists| ==> lists[i] == lists[1..][i - 1];
    }
  }

  /** Conversely, moves of the right length with no raising call go through. */
  lemma {:induction false} SequenceSucceedsWhenClean(faults: set<nat>, p: nat, dof: int, lists: seq<seq<int>>, velocity: int, current: int)
    requires forall i :: 0 <= i < |lists| ==> |lists[i]| == dof
    requires forall i :: p <= i < p + |AllMoves(lists, velocity, current)| ==> i !in faults
    ensures SequenceSucceeds(faults, p, dof, lists)
    decreases |lists|
  {
    if lists != [] {
      MoveCommandsLayout(lists[0], velocity, current);
      MoveSucceedsIff(faults, p, dof, lists[0], velocity, current);
      assert forall i :: 1 <= i < |lists| ==> lists[1..][i - 1] == lists[i];
      SequenceSucceedsWhenClean(faults, p + 3 * |lists[0]| + 1, dof, lists[1..], velocity, current);
    }
  }

  /** Move `i` of the sequence is the first to fail: the moves before it were
      made in full, and nothing after it was made. */
  ghost predicate StopsAt(faults: set<nat>, p: nat, dof: int, lists: seq<seq<int>>, velocity: int, current: int, i: nat)
    requires i < |lists|
  {
    !MoveSucceeds(faults, p + |AllMoves(lists[..i], velocity, current)|, dof, lists[i]) &&
    SequenceLog(faults, p, dof, lists, velocity, current) ==
      AllMoves(lists[..i], velocity, current) +
      MoveLog(faults, p + |AllMoves(lists[..i], velocity, current)|, dof, lists[i], velocity, current)
  }

  /** The two facts `StopsAt` records, for the calls `before` of the moves
      ahead of move `i` and the calls `failing` of move `i` itself. */
  lemma StopsAtParts(faults: set<nat>, p: nat, dof: int, lists: seq<seq<int>>, velocity: int, current: int, i: nat,
                     before: seq<Command>, at: nat, move: seq<int>, failing: seq<Command>)
    requires i < |lists| && StopsAt(faults, p, dof, lists, velocity, current, i)
    requires before == AllMoves(lists[..i], velocity, current) && at == p + |before| && move == lists[i]
    requires failing == MoveLog(faults, at, dof, move, velocity, current)
    ensures !MoveSucceeds(faults, at, dof, move)
    ensures SequenceLog(faults, p, dof, lists, velocity, current) == before + failing
  {
  }

  /** The converse of `StopsAtParts`: the two facts, stated at log position
      `at`, give `StopsAt`. */
  lemma StopsAtIntro(faults: set<nat>, p: nat, dof: int, lists: seq<seq<int>>, velocity: int, current: int, i: nat,
                     before: seq<Command>, at: nat, move: seq<int>, failing: seq<Command>)
    requires i < |lists| && move == lists[i]
    requires before == AllMoves(lists[..i], velocity, current) && at == p + |before|
    requires !MoveSucceeds(faults, at, dof, move)
    requires failing == MoveLog(faults, at, dof, move, velocity, current)
    requires SequenceLog(faults, p, dof, lists, velocity, current) == before + failing
    ensures StopsAt(faults, p, dof, lists, velocity, current, i)
  {
  }

  lemma AllMovesCons(lists: seq<seq<int>>, velocity: int, current: int, j: nat)
    requires j < |lists|
    ensures AllMoves(lists[..j + 1], velocity, current) ==
      MoveCommands(lists[0], velocity, current) + AllMoves(lists[1..][..j], velocity, current)
  {
    assert lists[..j + 1][1..] == lists[1..][..j];
  }

  /** A sequence whose first move went through continues from log position
      `q`, just after that move's calls. */
  lemma SequenceStep(faults: set<nat>, p: nat, q: nat, dof: int, lists: seq<seq<int>>, velocity: int, current: int)
    requires lists != [] && MoveSucceeds(faults, p, dof, lists[0])
    requires q == p + 3 * |lists[0]| + 1
    ensures MoveLog(faults, p, dof, lists[0], velocity, current) == MoveCommands(lists[0], velocity, current)
    ensures SequenceLog(faults, p, dof, lists, velocity, current) ==
      MoveCommands(lists[0], velocity, current) + SequenceLog(faults, q, dof, lists[1..], velocity, current)
  {
    MoveSucceedsIff(faults, p, dof, lists[0], velocity, current);
    MoveLogLength(faults, p, dof, lists[0], velocity, current);
  }

  lemma SequenceSucceedsStep(faults: set<nat>, p: nat, q: nat, dof: int, lists: seq<seq<int>>)
    requires lists != [] && MoveSucceeds(faults, p, dof, lists[0])
    requires q == p + 3 * |lists[0]| + 1
    ensures SequenceSucceeds(faults, p, dof, lists) == SequenceSucceeds(faults, q, dof, lists[1..])
  {
  }

  /** The calls of a sequence whose first move went through, when the rest
      made `before` and then the calls `failing`. */
  lemma StopsAtStepLog(faults: set<nat>, p: nat, q: nat, dof: int, lists: seq<seq<int>>, velocity: int, current: int,
                       j: nat, before: seq<Command>, failing: seq<Command>)
    requires lists != [] && MoveSucceeds(faults, p, dof, lists[0])
    requires q == p + 3 * |lists[0]| + 1
    requires j < |lists| - 1 && before == AllMoves(lists[1..][..j], velocity, current)
    requires SequenceLog(faults, q, dof, lists[1..], velocity, current) == before + failing
    ensures p + |AllMoves(lists[..j + 1], velocity, current)| == q + |before|
    ensures SequenceLog(faults, p, dof, lists, velocity, current) == AllMoves(lists[..j + 1], velocity, current) + failing
  {
    var head := MoveCommands(lists[0], velocity, current);
    AllMovesCons(lists, velocity, current, j);
    SequenceStep(faults, p, q, dof, lists, velocity, current);
    Regroup(head, before, failing, SequenceLog(faults, q, dof, lists[1..], velocity, current),
            AllMoves(lists[..j + 1], velocity, current));
  }

  // ---------------------------------------------------------------------
  // Alarm scan
  // ---------------------------------------------------------------------

  /** How many of `n` alarm queries from log position `p` pass before one
      raises or answers 1 (`n` when none does). */
  function FirstAlarm(faults: set<nat>, reading: nat -> int, p: nat, n: nat): (k: nat)
    ensures k <= n
    decreases n
  {
    if n == 0 then 0
    else if p in faults || reading(p) == 1 then 0
    else 1 + FirstAlarm(faults, reading, p + 1, n - 1)
  }

  /** The queries before the stop all pass, and the query the scan stops at
      (if any) raises or answers 1. */
  lemma {:induction false} FirstAlarmWindow(faults: set<nat>, reading: nat -> int, p: nat, n: nat)
    ensures forall q :: p <= q < p + FirstAlarm(faults, reading, p, n) ==> q !in faults && reading(q) != 1
    ensures FirstAlarm(faults, reading, p, n) < n ==>
      p + FirstAlarm(faults, reading, p, n) in faults || reading(p + FirstAlarm(faults, reading, p, n)) == 1
    decreases n
  {
    if n > 0 && p !in faults && reading(p) != 1 {
      FirstAlarmWindow(faults, reading, p + 1, n - 1);
    }
  }

  /** Alarm queries of motors 1 to m. */
  function AlarmQueries(m: nat): (q: seq<Command>)
    ensures |q| == m
  {
    seq(m, i requires 0 <= i < m => GetNowAlarm(i + 1))
  }

  function Joints(dof: int): nat
  {
    if dof > 0 then dof else 0
  }

  /** The alarm queries a scan makes from log position `p`. */
  function AlarmLog(faults: set<nat>, reading: nat -> int, p: nat, dof: int): seq<Command>
  {
    AlarmQueries(Attempted(FirstAlarm(faults, reading, p, Joints(dof)), Joints(dof)))
  }

  /** The scan reports an alarm: it stopped at a motor that answered 1. */
  predicate AlarmRaised(faults: set<nat>, reading: nat -> int, p: nat, dof: int)
  {
    var k := FirstAlarm(faults, reading, p, Joints(dof));
    k < Joints(dof) && p + k !in faults
  }

  /** An alarm is reported exactly when some active motor answers 1 after
      every query up to and including its own returned without raising and
      no earlier motor answered 1; the scan then stops at that motor. Without
      a raising query this is: some active motor answers 1, and a scan that
      reports no alarm queries every motor once. */
  lemma AlarmRaisedIff(faults: set<nat>, reading: nat -> int, p: nat, dof: int)
    ensures AlarmRaised(faults, reading, p, dof) <==>
      exists q :: p <= q < p + Joints(dof) && reading(q) == 1
        && (forall r :: p <= r <= q ==> r !in faults)
        && (forall r :: p <= r < q ==> reading(r) != 1)
    ensures AlarmRaised(faults, reading, p, dof) ==>
      var m := |AlarmLog(faults, reading, p, dof)|;
      m > 0 && reading(p + m - 1) == 1 && p + m - 1 !in faults
      && forall q :: p <= q < p + m - 1 ==> q !in faults && reading(q) != 1
    ensures !AlarmRaised(faults, reading, p, dof) && |AlarmLog(faults, reading, p, dof)| < Joints(dof) ==>
      p + |AlarmLog(faults, reading, p, dof)| - 1 in faults
    ensures (forall i :: p <= i < p + Joints(dof) ==> i !in faults) ==>
      (AlarmRaised(faults, reading, p, dof) <==> exists q :: p <= q < p + Joints(dof) && reading(q) == 1)
    ensures (forall i :: p <= i < p + Joints(dof) ==> i !in faults) && !AlarmRaised(faults, reading, p, dof) ==>
      |AlarmLog(faults, reading, p, dof)| == Joints(dof)
  {
    var n := Joints(dof);
    var k := FirstAlarm(faults, reading, p, n);
    FirstAlarmWindow(faults, reading, p, n);
    if AlarmRaised(faults, reading, p, dof) {
      assert reading(p + k) == 1;
    }
    forall q: nat | p <= q < p + n && reading(q) == 1 && (forall r :: p <= r <= q ==> r !in faults)
        && (forall r :: p <= r < q ==> reading(r) != 1)
      ensures AlarmRaised(faults, reading, p, dof)
    {
      var stopAt: nat := p + k;
      assert stopAt < q ==> stopAt !in faults && reading(stopAt) != 1;
      assert q < p + k ==> reading(q) != 1;
    }
  }

  /** The scan stops after `k` queries when the first `k` pass and the next
      one (if any) raises or answers 1. */
  lemma {:induction false} AlarmScanAt(faults: set<nat>, reading: nat -> int, p: nat, n: nat, k: nat)
    requires k <= n
    requires forall q :: p <= q < p + k ==> q !in faults && reading(q) != 1
    requires k < n ==> p + k in faults || reading(p + k) == 1
    ensures FirstAlarm(faults, reading, p, n) == k
    decreases k
  {
    if k > 0 {
      AlarmScanAt(faults, reading, p + 1, n - 1, k - 1);
    }
  }
}
