/**
 * The hand controller: one robotic hand reached over CAN FD or EtherCAT
 * through the vendor's motion library.
 *
 * The library is seen only through the calls made to it, kept in order in
 * the controller's `log` (see HandCommands). The transports are reduced to
 * the outcomes the controller acts on.
 */
module HandController {
  import opened Base
  import opened HandCommands
  import CanFd

  // ---------------------------------------------------------------------
  // Communication mode
  // ---------------------------------------------------------------------

  datatype Mode = CanFdMode | EcatMode

  /** ASCII upper-casing of one character. */
  function UpperChar(c: char): char
  {
    if 'a' <= c <= 'z' then (c as int - 32) as char else c
  }

  function Upper(s: string): (u: string)
    ensures |u| == |s|
    ensures forall i :: 0 <= i < |s| ==> u[i] == UpperChar(s[i])
  {
    seq(|s|, i requires 0 <= i < |s| => UpperChar(s[i]))
  }

  function ModeName(m: Mode): string
  {
    match m
    case CanFdMode => "CANFD"
    case EcatMode => "ECAT"
  }

  /** The mode named at construction: the name, upper-cased, must be CANFD or
      ECAT; otherwise construction raises with the upper-cased name. */
  function ParseMode(name: string): (r: Result<Mode, string>)
    ensures r.Ok? ==> ModeName(r.value) == Upper(name)
    ensures r.Err? ==> r.error == Upper(name) && r.error != "CANFD" && r.error != "ECAT"
  {
    var u := Upper(name);
    if u == "CANFD" then Ok(CanFdMode)
    else if u == "ECAT" then Ok(EcatMode)
    else Err(u)
  }

  /** Case does not matter: a name is accepted exactly when its upper-cased
      form is, and then as the same mode. */
  lemma ParseModeIgnoresCase(name: string)
    ensures ParseMode(Upper(name)) == ParseMode(name)
    ensures ParseMode("canfd") == Ok(CanFdMode) && ParseMode("Ecat") == Ok(EcatMode)
    ensures ParseMode("CAN").Err? && ParseMode("").Err?
  {
    var u := Upper(name);
    assert Upper(u) == u by {
      forall i | 0 <= i < |u| ensures Upper(u)[i] == u[i] {
      }
    }
    assert Upper("canfd") == "CANFD";
    assert Upper("Ecat") == "ECAT";
  }

  // ---------------------------------------------------------------------
  // Endpoint selection (CAN FD device or EtherCAT network interface)
  // ---------------------------------------------------------------------

  /** The whitespace `str.strip` removes, within ASCII. */
  predicate IsSpace(c: char)
  {
    var n := c as int;
    n == 32 || 9 <= n <= 13 || 28 <= n <= 31
  }

  predicate Blank(s: string)
  {
    forall i :: 0 <= i < |s| ==> IsSpace(s[i])
  }

  /** Conversion of an operator's answer to an integer; `None` where it raises. */
  type IntParser = string -> Option<int>

  /** An answer the prompt accepts: a blank one (meaning 0) or an index in range. */
  predicate Acceptable(answer: string, count: nat, parseInt: IntParser)
  {
    Blank(answer) || (parseInt(answer).Some? && 0 <= parseInt(answer).value < count)
  }

  /** The index chosen at the operator prompt from the answers typed in
      turn; `None` when the input runs out first (reading past its end raises). */
  function FirstAcceptable(answers: seq<string>, count: nat, parseInt: IntParser): (r: Option<nat>)
    ensures r.None? <==> forall i :: 0 <= i < |answers| ==> !Acceptable(answers[i], count, parseInt)
    ensures r.Some? && count > 0 ==> r.value < count
    decreases |answers|
  {
    if answers == [] then None
    else if Blank(answers[0]) then Some(0)
    else
      var parsed := parseInt(answers[0]);
      if parsed.Some? && 0 <= parsed.value < count then Some(parsed.value as nat)
      else
        var r := FirstAcceptable(answers[1..], count, parseInt);
        assert forall i :: 1 <= i < |answers| ==> answers[i] == answers[1..][i - 1];
        r
  }

  /** The operator prompt, asking again until an answer is accepted. */
  method PromptOperator(answers: seq<string>, count: nat, parseInt: IntParser) returns (choice: Option<nat>)
    ensures choice == FirstAcceptable(answers, count, parseInt)
  {
    var i := 0;
    while i < |answers|
      invariant i <= |answers|
      invariant FirstAcceptable(answers, count, parseInt) == FirstAcceptable(answers[i..], count, parseInt)
    {
      var answer := answers[i];
      if Blank(answer) {
        return Some(0);
      }
      var parsed := parseInt(answer);
      if parsed.Some? && 0 <= parsed.value < count {
        return Some(parsed.value as nat);
      }
      assert answers[i..][1..] == answers[i + 1..];
      i := i + 1;
    }
    return None;
  }

  datatype Selection =
    | Selected(index: nat)
    | NoEndpoint      // the scan found nothing
    | InvalidIndex    // the index asked for is out of range
    | InputEnded      // the operator prompt ran out of input

  /** The endpoint a connection uses among `count` found ones: the index asked
      for when it is in range; without one, index 0 when there is a single
      endpoint or automatic selection is on, and otherwise the operator's choice. */
  function SelectEndpoint(requested: Option<int>, count: nat, autoSelect: bool,
                          answers: seq<string>, parseInt: IntParser): (r: Selection)
    ensures r.Selected? ==> r.index < count
    ensures r == NoEndpoint <==> count == 0
    ensures count > 0 && requested.Some? ==>
      (0 <= requested.value < count ==> r == Selected(requested.value)) &&
      (!(0 <= requested.value < count) ==> r == InvalidIndex)
    ensures count > 0 && requested.None? && (count == 1 || autoSelect) ==> r == Selected(0)
    ensures r == InputEnded <==>
      count > 1 && requested.None? && !autoSelect &&
      forall i :: 0 <= i < |answers| ==> !Acceptable(answers[i], count, parseInt)
  {
    if count == 0 then NoEndpoint
    else match requested
      case Some(i) => if 0 <= i < count then Selected(i) else InvalidIndex
      case None =>
        if count == 1 || autoSelect then Selected(0)
        else match FirstAcceptable(answers, count, parseInt)
          case Some(i) => Selected(i)
          case None => InputEnded
  }

  /** The selection branches of the connection paths. */
  method ResolveEndpoint(requested: Option<int>, count: nat, autoSelect: bool,
                         answers: seq<string>, parseInt: IntParser) returns (r: Selection)
    ensures r == SelectEndpoint(requested, count, autoSelect, answers, parseInt)
  {
    if count == 0 {
      return NoEndpoint;
    }
    if requested.None? {
      if count == 1 || autoSelect {
        return Selected(0);
      }
      var choice := PromptOperator(answers, count, parseInt);
      if choice.None? {
        return InputEnded;
      }
      return Selected(choice.value);
    }
    var i := requested.value;
    if !(0 <= i < count) {
      return InvalidIndex;
    }
    return Selected(i);
  }

  // ---------------------------------------------------------------------
  // Library calls
  // ---------------------------------------------------------------------

  /** Library channel and control-mode codes. */
  const LcnEcat: int := 0
  const LcnCanFd: int := 1
  const LcmPosition: int := 0

  /** CAN identifiers of the hand's command and reply frames. */
  const SendId: int := 0x501
  const ReceiveId: int := 0x481

  // ---------------------------------------------------------------------
  // Move sequences
  // ---------------------------------------------------------------------

  /** Making the first move of the sequence `lists` from the end of `before`
      when it goes through: what is left is the rest of the sequence from the
      end of the new log. */
  lemma SequenceAdvance(faults: set<nat>, dof: int, lists: seq<seq<int>>, velocity: int, current: int,
                        before: seq<Command>, after: seq<Command>)
    requires lists != [] && MoveSucceeds(faults, |before|, dof, lists[0])
    requires after == before + MoveLog(faults, |before|, dof, lists[0], velocity, current)
    ensures before + SequenceLog(faults, |before|, dof, lists, velocity, current)
        == after + SequenceLog(faults, |after|, dof, lists[1..], velocity, current)
  {
    var p := |before|;
    MoveLogLength(faults, p, dof, lists[0], velocity, current);
    var q := |after|;
    SequenceStep(faults, p, q, dof, lists, velocity, current);
    var made := MoveCommands(lists[0], velocity, current);
    var rest := SequenceLog(faults, q, dof, lists[1..], velocity, current);
    Regroup(before, made, rest, SequenceLog(faults, p, dof, lists, velocity, current), after);
  }

  /** Making the first move of the sequence `lists` when it does not go
      through: the sequence stops there and does not go through. */
  lemma SequenceHalts(faults: set<nat>, dof: int, lists: seq<seq<int>>, velocity: int, current: int,
                      before: seq<Command>, after: seq<Command>)
    requires lists != [] && !MoveSucceeds(faults, |before|, dof, lists[0])
    requires after == before + MoveLog(faults, |before|, dof, lists[0], velocity, current)
    ensures before + SequenceLog(faults, |before|, dof, lists, velocity, current) == after
    ensures !SequenceSucceeds(faults, |before|, dof, lists)
  {
  }

  /** A failing move found in the rest of a sequence, after a first move
      that went through, is where the whole sequence stops. */
  lemma StopsAtStep(faults: set<nat>, p: nat, q: nat, dof: int, lists: seq<seq<int>>, velocity: int, current: int, j: nat,
                    before: seq<Command>, at: nat, move: seq<int>, failing: seq<Command>)
    requires lists != [] && MoveSucceeds(faults, p, dof, lists[0])
    requires q == p + 3 * |lists[0]| + 1
    requires j < |lists| - 1 && before == AllMoves(lists[1..][..j], velocity, current)
    requires at == q + |before| && move == lists[1..][j]
    requires !MoveSucceeds(faults, at, dof, move)
    requires failing == MoveLog(faults, at, dof, move, velocity, current)
    requires SequenceLog(faults, q, dof, lists[1..], velocity, current) == before + failing
    ensures StopsAt(faults, p, dof, lists, velocity, current, j + 1)
  {
    StopsAtStepLog(faults, p, q, dof, lists, velocity, current, j, before, failing);
    assert move == lists[j + 1];
    StopsAtIntro(faults, p, dof, lists, velocity, current, j + 1,
                 AllMoves(lists[..j + 1], velocity, current), at, move, failing);
  }

  /** A sequence that fails stops at its first failing move. */
  lemma {:induction false} SequenceStopsAtFailure(faults: set<nat>, p: nat, dof: int, lists: seq<seq<int>>, velocity: int, current: int)
    requires !SequenceSucceeds(faults, p, dof, lists)
    ensures exists i :: 0 <= i < |lists| && StopsAt(faults, p, dof, lists, velocity, current, i)
    decreases |lists|
  {
    if !MoveSucceeds(faults, p, dof, lists[0]) {
      assert lists[..0] == [];
      assert StopsAt(faults, p, dof, lists, velocity, current, 0);
    } else {
      var q := p + 3 * |lists[0]| + 1;
      var tail := lists[1..];
      SequenceSucceedsStep(faults, p, q, dof, lists);
      SequenceStopsAtFailure(faults, q, dof, tail, velocity, current);
      var j :| 0 <= j < |tail| && StopsAt(faults, q, dof, tail, velocity, current, j);
      var before := AllMoves(tail[..j], velocity, current);
      var at := q + |before|;
      var failing := MoveLog(faults, at, dof, tail[j], velocity, current);
      StopsAtParts(faults, q, dof, tail, velocity, current, j, before, at, tail[j], failing);
      StopsAtStep(faults, p, q, dof, lists, velocity, current, j, before, at, tail[j], failing);
    }
  }

  // ---------------------------------------------------------------------
  // Connection outcome
  // ---------------------------------------------------------------------

  /** How far a connection attempt got. */
  datatype Stage =
    | NotSelected(inputEnded: bool)   // no endpoint chosen
    | LinkFailed                      // the transport would not come up
    | InitialFailed                   // the library's `initial` raised
    | SetupFailed                     // a later setup call raised
    | Completed

  /** The controller state a connection attempt leaves. */
  datatype Status = Status(ok: bool, connected: bool, libOpen: bool, transportOpen: bool)

  /** Setup calls after the transport is up: initialise the library on the
      mode's channel, read the joint counts, optionally enable position
      control and home. */
  function SetupCommands(mode: Mode, enable: bool, home: bool): (cmds: seq<Command>)
    ensures 2 <= |cmds| && cmds[0] == Initial(if mode == CanFdMode then LcnCanFd else LcnEcat) && cmds[1] == GetDof
  {
    [Initial(if mode == CanFdMode then LcnCanFd else LcnEcat), GetDof]
      + (if enable then [SetControlMode(0, LcmPosition), SetEnable(0, true)] else [])
      + (if home then [HomeMotors(0)] else [])
  }

  function StageOf(selection: Selection, linkOk: bool, setupDone: nat, setupLen: nat): Stage
  {
    if !selection.Selected? then NotSelected(selection == InputEnded)
    else if !linkOk then LinkFailed
    else if setupDone == 0 then InitialFailed
    else if setupDone < setupLen then SetupFailed
    else Completed
  }

  /** The state a connection attempt leaves, with the EtherCAT path marking
      the controller connected once its master runs, as the CAN FD path does
      once its device is open. Every failure closes the library; only a
      completed attempt reports success, and it leaves everything up. A
      failure after the link was up leaves the connected flag set on CAN FD
      (and on EtherCAT after a setup call other than `initial` raises). */
  function ConnectStatus(mode: Mode, stage: Stage, wasConnected: bool): (s: Status)
    ensures s.ok <==> stage == Completed
    ensures stage == Completed ==> s.connected && s.libOpen && s.transportOpen
    ensures s.libOpen ==> stage == Completed
    ensures stage.InitialFailed? || stage.SetupFailed? ==> !s.transportOpen
  {
    match stage
    case NotSelected(ended) => Status(false, wasConnected, false, mode == EcatMode && !ended)
    case LinkFailed => Status(false, wasConnected, false, mode == EcatMode)
    case InitialFailed =>
      if mode == CanFdMode then Status(false, true, false, false)
      else Status(false, false, false, false)
    case SetupFailed => Status(false, true, false, false)
    case Completed => Status(true, true, true, true)
  }

  /** Whether the cleanup after a failed connection attempt raises: on CAN FD
      a failure once the link is up disconnects the adapter, and that
      disconnect raises when the adapter reports a failed close. */
  predicate CleanupRaises(mode: Mode, stage: Stage, closeOk: bool)
  {
    mode == CanFdMode && (stage.InitialFailed? || stage.SetupFailed?) && !closeOk
  }

  /** The state a connection attempt leaves as written: the EtherCAT path
      never sets the connected flag, so its `disconnect` after `initial`
      raises does nothing unless the controller was already connected. */
  function ConnectStatusAsWritten(mode: Mode, stage: Stage, wasConnected: bool): (s: Status)
    ensures mode == CanFdMode ==> s == ConnectStatus(mode, stage, wasConnected)
    ensures mode == EcatMode && s.connected ==> wasConnected
  {
    if mode == CanFdMode then ConnectStatus(mode, stage, wasConnected)
    else match stage
      case InitialFailed => Status(false, false, !wasConnected, !wasConnected)
      case SetupFailed => Status(false, wasConnected, false, false)
      case Completed => Status(true, wasConnected, true, true)
      case _ => ConnectStatus(mode, stage, wasConnected)
  }

  /** As written, an EtherCAT connection from a fresh controller reports
      success yet leaves it unconnected, so every move is then refused; and
      when `initial` raises the library stays open. */
  lemma EcatConnectAsWritten()
    ensures ConnectStatusAsWritten(EcatMode, Completed, false) == Status(true, false, true, true)
    ensures ConnectStatus(EcatMode, Completed, false) == Status(true, true, true, true)
    ensures ConnectStatusAsWritten(EcatMode, InitialFailed, false).libOpen
    ensures !ConnectStatus(EcatMode, InitialFailed, false).libOpen
  {
  }

  // ---------------------------------------------------------------------
  // The controller
  // ---------------------------------------------------------------------

  class Controller {
    const mode: Mode
    /** Log positions at which a checked library call raises. */
    const faults: set<nat>
    /** What an alarm query made at a log position answers. */
    const reading: nat -> int

    /** A library instance is held. */
    var libOpen: bool
    /** The transport object (CAN FD adapter or EtherCAT master) is held. */
    var transportOpen: bool
    var isConnected: bool
    var dofTotal: int
    var dofActive: int
    /** Library calls made so far. */
    var log: seq<Command>

    constructor (mode: Mode, faults: set<nat>, reading: nat -> int)
      ensures this.mode == mode && this.faults == faults && this.reading == reading
      ensures !libOpen && !transportOpen && !isConnected
      ensures dofTotal == 0 && dofActive == 0 && log == []
    {
      this.mode := mode;
      this.faults := faults;
      this.reading := reading;
      libOpen, transportOpen, isConnected := false, false, false;
      dofTotal, dofActive := 0, 0;
      log := [];
    }

    /** Connected and holding the library: the guard of every command. */
    predicate Ready()
      reads this
    {
      isConnected && libOpen
    }

    /** One checked library call. */
    method Call(c: Command) returns (ok: bool)
      modifies this`log
      ensures log == old(log) + [c]
      ensures ok <==> |old(log)| !in faults
    {
      ok := |log| !in faults;
      log := log + [c];
    }

    /** Checked calls in order, up to and including the first that raises. */
    method Issue(cmds: seq<Command>) returns (done: nat)
      modifies this`log
      ensures done == FirstFault(faults, |old(log)|, |cmds|)
      ensures log == old(log) + Issued(faults, |old(log)|, cmds)
    {
      var p := |log|;
      done := 0;
      while done < |cmds|
        invariant done <= |cmds|
        invariant log == old(log) + cmds[..done]
        invariant forall q :: p <= q < p + done ==> q !in faults
      {
        var ok := Call(cmds[done]);
        if !ok {
          assert cmds[..done] + [cmds[done]] == cmds[..done + 1];
          IssuedUpTo(faults, p, cmds, done);
          return;
        }
        assert cmds[..done] + [cmds[done]] == cmds[..done + 1];
        done := done + 1;
      }
      assert cmds[..done] == cmds;
      IssuedUpTo(faults, p, cmds, done);
    }

    /** Connect over the controller's transport: create the library, select
        an endpoint among the `endpoints` found, bring the link up (`linkOk`),
        then run the setup calls; `dof` is what the joint-count query answers.
        `closeOk` is whether closing the adapter in the cleanup after a failed
        setup call succeeds; when it does not, `raised` reports that the
        attempt ends in an exception with the adapter still held. */
    method Connect(endpoints: nat, requested: Option<int>, autoSelect: bool,
                   answers: seq<string>, parseInt: IntParser,
                   linkOk: bool, dof: (int, int), enable: bool, home: bool, closeOk: bool)
      returns (ok: bool, raised: bool)
      modifies this`isConnected, this`libOpen, this`transportOpen, this`dofTotal, this`dofActive, this`log
      ensures
        var selection := SelectEndpoint(requested, endpoints, autoSelect, answers, parseInt);
        var cmds := SetupCommands(mode, enable, home);
        var linked := selection.Selected? && linkOk;
        var done := if linked then FirstFault(faults, |old(log)|, |cmds|) else 0;
        var stage := StageOf(selection, linkOk, done, |cmds|);
        (raised <==> CleanupRaises(mode, stage, closeOk)) &&
        (if raised then !ok && isConnected && !libOpen && transportOpen
         else Status(ok, isConnected, libOpen, transportOpen) == ConnectStatus(mode, stage, old(isConnected))) &&
        log == old(log) + (if linked then Issued(faults, |old(log)|, cmds) else []) &&
        (dofTotal, dofActive) == (if linked && done >= 2 then dof else (old(dofTotal), old(dofActive)))
    {
      libOpen := true;
      transportOpen := true;
      var selection := ResolveEndpoint(requested, endpoints, autoSelect, answers, parseInt);
      if !selection.Selected? {
        libOpen := false;
        if mode == CanFdMode || selection == InputEnded {
          transportOpen := false;
        }
        return false, false;
      }
      if !linkOk {
        libOpen := false;
        if mode == CanFdMode {
          transportOpen := false;
        }
        return false, false;
      }
      isConnected := true;
      var cmds := SetupCommands(mode, enable, home);
      var done := Issue(cmds);
      if done >= 2 {
        dofTotal, dofActive := dof.0, dof.1;
      }
      if done < |cmds| {
        libOpen := false;
        if mode == CanFdMode && !closeOk {
          return false, true;
        }
        transportOpen := false;
        if done == 0 && mode == EcatMode {
          isConnected := false;
        }
        return false, false;
      }
      return true, false;
    }

    /** Close the library and the transport; nothing to do when not connected.
        Closing a CAN FD adapter that reports a failed close raises after the
        library is gone, leaving the controller connected. */
    method Disconnect(closeOk: bool) returns (raised: bool)
      modifies this`isConnected, this`libOpen, this`transportOpen
      ensures !old(isConnected) ==> !raised && unchanged(this)
      ensures old(isConnected) ==> !libOpen
      ensures old(isConnected) && !(mode == CanFdMode && old(transportOpen) && !closeOk) ==>
        !raised && !isConnected && !transportOpen
      ensures old(isConnected) && mode == CanFdMode && old(transportOpen) && !closeOk ==>
        raised && isConnected && transportOpen
    {
      if !isConnected {
        return false;
      }
      libOpen := false;
      if mode == CanFdMode && transportOpen && !closeOk {
        return true;
      }
      transportOpen := false;
      isConnected := false;
      raised := false;
    }

    /** Move every active joint to its position: refused when not ready or
        when the position count differs from the active joints; otherwise
        per-joint calls then one group move, failing at a call that raises. */
    method MoveToPositions(positions: seq<int>, velocity: int, maxCurrent: int) returns (ok: bool)
      modifies this`log
      ensures !Ready() ==> log == old(log)
      ensures Ready() ==> log == old(log) + MoveLog(faults, |old(log)|, dofActive, positions, velocity, maxCurrent)
      ensures ok <==> Ready() && MoveSucceeds(faults, |old(log)|, dofActive, positions)
    {
      if !isConnected || !libOpen {
        return false;
      }
      if |positions| != dofActive {
        return false;
      }
      ok := SendMove(positions, velocity, maxCurrent);
    }

    /** The calls of a move once its guards have passed. */
    method SendMove(positions: seq<int>, velocity: int, maxCurrent: int) returns (ok: bool)
      modifies this`log
      ensures log == old(log) + Issued(faults, |old(log)|, MoveCommands(positions, velocity, maxCurrent))
      ensures ok <==> FirstFault(faults, |old(log)|, 3 * |positions| + 1) == 3 * |positions| + 1
    {
      ghost var p := |log|;
      ghost var cmds := MoveCommands(positions, velocity, maxCurrent);
      ok := SendJoints(positions, velocity, maxCurrent);
      if !ok {
        return;
      }
      var done := Issue([MoveMotors(0)]);
      assert cmds[3 * |positions|..3 * |positions| + 1] == [MoveMotors(0)];
      IssuedStep(faults, p, cmds, 3 * |positions|, done, [MoveMotors(0)]);
      if done < 1 {
        return false;
      }
      IssuedUpTo(faults, p, cmds, |cmds|);
    }

    /** The per-joint calls of a move: target, velocity and current limit for
        each joint in turn, stopping at a call that raises. */
    method SendJoints(positions: seq<int>, velocity: int, maxCurrent: int) returns (ok: bool)
      modifies this`log
      ensures var cmds := MoveCommands(positions, velocity, maxCurrent);
        ok ==> log == old(log) + cmds[..3 * |positions|] &&
               forall q :: |old(log)| <= q < |old(log)| + 3 * |positions| ==> q !in faults
      ensures var cmds := MoveCommands(positions, velocity, maxCurrent);
        !ok ==> log == old(log) + Issued(faults, |old(log)|, cmds) &&
                FirstFault(faults, |old(log)|, |cmds|) < 3 * |positions|
    {
      ghost var p := |log|;
      ghost var cmds := MoveCommands(positions, velocity, maxCurrent);
      for j := 0 to |positions|
        invariant log == old(log) + cmds[..3 * j]
        invariant forall q :: p <= q < p + 3 * j ==> q !in faults
      {
        var motor := j + 1;
        var joint := [SetTargetPosition(motor, positions[j]), SetPositionVelocity(motor, velocity), SetMaxCurrent(motor, maxCurrent)];
        var done := Issue(joint);
        JointSlice(positions, velocity, maxCurrent, j);
        IssuedStep(faults, p, cmds, 3 * j, done, joint);
        if done < 3 {
          return false;
        }
      }
      return true;
    }

    /** Move through the position lists in order, stopping at the first move
        that fails; true only when every move went through. */
    method MoveSequence(lists: seq<seq<int>>, velocity: int, maxCurrent: int) returns (ok: bool)
      modifies this`log
      ensures !Ready() ==> !ok && log == old(log)
      ensures Ready() ==> log == old(log) + SequenceLog(faults, |old(log)|, dofActive, lists, velocity, maxCurrent)
      ensures ok <==> Ready() && SequenceSucceeds(faults, |old(log)|, dofActive, lists)
    {
      if !isConnected || !libOpen {
        return false;
      }
      var rest := lists;
      while rest != []
        invariant Ready()
        invariant old(log) + SequenceLog(faults, |old(log)|, dofActive, lists, velocity, maxCurrent)
          == log + SequenceLog(faults, |log|, dofActive, rest, velocity, maxCurrent)
        invariant SequenceSucceeds(faults, |old(log)|, dofActive, lists)
          == SequenceSucceeds(faults, |log|, dofActive, rest)
        decreases |rest|
      {
        ghost var before := log;
        var step := MoveToPositions(rest[0], velocity, maxCurrent);
        if !step {
          SequenceHalts(faults, dofActive, rest, velocity, maxCurrent, before, log);
          return false;
        }
        SequenceAdvance(faults, dofActive, rest, velocity, maxCurrent, before, log);
        MoveLogLength(faults, |before|, dofActive, rest[0], velocity, maxCurrent);
        SequenceSucceedsStep(faults, |before|, |log|, dofActive, rest);
        rest := rest[1..];
      }
      return true;
    }

    /** Move every active joint to 0. */
    method MoveToZero(velocity: int, maxCurrent: int) returns (ok: bool)
      modifies this`log
      ensures !Ready() ==> log == old(log)
      ensures Ready() ==> log == old(log) + MoveLog(faults, |old(log)|, dofActive, ZeroPositions(dofActive), velocity, maxCurrent)
      ensures ok <==> Ready() && MoveSucceeds(faults, |old(log)|, dofActive, ZeroPositions(dofActive))
    {
      var zeros := ZeroPositions(dofActive);
      ok := MoveToPositions(zeros, velocity, maxCurrent);
    }

    /** Stop all motors; a call that raises is reported and swallowed. */
    method StopAllMotors()
      modifies this`log
      ensures log == old(log) + (if Ready() then [StopMotors(0)] else [])
    {
      if !isConnected || !libOpen {
        return;
      }
      var _ := Call(StopMotors(0));
    }

    /** Query motors 1 to dofActive in turn and report an alarm at the first
        that answers 1; no alarm when not ready or when a query raises. */
    method GetAlarm() returns (alarm: bool)
      modifies this`log
      ensures !Ready() ==> log == old(log)
      ensures Ready() ==> log == old(log) + AlarmLog(faults, reading, |old(log)|, dofActive)
      ensures alarm <==> Ready() && AlarmRaised(faults, reading, |old(log)|, dofActive)
    {
      if !isConnected || !libOpen {
        return false;
      }
      alarm := ScanAlarms();
    }

    /** The alarm queries of `GetAlarm` once its guard has passed. */
    method ScanAlarms() returns (alarm: bool)
      modifies this`log
      ensures log == old(log) + AlarmLog(faults, reading, |old(log)|, dofActive)
      ensures alarm <==> AlarmRaised(faults, reading, |old(log)|, dofActive)
    {
      ghost var p := |log|;
      ghost var n := Joints(dofActive);
      var motor := 1;
      while motor <= dofActive
        invariant 1 <= motor <= n + 1
        invariant log == old(log) + AlarmQueries(motor - 1)
        invariant forall q :: p <= q < p + motor - 1 ==> q !in faults && reading(q) != 1
      {
        var position := |log|;
        var ok := Call(GetNowAlarm(motor));
        assert AlarmQueries(motor - 1) + [GetNowAlarm(motor)] == AlarmQueries(motor);
        if !ok {
          AlarmScanAt(faults, reading, p, n, motor - 1);
          return false;
        }
        if reading(position) == 1 {
          AlarmScanAt(faults, reading, p, n, motor - 1);
          return true;
        }
        motor := motor + 1;
      }
      AlarmScanAt(faults, reading, p, n, n);
      return false;
    }

    /** Hook the library calls to send a command frame: with the CAN FD
        adapter held and the controller connected, the frame goes out on
        identifier 0x501 and the hook reports whether the adapter sent it. */
    method CanFdSendHook(data: seq<byte>, sent: Result<bool, CanFd.CanFdError>)
      returns (request: Option<(int, seq<byte>)>, ok: bool)
      ensures mode == CanFdMode && transportOpen && isConnected ==>
        request == Some((SendId, data)) && (ok <==> sent == Ok(true))
      ensures !(mode == CanFdMode && transportOpen && isConnected) ==> request == None && !ok
    {
      if mode == CanFdMode && transportOpen && isConnected {
        request := Some((SendId, data));
        ok := sent == Ok(true);
      } else {
        request, ok := None, false;
      }
    }

    /** The adapter's receive hook: only reply frames (identifier 0x481) are
        handed to the library, and only while ready. */
    method CanFdReceiveHook(msg: CanFd.Message)
      modifies this`log
      ensures Ready() && msg.header.id == ReceiveId ==> log == old(log) + [DecodeCanFd(msg.data)]
      ensures !(Ready() && msg.header.id == ReceiveId) ==> log == old(log)
    {
      if libOpen && isConnected {
        if msg.header.id != ReceiveId {
          return;
        }
        log := log + [DecodeCanFd(msg.data)];
      }
    }

    /** Hook the library calls to send a process-data frame: with the master
        held, the frame is written to the slave outputs and the hook reports
        whether the master accepted it (`accepted`); false otherwise. */
    method EcatSendHook(data: seq<byte>, accepted: bool) returns (request: Option<seq<byte>>, ok: bool)
      ensures mode == EcatMode && transportOpen ==> request == Some(data) && ok == accepted
      ensures !(mode == EcatMode && transportOpen) ==> request == None && !ok
    {
      if mode == EcatMode && transportOpen {
        return Some(data), accepted;
      }
      return None, false;
    }
  }

  /** Construct a controller from a mode name; an unknown name raises. */
  method Create(name: string, faults: set<nat>, reading: nat -> int) returns (r: Result<Controller, string>)
    ensures r.Err? <==> ParseMode(name).Err?
    ensures r.Err? ==> r.error == Upper(name)
    ensures r.Ok? ==> fresh(r.value) && r.value.mode == ParseMode(name).value && !r.value.isConnected
  {
    match ParseMode(name)
    case Err(e) => return Err(e);
    case Ok(m) =>
      var c := new Controller(m, faults, reading);
      return Ok(c);
  }
}
