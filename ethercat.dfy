/**
 * EtherCAT master: choosing the physical network adapters, bringing the
 * slaves up to the operational state, and splitting the outgoing process
 * image across the slaves' output areas (and joining their input areas).
 *
 * The bus itself (the SOEM master behind pysoem) is not modelled: the
 * adapters it finds, the slaves it discovers and the answers of its state
 * checks are parameters of the methods that ask for them.
 */
module Ethercat {
  import opened Base

  /** Substrings that mark an adapter as virtual, wireless or loopback. */
  const ExcludeKeywords: seq<string> := [
    "lo", "docker", "veth", "br-", "virbr", "vmnet", "tap", "tun", "wlan", "wlp",
    "wlx", "wifi", "wwan", "bluetooth", "vboxnet", "wintun", "p2p", "loopback",
    "teredo", "isatap"]

  /** Number of OP state checks made, each after one process-data exchange,
      before the final one that decides. */
  const OpAttempts: nat := 10

  /** ASCII lower-casing of one character. */
  function LowerChar(c: char): char
  {
    if 'A' <= c <= 'Z' then (c as int + 32) as char else c
  }

  /** ASCII lower-casing of a name. */
  function Lower(s: string): (r: string)
    ensures |r| == |s|
    ensures forall i :: 0 <= i < |s| ==> r[i] == LowerChar(s[i])
  {
    seq(|s|, i requires 0 <= i < |s| => LowerChar(s[i]))
  }

  /** Whether `k` occurs in `s` as a contiguous substring. */
  predicate ContainsSub(s: string, k: string)
  {
    exists i :: 0 <= i <= |s| - |k| && k <= s[i..]
  }

  /** An adapter is left out when its lower-cased name contains any keyword. */
  predicate Excluded(name: string)
  {
    exists j :: 0 <= j < |ExcludeKeywords| && ContainsSub(Lower(name), ExcludeKeywords[j])
  }

  /** The adapters kept, in the order the bus reported them, under their original names. */
  function Physical(names: seq<string>): seq<string>
  {
    if names == [] then []
    else
      var last := names[|names| - 1];
      Physical(names[..|names| - 1]) + (if Excluded(last) then [] else [last])
  }

  /** The kept adapters are exactly the reported ones that no keyword excludes. */
  lemma {:induction false} PhysicalMembers(names: seq<string>)
    ensures |Physical(names)| <= |names|
    ensures forall x :: x in Physical(names) <==> x in names && !Excluded(x)
  {
    if names != [] {
      var init := names[..|names| - 1];
      PhysicalMembers(init);
      assert names == init + [names[|names| - 1]];
    }
  }

  /** Keywords match case-insensitively, and the loopback, container and
      wireless adapters are left out while an ordinary Ethernet port is kept. */
  lemma ExcludedExamples()
    ensures Excluded("lo") && Excluded("Docker0") && Excluded("wlan0")
    ensures !Excluded("eth0")
  {
    assert ExcludeKeywords[0] <= Lower("lo")[0..];
    assert ExcludeKeywords[1] <= Lower("Docker0")[0..];
    assert ExcludeKeywords[8] <= Lower("wlan0")[0..];
    var e := Lower("eth0");
    assert e == "eth0";
    forall j | 0 <= j < |ExcludeKeywords|
      ensures !ContainsSub(e, ExcludeKeywords[j])
    {
      var k := ExcludeKeywords[j];
      forall i | 0 <= i <= |e| - |k|
        ensures !(k <= e[i..])
      {
        assert k[0] != e[i] || k[1] != e[i + 1];
      }
    }
  }

  /** List the adapters the bus reports, leaving out the excluded ones. */
  method ScanNetworkInterfaces(adapters: seq<string>) returns (names: seq<string>)
    ensures names == Physical(adapters)
  {
    if |adapters| == 0 {
      return [];
    }
    names := [];
    for i := 0 to |adapters|
      invariant names == Physical(adapters[..i])
    {
      assert adapters[..i + 1][..i] == adapters[..i];
      if !Excluded(adapters[i]) {
        names := names + [adapters[i]];
      }
    }
    assert adapters[..|adapters|] == adapters;
  }

  /** A slave as configured: its name and its input and output areas of the process image. */
  datatype Slave = Slave(name: string, input: seq<byte>, output: seq<byte>)

  /** Which half of the process image is meant. */
  datatype Direction = In | Out

  /** A slave's area in one direction. */
  function Area(s: Slave, d: Direction): seq<byte>
  {
    if d == In then s.input else s.output
  }

  /** Total length of the slaves' areas in one direction. */
  function Size(slaves: seq<Slave>, d: Direction): nat
  {
    if slaves == [] then 0 else |Area(slaves[0], d)| + Size(slaves[1..], d)
  }

  /** The slaves' areas in one direction, joined in slave order. */
  function Image(slaves: seq<Slave>, d: Direction): (img: seq<byte>)
    ensures |img| == Size(slaves, d)
  {
    if slaves == [] then [] else Area(slaves[0], d) + Image(slaves[1..], d)
  }

  /** Byte offset at which slave `i`'s area starts within the image. */
  function Offset(slaves: seq<Slave>, d: Direction, i: nat): nat
    requires i <= |slaves|
  {
    if i == 0 then 0 else |Area(slaves[0], d)| + Offset(slaves[1..], d, i - 1)
  }

  /** Each slave's area sits in the joined image at its offset: joining
      loses nothing and mixes nothing. */
  lemma {:induction false} ImageSlice(slaves: seq<Slave>, d: Direction, i: nat)
    requires i < |slaves|
    ensures Offset(slaves, d, i) + |Area(slaves[i], d)| <= Size(slaves, d)
    ensures Image(slaves, d)[Offset(slaves, d, i)..Offset(slaves, d, i) + |Area(slaves[i], d)|] == Area(slaves[i], d)
  {
    if i > 0 {
      var tail := slaves[1..];
      ImageSlice(tail, d, i - 1);
      var head, rest, o, area := Area(slaves[0], d), Image(tail, d), Offset(tail, d, i - 1), Area(tail[i - 1], d);
      assert slaves[i] == tail[i - 1];
      assert Image(slaves, d) == head + rest;
      assert Offset(slaves, d, i) == |head| + o;
      SliceShift(head, rest, o, |area|);
    }
  }

  /** A slice of the second part of a concatenation, located in the whole. */
  lemma SliceShift(a: seq<byte>, b: seq<byte>, o: nat, n: nat)
    requires o + n <= |b|
    ensures (a + b)[|a| + o..|a| + o + n] == b[o..o + n]
  {
  }

  /** Handing the outgoing image to the slaves from byte `offset` on: each
      slave in turn takes as many bytes as its output area holds; at the first
      slave whose area would run past the end the walk stops, leaving it and
      the slaves after it unchanged. */
  function AssignOutputs(slaves: seq<Slave>, data: seq<byte>, offset: nat): (r: seq<Slave>)
    ensures |r| == |slaves|
    decreases |slaves|
  {
    if slaves == [] then []
    else
      var n := |slaves[0].output|;
      if offset + n > |data| then slaves
      else [slaves[0].(output := data[offset..offset + n])] + AssignOutputs(slaves[1..], data, offset + n)
  }

  /** Whether the walk from byte `offset` on reaches past the last slave
      without stopping. */
  predicate AssignCompletes(slaves: seq<Slave>, data: seq<byte>, offset: nat)
    decreases |slaves|
  {
    slaves == [] ||
    (offset + |slaves[0].output| <= |data| && AssignCompletes(slaves[1..], data, offset + |slaves[0].output|))
  }

  /** The walk completes exactly when the image from `offset` on is long enough
      for all output areas. */
  lemma {:induction false} AssignOutputsFits(slaves: seq<Slave>, data: seq<byte>, offset: nat)
    requires offset <= |data|
    ensures AssignCompletes(slaves, data, offset) <==> offset + Size(slaves, Out) <= |data|
    decreases |slaves|
  {
    if slaves != [] {
      var n := |slaves[0].output|;
      assert Size(slaves, Out) == n + Size(slaves[1..], Out);
      if offset + n <= |data| {
        AssignOutputsFits(slaves[1..], data, offset + n);
      }
    }
  }

  /** A completed walk leaves the slaves' outputs joining up to the part of
      the image from `offset` on that it handed out. */
  lemma {:induction false} AssignOutputsImage(slaves: seq<Slave>, data: seq<byte>, offset: nat, end: nat)
    requires end == offset + Size(slaves, Out) <= |data|
    ensures Image(AssignOutputs(slaves, data, offset), Out) == data[offset..end]
    decreases |slaves|
  {
    if slaves != [] {
      var n := |slaves[0].output|;
      var tail := slaves[1..];
      assert Size(slaves, Out) == n + Size(tail, Out);
      AssignOutputsImage(tail, data, offset + n, end);
      var chunk := slaves[0].(output := data[offset..offset + n]);
      AssignHead(slaves, data, offset);
      JoinImage(AssignOutputs(slaves, data, offset), chunk, AssignOutputs(tail, data, offset + n),
                data[offset..offset + n], data[offset + n..end]);
      SliceSplit(data, offset, offset + n, end);
    }
  }

  /** The first slave takes the first chunk when it fits. */
  lemma AssignHead(slaves: seq<Slave>, data: seq<byte>, offset: nat)
    requires slaves != [] && offset + |slaves[0].output| <= |data|
    ensures
      var n := |slaves[0].output|;
      AssignOutputs(slaves, data, offset)
        == [slaves[0].(output := data[offset..offset + n])] + AssignOutputs(slaves[1..], data, offset + n)
  {
  }

  /** The outgoing image of a list is its first slave's output followed by the rest's. */
  lemma JoinImage(r: seq<Slave>, first: Slave, rest: seq<Slave>, a: seq<byte>, b: seq<byte>)
    requires r == [first] + rest && first.output == a && Image(rest, Out) == b
    ensures Image(r, Out) == a + b
  {
    assert r[0] == first && r[1..] == rest;
  }

  /** The slice from the start to the end is the whole sequence. */
  lemma WholeSlice(data: seq<byte>)
    ensures data[0..|data|] == data
  {
  }

  /** A slice is the join of its two halves. */
  lemma SliceSplit(data: seq<byte>, a: nat, b: nat, c: nat)
    requires a <= b <= c <= |data|
    ensures data[a..c] == data[a..b] + data[b..c]
  {
  }

  /** An image of exactly the output size ends up joined in the slaves' outputs. */
  lemma AssignOutputsJoin(original: seq<Slave>, data: seq<byte>)
    requires |data| == Size(original, Out)
    ensures Image(AssignOutputs(original, data, 0), Out) == data
  {
    AssignOutputsImage(original, data, 0, |data|);
    WholeSlice(data);
  }

  /** The walk changes only output areas, and keeps their lengths. */
  lemma {:induction false} AssignOutputsShape(slaves: seq<Slave>, data: seq<byte>, offset: nat)
    ensures forall i :: 0 <= i < |slaves| ==>
      AssignOutputs(slaves, data, offset)[i].name == slaves[i].name
      && AssignOutputs(slaves, data, offset)[i].input == slaves[i].input
      && |AssignOutputs(slaves, data, offset)[i].output| == |slaves[i].output|
    decreases |slaves|
  {
    if slaves != [] && offset + |slaves[0].output| <= |data| {
      AssignOutputsShape(slaves[1..], data, offset + |slaves[0].output|);
    }
  }

  /** Handing the slaves the image their outputs already join up to changes nothing. */
  lemma {:induction false} AssignOwnImage(slaves: seq<Slave>, prefix: seq<byte>)
    ensures AssignOutputs(slaves, prefix + Image(slaves, Out), |prefix|) == slaves
    ensures AssignCompletes(slaves, prefix + Image(slaves, Out), |prefix|)
    decreases |slaves|
  {
    if slaves != [] {
      var out := slaves[0].output;
      var tail := slaves[1..];
      var data := prefix + Image(slaves, Out);
      var next := |prefix| + |out|;
      assert Image(slaves, Out) == out + Image(tail, Out);
      assert data == (prefix + out) + Image(tail, Out);
      AssignOwnImage(tail, prefix + out);
      assert |prefix + out| == next;
      assert AssignOutputs(tail, data, next) == tail && AssignCompletes(tail, data, next);
      assert data[|prefix|..next] == out;
      assert slaves[0].(output := out) == slaves[0];
      assert AssignOutputs(slaves, data, |prefix|) == [slaves[0]] + AssignOutputs(tail, data, next);
      assert [slaves[0]] + tail == slaves;
    }
  }

  /** Every slave's output area cleared to zeros, lengths kept. */
  function ZeroOutputs(slaves: seq<Slave>): (r: seq<Slave>)
    ensures |r| == |slaves|
  {
    seq(|slaves|, i requires 0 <= i < |slaves| => slaves[i].(output := Zeros(|slaves[i].output|)))
  }

  /** Position in a list of `n` of the Python index `i` (negative counts from the end). */
  function PyIndex(n: nat, i: int): (k: Option<nat>)
    ensures k.Some? <==> -(n as int) <= i < n
    ensures k.Some? ==> k.value < n && (k.value == i || k.value == n + i)
  {
    if 0 <= i < n then Some(i) else if -(n as int) <= i < 0 then Some((n + i) as nat) else None
  }

  /** How many of the OP checks in the retry loop run: it stops after the
      first one that reports OP, and after `OpAttempts` at most. */
  function LoopChecks(opAt: nat -> bool, k: nat): (n: nat)
    requires k <= OpAttempts
    ensures k <= n <= OpAttempts
    ensures n > k ==> opAt(n - 1) || n == OpAttempts
    ensures forall j :: k <= j < n - 1 ==> !opAt(j)
    decreases OpAttempts - k
  {
    if k == OpAttempts then k
    else if opAt(k) then k + 1
    else LoopChecks(opAt, k + 1)
  }

  /** The walk handing the image `data` to the slaves, slave by slave, on a copy of the list. */
  method HandOut(original: seq<Slave>, data: seq<byte>) returns (current: seq<Slave>, ok: bool)
    ensures current == AssignOutputs(original, data, 0)
    ensures ok == AssignCompletes(original, data, 0)
  {
    var done: seq<Slave> := [];
    var rest := original;
    var offset: nat := 0;
    while rest != []
      invariant AssignOutputs(original, data, 0) == done + AssignOutputs(rest, data, offset)
      invariant AssignCompletes(original, data, 0) == AssignCompletes(rest, data, offset)
      decreases |rest|
    {
      var n := |rest[0].output|;
      if offset + n > |data| {
        return done + rest, false;
      }
      var chunk := rest[0].(output := data[offset..offset + n]);
      AssignHead(rest, data, offset);
      Regroup(done, [chunk], AssignOutputs(rest[1..], data, offset + n), AssignOutputs(rest, data, offset), done + [chunk]);
      done, rest, offset := done + [chunk], rest[1..], offset + n;
    }
    assert done + [] == done;
    return done, true;
  }

  /** Every slave's output area overwritten with zeros, slave by slave, on a copy of the list. */
  method ClearOutputs(slaves: seq<Slave>) returns (cleared: seq<Slave>)
    ensures cleared == ZeroOutputs(slaves)
  {
    cleared := slaves;
    for i := 0 to |cleared|
      invariant |cleared| == |slaves|
      invariant cleared[..i] == ZeroOutputs(slaves)[..i]
      invariant cleared[i..] == slaves[i..]
    {
      cleared := cleared[i := cleared[i].(output := Zeros(|cleared[i].output|))];
    }
  }

  /** The slaves' input areas appended one after another. */
  method JoinInputs(slaves: seq<Slave>) returns (inputs: seq<byte>)
    ensures inputs == Image(slaves, In)
  {
    inputs := [];
    var rest := slaves;
    while rest != []
      invariant inputs + Image(rest, In) == Image(slaves, In)
      decreases |rest|
    {
      Regroup(inputs, rest[0].input, Image(rest[1..], In), Image(rest, In), inputs + rest[0].input);
      inputs := inputs + rest[0].input;
      rest := rest[1..];
    }
    assert inputs + [] == inputs;
  }

  /** The EtherCAT master. */
  class EthercatMaster {
    var slaves: seq<Slave>
    var inputSize: nat
    var outputSize: nat
    /** Whether the background process-data thread runs. */
    var running: bool
    var ifname: Option<string>
    /** Whether the network port is open. */
    var portOpen: bool
    /** Whether OP is the state last requested of the slaves. */
    var operational: bool

    constructor ()
      ensures slaves == [] && inputSize == 0 && outputSize == 0
      ensures !running && ifname == None && !portOpen && !operational
    {
      slaves := [];
      inputSize, outputSize := 0, 0;
      running := false;
      ifname := None;
      portOpen := false;
      operational := false;
    }

    /** The OP retry loop and the final check: `opAt(k)` is the answer of the
        k-th OP state check. Succeeds only if the final check reports OP. */
    method AwaitOperational(opAt: nat -> bool) returns (reached: bool, checks: nat)
      ensures checks == LoopChecks(opAt, 0) + 1
      ensures 2 <= checks + 1 <= OpAttempts + 2
      ensures reached == opAt(checks - 1)
    {
      checks := 0;
      var attempt := 0;
      while attempt < OpAttempts
        invariant 0 <= attempt <= OpAttempts && checks == attempt
        invariant LoopChecks(opAt, 0) == LoopChecks(opAt, attempt)
      {
        var answer := opAt(checks);
        checks := checks + 1;
        if answer {
          break;
        }
        attempt := attempt + 1;
      }
      reached := opAt(checks);
      checks := checks + 1;
    }

    /** Bring the master up on the adapter at `channelIndex` of `ifaces`:
        open the port, discover the slaves (kept from here on even if a later
        step fails), wait for SAFEOP, request OP and retry until the final
        check reports it, then size the process image and clear all outputs.
        Every failure, including a bad index, gives false. */
    method Init(channelIndex: int, ifaces: seq<string>, openOk: bool, found: int,
                discovered: seq<Slave>, safeOp: bool, opAt: nat -> bool) returns (ok: bool)
      modifies this
      ensures running == old(running)
      ensures PyIndex(|ifaces|, channelIndex).None? ==> !ok && unchanged(this)
      ensures ok <==> PyIndex(|ifaces|, channelIndex).Some? && openOk && found > 0 && safeOp
                      && opAt(LoopChecks(opAt, 0))
      ensures PyIndex(|ifaces|, channelIndex).Some? && openOk && found > 0 ==>
        slaves == (if ok then ZeroOutputs(discovered) else discovered)
      ensures PyIndex(|ifaces|, channelIndex).Some? ==>
        ifname == Some(ifaces[PyIndex(|ifaces|, channelIndex).value])
      ensures portOpen == (old(portOpen) || (PyIndex(|ifaces|, channelIndex).Some? && openOk))
      ensures !(PyIndex(|ifaces|, channelIndex).Some? && openOk && found > 0) ==> slaves == old(slaves)
      ensures operational == (old(operational) || (PyIndex(|ifaces|, channelIndex).Some? && openOk && found > 0 && safeOp))
      ensures ok ==> inputSize == Size(discovered, In) && outputSize == Size(discovered, Out)
      ensures !ok ==> inputSize == old(inputSize) && outputSize == old(outputSize)
      ensures ok ==> Size(slaves, Out) == outputSize && Image(slaves, Out) == Zeros(outputSize)
    {
      var k := PyIndex(|ifaces|, channelIndex);
      if k.None? {
        return false;
      }
      ifname := Some(ifaces[k.value]);
      if !openOk {
        return false;
      }
      portOpen := true;
      if found <= 0 {
        return false;
      }
      slaves := discovered;
      if !safeOp {
        return false;
      }
      operational := true;
      var reached, _ := AwaitOperational(opAt);
      if !reached {
        return false;
      }
      inputSize := Size(slaves, In);
      outputSize := Size(slaves, Out);
      slaves := ClearOutputs(slaves);
      ZeroOutputsImage(discovered);
      ok := true;
    }

    /** Put the slaves back into INIT and close the port; the process-data
        thread is not told to stop. */
    method Stop()
      modifies this`operational, this`portOpen
      ensures !operational && !portOpen
    {
      operational := false;
      portOpen := false;
    }

    /** Start the process-data thread unless it already runs. */
    method Run() returns (started: bool)
      modifies this`running
      ensures started <==> !old(running)
      ensures running
    {
      if running {
        return false;
      }
      running := true;
      started := true;
    }

    /** Hand the outgoing process image to the slaves. An image whose length
        is not the output size is refused outright; otherwise the slaves
        take their chunks in order, and a slave whose chunk would run past
        the image refuses the rest (possible when the sizes are stale). */
    method SetOutputs(data: seq<byte>, size: int) returns (ok: bool)
      modifies this`slaves
      ensures |data| != outputSize ==> !ok && slaves == old(slaves)
      ensures |data| == outputSize ==> slaves == AssignOutputs(old(slaves), data, 0)
      ensures |data| == outputSize ==> (ok <==> Size(old(slaves), Out) <= |data|)
      ensures |data| == outputSize == Size(old(slaves), Out) ==> ok && Image(slaves, Out) == data
    {
      if |data| != outputSize {
        return false;
      }
      var current;
      current, ok := HandOut(slaves, data);
      AssignOutputsFits(old(slaves), data, 0);
      if |data| == Size(old(slaves), Out) {
        AssignOutputsJoin(old(slaves), data);
      }
      slaves := current;
    }

    /** The incoming process image: the slaves' input areas joined in order,
        or nothing when `size` is not the input size. Where each slave's area
        sits in it is `ImageSlice`. */
    method GetInputs(size: int) returns (r: Option<seq<byte>>)
      ensures size != inputSize ==> r == None
      ensures size == inputSize ==> r == Some(Image(slaves, In))
    {
      if size != inputSize {
        return None;
      }
      var inputs := JoinInputs(slaves);
      r := Some(inputs);
    }
  }

  /** Clearing the outputs keeps the output size and makes the outgoing image all zeros. */
  lemma {:induction false} ZeroOutputsImage(slaves: seq<Slave>)
    ensures Size(ZeroOutputs(slaves), Out) == Size(slaves, Out)
    ensures Image(ZeroOutputs(slaves), Out) == Zeros(Size(slaves, Out))
    ensures Size(ZeroOutputs(slaves), In) == Size(slaves, In)
    decreases |slaves|
  {
    if slaves != [] {
      ZeroOutputsImage(slaves[1..]);
      assert ZeroOutputs(slaves)[1..] == ZeroOutputs(slaves[1..]);
      var n := |slaves[0].output|;
      assert Zeros(Size(slaves, Out)) == Zeros(n) + Zeros(Size(slaves[1..], Out));
    }
  }
}
