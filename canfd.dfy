/**
 * CAN FD bus adapter: the data-length-code table, the zero-padded 64-byte
 * transmit frame, the receive-side truncation of a frame to its code's length,
 * and the adapter's connect/disconnect/callback state.
 *
 * The vendor driver (CAN_OpenDevice, CANFD_Init, CANFD_Transmit, CAN_CloseDevice)
 * is not modelled: each call is recorded in `calls` and its status code is a
 * parameter of the method that makes it.
 */
module CanFd {
  import opened Base

  /** Data field length for each CAN FD data length code 0..15 (ISO 11898-1:2015). */
  const DlcToLen: seq<nat> := [0, 1, 2, 3, 4, 5, 6, 7, 8, 12, 16, 20, 24, 32, 48, 64]

  /** Largest payload a CAN FD frame carries. */
  const MaxPayload: nat := 64

  /** Status code with which the driver reports success. */
  const StatusOk: int := 0

  /** Frame type `send` uses unless told otherwise (a CAN FD frame). */
  const DefaultFrameType: int := 0x04

  /** The 64-byte data field of a driver frame. */
  type DataField = s: seq<byte> | |s| == 64 witness seq(64, _ => 0)

  /** Header fields of a driver frame, as in the driver's message structure. */
  datatype Header = Header(
    id: int, timeStamp: int, frameType: int, dlc: nat,
    externFlag: int, remoteFlag: int, busStatus: int, errStatus: int,
    teCounter: int, reCounter: int)

  /** A frame as the driver transmits or delivers it: a header and the full data field. */
  datatype Frame = Frame(header: Header, data: DataField)

  /** A received frame converted for the receive callback: the header, the
      length its code stands for, and only that many data bytes. */
  datatype Message = Message(header: Header, dataLen: nat, data: seq<byte>)

  /** Every failure the adapter reports (all raised as one exception type). */
  datatype CanFdError =
    | NotConnected
    | PayloadTooLong(length: nat)
    | OpenFailed(status: int)
    | InitFailed(status: int)
    | CloseFailed(status: int)
    | TransmitFailed(count: int)

  /** A driver call, in the order the adapter makes them. */
  datatype DriverCall =
    | OpenDevice(device: int, channel: int)
    | InitChannel(device: int, channel: int, nomBaud: int, datBaud: int)
    | CloseDevice(device: int, channel: int)
    | Transmit(frame: Frame)

  /** Position of the first entry of `table` equal to `v`, if any. */
  function FindIndex(table: seq<nat>, v: nat): (r: Option<nat>)
    ensures r.Some? ==> r.value < |table| && table[r.value] == v
    ensures r.Some? ==> forall k :: 0 <= k < r.value ==> table[k] != v
    ensures r.None? <==> v !in table
  {
    if |table| == 0 then None
    else if table[0] == v then Some(0)
    else match FindIndex(table[1..], v)
      case None => None
      case Some(i) => Some(i + 1)
  }

  /** Position of the first entry of `table` equal to `v`, or `default`. */
  function FindIndexOr(table: seq<nat>, v: nat, default: nat): (r: nat)
    ensures v in table ==> FindIndex(table, v) == Some(r)
    ensures v !in table ==> r == default
  {
    match FindIndex(table, v)
    case Some(i) => i
    case None => default
  }

  /** The data length code `send` writes into every frame: the code of a
      64-byte field, or 15 should the table hold none. */
  function SendDlc(): nat
  {
    FindIndexOr(DlcToLen, MaxPayload, 15)
  }

  /** The table is the standard one: codes 0..8 stand for themselves and
      lengths grow strictly with the code, up to 64 bytes at code 15. */
  lemma DlcTable()
    ensures |DlcToLen| == 16
    ensures forall d :: 0 <= d <= 8 ==> DlcToLen[d] == d
    ensures forall d :: 0 <= d < 15 ==> DlcToLen[d] < DlcToLen[d + 1]
    ensures forall d :: 0 <= d < 15 ==> DlcToLen[d] < MaxPayload
    ensures DlcToLen[15] == MaxPayload
  {
  }

  /** An entry that is the first one equal to `v` is the one `FindIndex` finds. */
  lemma FindIndexFirst(table: seq<nat>, v: nat, i: nat)
    requires i < |table| && table[i] == v
    requires forall k :: 0 <= k < i ==> table[k] != v
    ensures FindIndex(table, v) == Some(i)
  {
    assert v in table;
  }

  /** `send` always uses code 15, the code of a 64-byte field. */
  lemma SendDlcIs15()
    ensures SendDlc() == 15 && DlcToLen[SendDlc()] == MaxPayload
  {
    DlcTable();
    FindIndexFirst(DlcToLen, MaxPayload, 15);
  }

  /** The data field `send` transmits: the payload followed by zero bytes up to 64. */
  method BuildDataField(data: seq<byte>) returns (field: seq<byte>)
    requires |data| <= MaxPayload
    ensures |field| == MaxPayload
    ensures field == data + Zeros(MaxPayload - |data|)
  {
    var buffer := new byte[64];
    for i := 0 to 64
      invariant forall k :: 0 <= k < i ==> buffer[k] == 0
    {
      buffer[i] := 0;
    }
    for i := 0 to |data|
      invariant forall k :: 0 <= k < i ==> buffer[k] == data[k]
      invariant forall k :: |data| <= k < 64 ==> buffer[k] == 0
    {
      buffer[i] := data[i];
    }
    field := buffer[..];
    assert forall k :: 0 <= k < 64 ==> field[k] == (data + Zeros(MaxPayload - |data|))[k];
  }

  /** Conversion of one received frame for the callback. A code outside the
      table makes the lookup fail, which the receive thread does not survive. */
  function ToMessage(f: Frame): (m: Option<Message>)
    ensures m.Some? <==> f.header.dlc < |DlcToLen|
    ensures m.Some? ==> m.value.header == f.header && m.value.dataLen == DlcToLen[f.header.dlc]
    ensures m.Some? ==> |m.value.data| == m.value.dataLen <= MaxPayload
    ensures m.Some? ==> m.value.data == f.data[..m.value.dataLen]
  {
    if f.header.dlc < |DlcToLen| then
      var n := DlcToLen[f.header.dlc];
      Some(Message(f.header, n, f.data[..n]))
    else
      None
  }

  /** What one batch of received frames yields: the messages handed to the
      callback in order, and whether a frame ended the thread. */
  function Convert(frames: seq<Frame>): (r: (seq<Message>, bool))
    ensures |r.0| <= |frames|
    ensures forall i :: 0 <= i < |r.0| ==> ToMessage(frames[i]) == Some(r.0[i])
    ensures r.1 <==> |r.0| < |frames|
    ensures r.1 ==> ToMessage(frames[|r.0|]).None?
  {
    if frames == [] then ([], false)
    else match ToMessage(frames[0])
      case None => ([], true)
      case Some(m) =>
        var rest := Convert(frames[1..]);
        ([m] + rest.0, rest.1)
  }

  /** A frame `send` built, looped back to the receive side, hands the
      callback the payload followed by the padding zeros, the whole 64 bytes. */
  lemma {:induction false} LoopbackPayload(h: Header, data: seq<byte>, field: seq<byte>)
    requires |data| <= MaxPayload && h.dlc == 15
    requires field == data + Zeros(MaxPayload - |data|)
    ensures ToMessage(Frame(h, field)).Some?
    ensures ToMessage(Frame(h, field)).value.dataLen == MaxPayload
    ensures ToMessage(Frame(h, field)).value.data[..|data|] == data
    ensures forall k :: |data| <= k < MaxPayload ==> ToMessage(Frame(h, field)).value.data[k] == 0
  {
    assert DlcToLen[15] == MaxPayload;
    PaddedField(data, MaxPayload, field);
    var m := ToMessage(Frame(h, field)).value;
    assert m.dataLen == MaxPayload;
    assert field[..MaxPayload] == field;
    assert m.data == field;
  }

  /** The payload padded with zeros to `n` bytes starts with the payload and
      holds only zeros after it. */
  lemma PaddedField(data: seq<byte>, n: nat, field: seq<byte>)
    requires |data| <= n && field == data + Zeros(n - |data|)
    ensures |field| == n && field[..|data|] == data
    ensures forall k :: |data| <= k < n ==> field[k] == 0
  {
    var pad := Zeros(n - |data|);
    forall k | |data| <= k < n
      ensures field[k] == 0
    {
      assert field[k] == pad[k - |data|];
    }
  }

  /** The CAN FD adapter. */
  class CanFdBus {
    var connected: bool
    var deviceIndex: int
    var channelIndex: int
    var receiveCallback: Option<Handler>
    /** Whether the receive thread is alive. */
    var receiveThreadAlive: bool
    /** Driver calls made so far. */
    var calls: seq<DriverCall>

    /** A receive thread only runs over an open device. */
    ghost predicate Valid()
      reads this
    {
      receiveThreadAlive ==> connected
    }

    constructor ()
      ensures Valid()
      ensures !connected && !receiveThreadAlive && receiveCallback == None
      ensures deviceIndex == 0 && channelIndex == 0 && calls == []
    {
      connected := false;
      deviceIndex, channelIndex := 0, 0;
      receiveCallback := None;
      receiveThreadAlive := false;
      calls := [];
    }

    /** Open the device and initialise its channel for CAN FD. When the
        channel cannot be initialised the device is closed again before the
        error is raised; the adapter is marked connected only once both succeed. */
    method Connect(device: int, channel: int, nomBaud: int, datBaud: int, openStatus: int, initStatus: int)
      returns (r: Result<bool, CanFdError>)
      requires Valid()
      modifies this
      ensures Valid()
      ensures deviceIndex == device && channelIndex == channel
      ensures receiveCallback == old(receiveCallback) && receiveThreadAlive == old(receiveThreadAlive)
      ensures openStatus != StatusOk ==>
        r == Err(OpenFailed(openStatus)) && connected == old(connected)
        && calls == old(calls) + [OpenDevice(device, channel)]
      ensures openStatus == StatusOk && initStatus != StatusOk ==>
        r == Err(InitFailed(initStatus)) && connected == old(connected)
        && calls == old(calls) + [OpenDevice(device, channel), InitChannel(device, channel, nomBaud, datBaud), CloseDevice(device, channel)]
      ensures openStatus == StatusOk && initStatus == StatusOk ==>
        r == Ok(true) && connected
        && calls == old(calls) + [OpenDevice(device, channel), InitChannel(device, channel, nomBaud, datBaud)]
    {
      deviceIndex, channelIndex := device, channel;
      calls := calls + [OpenDevice(device, channel)];
      if openStatus != StatusOk {
        return Err(OpenFailed(openStatus));
      }
      calls := calls + [InitChannel(device, channel, nomBaud, datBaud)];
      if initStatus != StatusOk {
        calls := calls + [CloseDevice(device, channel)];
        return Err(InitFailed(initStatus));
      }
      connected := true;
      r := Ok(true);
    }

    /** Close the device. Without a connection this succeeds at once and does
        nothing; otherwise the receive thread is stopped and the device closed,
        and only a successful close clears the connection and the callback. */
    method Disconnect(closeStatus: int) returns (r: Result<bool, CanFdError>)
      requires Valid()
      modifies this
      ensures Valid()
      ensures deviceIndex == old(deviceIndex) && channelIndex == old(channelIndex)
      ensures !old(connected) ==> r == Ok(true) && unchanged(this)
      ensures old(connected) ==>
        !receiveThreadAlive && calls == old(calls) + [CloseDevice(deviceIndex, channelIndex)]
      ensures old(connected) && closeStatus != StatusOk ==>
        r == Err(CloseFailed(closeStatus)) && connected && receiveCallback == old(receiveCallback)
      ensures old(connected) && closeStatus == StatusOk ==>
        r == Ok(true) && !connected && receiveCallback == None
    {
      if !connected {
        return Ok(true);
      }
      receiveThreadAlive := false;
      calls := calls + [CloseDevice(deviceIndex, channelIndex)];
      if closeStatus != StatusOk {
        return Err(CloseFailed(closeStatus));
      }
      connected := false;
      receiveCallback := None;
      r := Ok(true);
    }

    /** Transmit `data` under `id` as one 64-byte CAN FD frame with code 15,
        padded with zeros. Fails without a connection, for a payload over 64
        bytes, and when the driver does not report exactly one frame sent. */
    method Send(id: int, data: seq<byte>, frameType: int, externFlag: int, remoteFlag: int, sentCount: int)
      returns (r: Result<bool, CanFdError>)
      requires Valid()
      modifies this`calls
      ensures !old(connected) ==> r == Err(NotConnected) && calls == old(calls)
      ensures old(connected) && |data| > MaxPayload ==> r == Err(PayloadTooLong(|data|)) && calls == old(calls)
      ensures old(connected) && |data| <= MaxPayload ==>
        |calls| == |old(calls)| + 1 && calls[..|old(calls)|] == old(calls)
        && calls[|old(calls)|] == Transmit(Frame(
             Header(id, 0, frameType, 15, externFlag, remoteFlag, 0, 0, 0, 0),
             data + Zeros(MaxPayload - |data|)))
        && r == (if sentCount == 1 then Ok(true) else Err(TransmitFailed(sentCount)))
    {
      if !connected {
        return Err(NotConnected);
      }
      if |data| > MaxPayload {
        return Err(PayloadTooLong(|data|));
      }
      SendDlcIs15();
      var dlc := SendDlc();
      var field := BuildDataField(data);
      var frame := Frame(Header(id, 0, frameType, dlc, externFlag, remoteFlag, 0, 0, 0, 0), field);
      calls := calls + [Transmit(frame)];
      if sentCount != 1 {
        return Err(TransmitFailed(sentCount));
      }
      r := Ok(true);
    }

    /** Install (or, with `None`, remove) the receive callback. A callback
        starts the receive thread unless one is alive; starting it needs a
        connection, and the callback is stored even when that fails. */
    method SetReceiveCallback(callback: Option<Handler>) returns (r: Result<bool, CanFdError>)
      requires Valid()
      modifies this`receiveCallback, this`receiveThreadAlive
      ensures Valid()
      ensures receiveCallback == callback
      ensures callback.None? || old(receiveThreadAlive) ==> r == Ok(true) && receiveThreadAlive == old(receiveThreadAlive)
      ensures callback.Some? && !old(receiveThreadAlive) ==>
        (if connected then r == Ok(true) && receiveThreadAlive
         else r == Err(NotConnected) && !receiveThreadAlive)
    {
      receiveCallback := callback;
      if callback.Some? && !receiveThreadAlive {
        if !connected {
          return Err(NotConnected);
        }
        receiveThreadAlive := true;
      }
      r := Ok(true);
    }

    /** One poll of the receive thread, as written: the frames the driver
        returned are converted and handed to the callback in order (none
        without a callback). A frame whose code has no length ends the thread.
        Its handler then calls `disconnect` from inside that thread: the join on
        the thread itself raises before the device is closed, and the handler
        swallows the error, so the adapter stays connected with its callback
        and no driver call is made. */
    method ReceivePoll(frames: seq<Frame>) returns (delivered: seq<Message>)
      requires Valid()
      modifies this
      ensures Valid()
      ensures old(receiveCallback).None? ==> delivered == [] && unchanged(this)
      ensures old(receiveCallback).Some? ==> delivered == Convert(frames).0
      ensures old(receiveCallback).Some? && Convert(frames).1 ==>
        !receiveThreadAlive && connected == old(connected) && receiveCallback == old(receiveCallback)
        && calls == old(calls) && deviceIndex == old(deviceIndex) && channelIndex == old(channelIndex)
      ensures !(old(receiveCallback).Some? && Convert(frames).1) ==> unchanged(this)
    {
      delivered := [];
      if receiveCallback.None? {
        return;
      }
      var crashed;
      delivered, crashed := DispatchBatch(frames);
      if crashed {
        receiveThreadAlive := false;
      }
    }

    /** One poll of the receive thread as its crash handler means it: once the
        thread has ended, a connected adapter is disconnected, closing the
        device, and a successful close clears the connection and the callback. */
    method ReceivePollClosing(frames: seq<Frame>, closeStatus: int) returns (delivered: seq<Message>)
      requires Valid()
      modifies this
      ensures Valid()
      ensures old(receiveCallback).None? ==> delivered == [] && unchanged(this)
      ensures old(receiveCallback).Some? ==> delivered == Convert(frames).0
      ensures old(receiveCallback).Some? && Convert(frames).1 ==> !receiveThreadAlive
      ensures old(receiveCallback).Some? && Convert(frames).1 && old(connected) ==>
        calls == old(calls) + [CloseDevice(deviceIndex, channelIndex)]
        && (closeStatus == StatusOk ==> !connected && receiveCallback == None)
      ensures !(old(receiveCallback).Some? && Convert(frames).1) ==> unchanged(this)
    {
      delivered := [];
      if receiveCallback.None? {
        return;
      }
      var crashed;
      delivered, crashed := DispatchBatch(frames);
      if crashed {
        receiveThreadAlive := false;
        if connected {
          var _ := Disconnect(closeStatus);
        }
      }
    }
  }

  /** The conversion loop of the receive thread over one batch. */
  method DispatchBatch(frames: seq<Frame>) returns (delivered: seq<Message>, crashed: bool)
    ensures (delivered, crashed) == Convert(frames)
  {
    delivered := [];
    var rest := frames;
    while rest != []
      invariant Convert(frames).0 == delivered + Convert(rest).0
      invariant Convert(frames).1 == Convert(rest).1
      decreases |rest|
    {
      var m := ToMessage(rest[0]);
      if m.None? {
        assert Convert(rest) == ([], true);
        assert delivered + [] == delivered;
        return delivered, true;
      }
      delivered := delivered + [m.value];
      rest := rest[1..];
    }
    assert Convert(rest) == ([], false);
    assert delivered + [] == delivered;
    assert Convert(frames).0 == delivered;
    crashed := false;
  }
}
