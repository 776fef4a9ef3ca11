/**
 * Data-glove receiver: the JSON datagrams a glove application sends over
 * UDP, parsed into one record per glove device (calibration status of each
 * hand and six finger angles per hand).
 *
 * Decoding bytes into JSON and the socket are not modelled: a datagram
 * arrives already decoded (or marked undecodable), and converting a string
 * to a float is the parameter `parse`.
 */
module Glove {
  import opened Base

  /** A decoded JSON value. An object keeps its members in document order. */
  datatype Json =
    | JNull
    | JBool(b: bool)
    | JNum(x: real)
    | JStr(s: string)
    | JArr(items: seq<Json>)
    | JObj(members: seq<(string, Json)>)

  /** A datagram's payload: JSON text that decodes, or text that does not. */
  datatype Payload = Undecodable | Decoded(value: Json)

  /** Conversion of a string to a float; `None` where the conversion raises. */
  type Parser = string -> Option<real>

  /** Python truthiness of a JSON value. */
  predicate Truthy(v: Json)
  {
    match v
    case JNull => false
    case JBool(b) => b
    case JNum(x) => x != 0.0
    case JStr(s) => s != ""
    case JArr(items) => items != []
    case JObj(members) => members != []
  }

  /** The member `key` of an object's members (the last one should the key
      repeat, as decoding keeps), or `default`. */
  function Get(members: seq<(string, Json)>, key: string, default: Json): (v: Json)
    ensures v == default || exists i :: 0 <= i < |members| && members[i] == (key, v)
    decreases |members|
  {
    if members == [] then default
    else if members[|members| - 1].0 == key then members[|members| - 1].1
    else
      var v := Get(members[..|members| - 1], key, default);
      assert v == default || exists i :: 0 <= i < |members| - 1 && members[i] == (key, v);
      v
  }

  /** A missing key gives the default; otherwise the value of the key's last occurrence. */
  lemma {:induction false} GetLast(members: seq<(string, Json)>, key: string, default: Json)
    ensures (forall i :: 0 <= i < |members| ==> members[i].0 != key) ==> Get(members, key, default) == default
    ensures forall i :: 0 <= i < |members| && members[i].0 == key ==>
              ((forall j :: i < j < |members| ==> members[j].0 != key) ==> Get(members, key, default) == members[i].1)
    decreases |members|
  {
    if members != [] {
      var init := members[..|members| - 1];
      GetLast(init, key, default);
      assert forall i :: 0 <= i < |init| ==> init[i] == members[i];
    }
  }

  /** A named parameter value. */
  datatype Parameter = Parameter(name: string, value: real)

  /** A list of parameters as a table; a later parameter of the same name
      replaces an earlier one. */
  function ToMap(params: seq<Parameter>): map<string, real>
  {
    if params == [] then map[]
    else
      var last := params[|params| - 1];
      ToMap(params[..|params| - 1])[last.name := last.value]
  }

  /** The table holds exactly the names in the list. */
  lemma {:induction false} ToMapKeys(params: seq<Parameter>)
    ensures forall k :: k in ToMap(params) <==> exists i :: 0 <= i < |params| && params[i].name == k
  {
    if params != [] {
      var init := params[..|params| - 1];
      ToMapKeys(init);
      forall k | k in ToMap(params)
        ensures exists i :: 0 <= i < |params| && params[i].name == k
      {
        if k != params[|params| - 1].name {
          assert k in ToMap(init);
          var i :| 0 <= i < |init| && init[i].name == k;
          assert params[i].name == k;
        }
      }
      forall k | exists i :: 0 <= i < |params| && params[i].name == k
        ensures k in ToMap(params)
      {
        var i :| 0 <= i < |params| && params[i].name == k;
        if i < |params| - 1 {
          assert init[i].name == k;
        }
      }
    }
  }

  /** Each name in the list maps to the value of its last occurrence. */
  lemma {:induction false} ToMapLastWins(params: seq<Parameter>)
    ensures forall i :: 0 <= i < |params| && (forall j :: i < j < |params| ==> params[j].name != params[i].name) ==>
              params[i].name in ToMap(params) && ToMap(params)[params[i].name] == params[i].value
  {
    if params != [] {
      var init := params[..|params| - 1];
      ToMapLastWins(init);
      forall i | 0 <= i < |params| && (forall j :: i < j < |params| ==> params[j].name != params[i].name)
        ensures params[i].name in ToMap(params) && ToMap(params)[params[i].name] == params[i].value
      {
        if i < |params| - 1 {
          assert init[i] == params[i];
          assert forall j :: i < j < |init| ==> init[j].name != init[i].name;
        }
      }
    }
  }

  /** The list-to-table conversion, one parameter after another. */
  method VectorToMap(params: seq<Parameter>) returns (result: map<string, real>)
    ensures result == ToMap(params)
  {
    result := map[];
    for i := 0 to |params|
      invariant result == ToMap(params[..i])
    {
      assert params[..i + 1][..i] == params[..i];
      result := result[params[i].name := params[i].value];
    }
    assert params[..|params|] == params;
  }

  /** What one entry of a device's parameter list does to the table. */
  datatype Action =
    | Store(key: string, value: real)   // the entry's value goes into the table
    | Skip                              // the entry leaves the table as it is
    | Fail                              // the entry raises, dropping the device and all after it

  /** One parameter entry: an entry that is not an object raises; one whose
      name is missing or empty is skipped; a number or boolean is stored as a
      float, a string as the float it spells (0.0 when it spells none), and any
      other value is not stored. A name that is not a string is never looked
      up, so storing under it changes nothing visible; an array or object
      name cannot be a table key, which raises when a value would be stored. */
  function EntryAction(entry: Json, parse: Parser): (a: Action)
    ensures a.Store? ==> entry.JObj? && Get(entry.members, "Name", JStr("")) == JStr(a.key) && a.key != ""
    ensures !entry.JObj? ==> a == Fail
  {
    match entry
    case JObj(members) =>
      var name := Get(members, "Name", JStr(""));
      if !Truthy(name) then Skip
      else
        var value := match Get(members, "Value", JNum(0.0))
          case JNum(x) => Some(x)
          case JBool(b) => Some(if b then 1.0 else 0.0)
          case JStr(s) => Some(match parse(s) case Some(x) => x case None => 0.0)
          case _ => None;
        if value.None? then Skip
        else if name.JStr? then Store(name.s, value.value)
        else if name.JArr? || name.JObj? then Fail
        else Skip
    case _ => Fail
  }

  /** The parameters a list of entries stores, in order, or `None` when an entry raises. */
  function Stored(entries: seq<Json>, parse: Parser): (r: Option<seq<Parameter>>)
    ensures r.Some? ==> |r.value| <= |entries|
    decreases |entries|
  {
    if entries == [] then Some([])
    else
      var init := entries[..|entries| - 1];
      match Stored(init, parse)
      case None => None
      case Some(ps) => Apply(ps, EntryAction(entries[|entries| - 1], parse))
  }

  /** The stored parameters after one more entry's action. */
  function Apply(ps: seq<Parameter>, a: Action): Option<seq<Parameter>>
  {
    match a
    case Fail => None
    case Skip => Some(ps)
    case Store(k, v) => Some(ps + [Parameter(k, v)])
  }

  /** One more entry of the list, from the parameters stored so far. */
  lemma StoredNext(entries: seq<Json>, parse: Parser, i: nat, ps: seq<Parameter>)
    requires i < |entries| && Stored(entries[..i], parse) == Some(ps)
    ensures Stored(entries[..i + 1], parse) == Apply(ps, EntryAction(entries[i], parse))
  {
    assert entries[..i + 1][..i] == entries[..i];
  }

  /** Adding a parameter at the end of the list sets its name in the table. */
  lemma ToMapSnoc(ps: seq<Parameter>, p: Parameter)
    ensures ToMap(ps + [p]) == ToMap(ps)[p.name := p.value]
  {
    assert (ps + [p])[..|ps|] == ps;
  }

  /** The table a device's parameter list yields, or `None` when an entry raises. */
  function ParamTable(entries: seq<Json>, parse: Parser): Option<map<string, real>>
  {
    match Stored(entries, parse)
    case None => None
    case Some(ps) => Some(ToMap(ps))
  }

  /** The table building loop over one device's parameter list. */
  method CollectParameters(entries: seq<Json>, parse: Parser) returns (table: Option<map<string, real>>)
    ensures table == ParamTable(entries, parse)
  {
    var dict: map<string, real> := map[];
    ghost var params: seq<Parameter> := [];
    for i := 0 to |entries|
      invariant Stored(entries[..i], parse) == Some(params)
      invariant dict == ToMap(params)
    {
      var action := EntryAction(entries[i], parse);
      StoredNext(entries, parse, i, params);
      match action
      case Fail =>
        StoredFails(entries, parse, i);
        return None;
      case Skip =>
      case Store(k, v) =>
        ToMapSnoc(params, Parameter(k, v));
        dict := dict[k := v];
        params := params + [Parameter(k, v)];
    }
    assert entries[..|entries|] == entries;
    table := Some(dict);
  }

  /** An entry that raises makes the whole list raise. */
  lemma StoredFails(entries: seq<Json>, parse: Parser, i: nat)
    requires i < |entries| && EntryAction(entries[i], parse).Fail?
    ensures ParamTable(entries, parse) == None
  {
    StoredSome(entries, parse);
  }

  /** A list stores parameters exactly when none of its entries raises. */
  lemma {:induction false} StoredSome(entries: seq<Json>, parse: Parser)
    ensures Stored(entries, parse).Some? <==> forall i :: 0 <= i < |entries| ==> !EntryAction(entries[i], parse).Fail?
    decreases |entries|
  {
    if entries != [] {
      var init := entries[..|entries| - 1];
      StoredSome(init, parse);
      assert forall i :: 0 <= i < |init| ==> init[i] == entries[i];
    }
  }

  /** What the receiver keeps of one glove device. */
  datatype GloveData = GloveData(
    deviceName: string,
    leftCalibrated: bool,
    rightCalibrated: bool,
    leftAngles: seq<real>,
    rightAngles: seq<real>)

  /** Parameters holding the six right- and left-hand angles, in record order. */
  const RightChannels: seq<string> := ["r2", "r0", "r5", "r9", "r13", "r17"]
  const LeftChannels: seq<string> := ["l2", "l0", "l5", "l9", "l13", "l17"]

  /** Calibration status value meaning "calibrated". */
  const CalibratedStatus: real := 3.0

  /** A table entry, 0.0 when absent. */
  function Lookup(table: map<string, real>, key: string): real
  {
    if key in table then table[key] else 0.0
  }

  /** The six angles of one hand: each channel's value negated. */
  function Angles(table: map<string, real>, channels: seq<string>): (a: seq<real>)
    ensures |a| == |channels|
  {
    seq(|channels|, j requires 0 <= j < |channels| => -Lookup(table, channels[j]))
  }

  /** The record of a device without a parameter list: uncalibrated, all angles 0. */
  function DefaultRecord(name: string): GloveData
  {
    GloveData(name, false, false, seq(6, _ => 0.0), seq(6, _ => 0.0))
  }

  /** The record of a device from its parameter table. */
  function FromTable(name: string, table: map<string, real>): GloveData
  {
    GloveData(name,
      Lookup(table, "L_CalibrationStatus") == CalibratedStatus,
      Lookup(table, "R_CalibrationStatus") == CalibratedStatus,
      Angles(table, LeftChannels),
      Angles(table, RightChannels))
  }

  /** A record carries the device name, calls a hand calibrated exactly when
      its status parameter is 3, and the negation of each angle gives back
      the channel it came from: right = -[r2, r0, r5, r9, r13, r17] and
      left = -[l2, l0, l5, l9, l13, l17]. */
  lemma FromTableChannels(name: string, table: map<string, real>)
    ensures FromTable(name, table).deviceName == name
    ensures FromTable(name, table).rightCalibrated <==>
      "R_CalibrationStatus" in table && table["R_CalibrationStatus"] == 3.0
    ensures FromTable(name, table).leftCalibrated <==>
      "L_CalibrationStatus" in table && table["L_CalibrationStatus"] == 3.0
    ensures |FromTable(name, table).rightAngles| == 6 && |FromTable(name, table).leftAngles| == 6
    ensures -FromTable(name, table).rightAngles[0] == Lookup(table, "r2")
    ensures -FromTable(name, table).rightAngles[1] == Lookup(table, "r0")
    ensures -FromTable(name, table).rightAngles[2] == Lookup(table, "r5")
    ensures -FromTable(name, table).rightAngles[3] == Lookup(table, "r9")
    ensures -FromTable(name, table).rightAngles[4] == Lookup(table, "r13")
    ensures -FromTable(name, table).rightAngles[5] == Lookup(table, "r17")
    ensures forall j :: 0 <= j < 6 ==> -FromTable(name, table).leftAngles[j] == Lookup(table, LeftChannels[j])
  {
  }

  /** The record of one device, or `None` when parsing it raises. */
  function DeviceRecord(name: string, data: Json, parse: Parser): (r: Option<GloveData>)
    ensures r.Some? ==> r.value.deviceName == name
    ensures !data.JObj? ==> r.None?
  {
    match data
    case JObj(members) =>
      (match Get(members, "Parameter", JArr([]))
       case JArr(entries) =>
         (match ParamTable(entries, parse)
          case None => None
          case Some(table) => Some(FromTable(name, table)))
       case _ => Some(DefaultRecord(name)))
    case _ => None
  }

  /** The records of the devices, in order, up to the first device whose parsing raises. */
  function Records(devices: seq<(string, Json)>, parse: Parser): (r: seq<GloveData>)
    ensures |r| <= |devices|
    ensures forall i :: 0 <= i < |r| ==> DeviceRecord(devices[i].0, devices[i].1, parse) == Some(r[i])
    ensures |r| < |devices| ==> DeviceRecord(devices[|r|].0, devices[|r|].1, parse).None?
    decreases |devices|
  {
    if devices == [] then []
    else match DeviceRecord(devices[0].0, devices[0].1, parse)
      case None => []
      case Some(g) => [g] + Records(devices[1..], parse)
  }

  /** A datagram's records: none for text that does not decode or is not an object. */
  function Parse(payload: Payload, parse: Parser): seq<GloveData>
  {
    match payload
    case Decoded(JObj(devices)) => Records(devices, parse)
    case _ => []
  }

  /** Every device gets a record, named after it, when none of them raises. */
  lemma {:induction false} RecordsComplete(devices: seq<(string, Json)>, parse: Parser)
    requires forall i :: 0 <= i < |devices| ==> DeviceRecord(devices[i].0, devices[i].1, parse).Some?
    ensures |Records(devices, parse)| == |devices|
    ensures forall i :: 0 <= i < |devices| ==> Records(devices, parse)[i].deviceName == devices[i].0
  {
  }

  /** The parsing loop over a datagram's devices. */
  method ParseJson(payload: Payload, parse: Parser) returns (records: seq<GloveData>)
    ensures records == Parse(payload, parse)
  {
    records := [];
    if !(payload.Decoded? && payload.value.JObj?) {
      return;
    }
    var devices := payload.value.members;
    var rest := devices;
    while rest != []
      invariant Records(devices, parse) == records + Records(rest, parse)
      decreases |rest|
    {
      var record := ParseDevice(rest[0].0, rest[0].1, parse);
      if record.None? {
        return;
      }
      assert Records(rest, parse) == [record.value] + Records(rest[1..], parse);
      records := records + [record.value];
      rest := rest[1..];
    }
  }

  /** The loop body for one device: its record, or `None` when it raises. */
  method ParseDevice(name: string, data: Json, parse: Parser) returns (record: Option<GloveData>)
    ensures record == DeviceRecord(name, data, parse)
  {
    if !data.JObj? {
      return None;
    }
    var params := Get(data.members, "Parameter", JArr([]));
    if !params.JArr? {
      return Some(DefaultRecord(name));
    }
    var table := CollectParameters(params.items, parse);
    if table.None? {
      return None;
    }
    record := Some(FromTable(name, table.value));
  }

  /** The UDP receiver. */
  class UdpReceiver {
    var running: bool
    var socketOpen: bool
    var callback: Option<Handler>

    constructor ()
      ensures !running && !socketOpen && callback == None
    {
      running, socketOpen, callback := false, false, None;
    }

    method SetCallback(handler: Option<Handler>)
      modifies this`callback
      ensures callback == handler
    {
      callback := handler;
    }

    /** Open and bind the socket and start receiving, unless already running;
        a failed bind leaves the receiver stopped with no socket. */
    method Start(bindOk: bool)
      modifies this`running, this`socketOpen
      ensures old(running) ==> running && socketOpen == old(socketOpen)
      ensures !old(running) ==> running == bindOk && socketOpen == bindOk
    {
      if running {
        return;
      }
      if bindOk {
        socketOpen := true;
        running := true;
      } else {
        running := false;
        socketOpen := false;
      }
    }

    /** Stop receiving and close the socket; nothing to do when not running. */
    method Stop()
      modifies this`running, this`socketOpen
      ensures !old(running) ==> unchanged(this)
      ensures old(running) ==> !running && !socketOpen
    {
      if !running {
        return;
      }
      running := false;
      socketOpen := false;
    }

    /** One datagram taken in by the receive loop (`None` for an empty one):
        what the callback is handed, if anything. */
    method Receive(datagram: Option<Payload>, parse: Parser) returns (delivered: Option<seq<GloveData>>)
      ensures datagram.None? || callback.None? ==> delivered.None?
      ensures datagram.Some? && callback.Some? ==> delivered == Some(Parse(datagram.value, parse))
    {
      if datagram.None? {
        return None;
      }
      var records := ParseJson(datagram.value, parse);
      if callback.None? {
        return None;
      }
      delivered := Some(records);
    }
  }
}
