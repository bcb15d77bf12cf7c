/**
 * The command and identifier logic of the BLE provisioning service
 * (new-ble-gatt-1.py): the BlueZ object path built from a MAC address or an
 * iOS UUID, the fallback search over the managed objects, the dispatch of a
 * payload written to the Wi-Fi config characteristic, and the notify flag
 * of the status characteristic.
 *
 * D-Bus is not modelled: `removeOk(path)` says whether
 * `Adapter1.RemoveDevice(path)` succeeded, and the managed objects are a
 * list (`None` when `GetManagedObjects` raised). `json` is what
 * `json.loads(payload)` gives.
 */
module Ble {
  import opened Wrappers
  import opened Text

  // ---------------------------------------------------------------------
  // remove_bluetooth_device
  // ---------------------------------------------------------------------

  const AdapterPath: string := "/org/bluez/hci0"
  const DevicePrefix: string := AdapterPath + "/dev_"

  /** An iOS identifier: it contains '-' and is 36 characters long. */
  predicate IsUuidForm(id: string) {
    '-' in id && |id| == 36
  }

  /** The object path tried first: '-' becomes '_' in a UUID, ':' becomes '_' in anything else. */
  function DevicePath(id: string): string {
    DevicePrefix + (if IsUuidForm(id) then Replace(id, '-', '_') else Replace(id, ':', '_'))
  }

  /**
   * The path is the adapter's device prefix followed by one character per
   * character of the identifier, and the separator of the identifier's
   * form no longer occurs after the prefix.
   */
  lemma DevicePathShape(id: string)
    ensures |DevicePath(id)| == |DevicePrefix| + |id|
    ensures StartsWith(DevicePath(id), DevicePrefix)
    ensures IsUuidForm(id) ==> '-' !in DevicePath(id)[|DevicePrefix|..]
    ensures !IsUuidForm(id) ==> ':' !in DevicePath(id)[|DevicePrefix|..]
  {
    var suffix := DevicePath(id)[|DevicePrefix|..];
    assert DevicePath(id)[..|DevicePrefix|] == DevicePrefix;
    assert forall k | 0 <= k < |suffix| :: suffix[k] == (if IsUuidForm(id) then Replace(id, '-', '_') else Replace(id, ':', '_'))[k];
  }

  /**
   * The path gives the identifier back: for an identifier without '_',
   * turning '_' after the prefix back into ':' (a MAC) or '-' (a UUID)
   * restores it.
   */
  lemma DevicePathRoundTrip(id: string)
    requires '_' !in id
    ensures IsUuidForm(id) ==> Replace(DevicePath(id)[|DevicePrefix|..], '_', '-') == id
    ensures !IsUuidForm(id) ==> Replace(DevicePath(id)[|DevicePrefix|..], '_', ':') == id
  {
    var suffix := DevicePath(id)[|DevicePrefix|..];
    var back := if IsUuidForm(id) then Replace(suffix, '_', '-') else Replace(suffix, '_', ':');
    assert forall k | 0 <= k < |id| :: back[k] == id[k];
  }

  /** A D-Bus object of `GetManagedObjects`: its path, whether it is a `Device1`, and its `Address`. */
  datatype ManagedObject = ManagedObject(path: string, isDevice: bool, address: Option<string>)

  /** `device_props.get("Address", "")` */
  function AddressOf(obj: ManagedObject): string {
    match obj.address
    case Some(a) => a
    case None => ""
  }

  /**
   * The search predicate: a device whose address equals the identifier up
   * to case, or whose path contains the identifier with '-' turned into
   * '_', up to case.
   */
  predicate SearchMatch(id: string, obj: ManagedObject) {
    obj.isDevice &&
    (Upper(AddressOf(obj)) == Upper(id) || Contains(Upper(obj.path), Upper(Replace(id, '-', '_'))))
  }

  /** Index of the first object the search matches, if any. */
  function FirstMatch(id: string, objects: seq<ManagedObject>): (r: Option<nat>)
    ensures r.Some? ==> r.value < |objects|
    decreases |objects|
  {
    if objects == [] then None
    else if SearchMatch(id, objects[0]) then Some(0)
    else match FirstMatch(id, objects[1..])
      case None => None
      case Some(k) => Some(k + 1)
  }

  /** The search finds the first matching device, and nothing when no device matches. */
  lemma {:induction false} FirstMatchIsFirst(id: string, objects: seq<ManagedObject>)
    ensures FirstMatch(id, objects).None? <==> forall j | 0 <= j < |objects| :: !SearchMatch(id, objects[j])
    ensures FirstMatch(id, objects).Some? ==>
      var k := FirstMatch(id, objects).value;
      k < |objects| && SearchMatch(id, objects[k]) && forall j | 0 <= j < k :: !SearchMatch(id, objects[j])
    decreases |objects|
  {
    if objects != [] && !SearchMatch(id, objects[0]) {
      FirstMatchIsFirst(id, objects[1..]);
      assert forall j | 1 <= j < |objects| :: objects[j] == objects[1..][j - 1];
    }
  }

  /**
   * The device sitting at the UUID path is found by the search: its path
   * holds the identifier with '-' turned into '_'. A MAC written with ':'
   * is never found through its path, only through its address, because no
   * path built from it keeps a ':'.
   */
  lemma SearchFindsDevicePath(id: string, address: Option<string>)
    ensures IsUuidForm(id) ==> SearchMatch(id, ManagedObject(DevicePath(id), true, address))
    ensures !IsUuidForm(id) && ':' in id ==>
      !Contains(Upper(DevicePath(id)), Upper(Replace(id, '-', '_')))
  {
    var path := DevicePath(id);
    var needle := Upper(Replace(id, '-', '_'));
    var n := |DevicePrefix|;
    if IsUuidForm(id) {
      assert Upper(path)[n..n + |needle|] == needle;
      assert OccursAt(Upper(path), needle, n);
    } else if ':' in id {
      var c :| 0 <= c < |id| && id[c] == ':';
      assert needle[c] == ':';
      var suffix := Replace(id, ':', '_');
      assert path == DevicePrefix + suffix;
      assert forall k | 0 <= k < |path| :: Upper(path)[k] != ':' by {
        assert forall k | n <= k < |path| :: path[k] == suffix[k - n];
      }
      MissingCharNoOccurrence(Upper(path), needle, ':', c);
    }
  }

  /** What a removal did: the paths passed to `RemoveDevice`, and the result returned. */
  datatype Removal = Removal(attempts: seq<string>, ok: bool)

  /** try_remove_by_search: remove the first matching device; `False` when none matches or the bus fails. */
  function SearchRemoval(id: string, objects: Option<seq<ManagedObject>>, removeOk: string -> bool): Removal {
    match objects
    case None => Removal([], false)
    case Some(objs) =>
      match FirstMatch(id, objs)
      case None => Removal([], false)
      case Some(k) => Removal([objs[k].path], removeOk(objs[k].path))
  }

  /** remove_bluetooth_device: the built path first, the search when that removal raised. */
  function DeviceRemoval(id: string, objects: Option<seq<ManagedObject>>, removeOk: string -> bool): Removal {
    var path := DevicePath(id);
    if removeOk(path) then Removal([path], true)
    else
      var search := SearchRemoval(id, objects, removeOk);
      Removal([path] + search.attempts, search.ok)
  }

  /** try_remove_by_search (lines 52-88): the loop over the managed objects. */
  method TryRemoveBySearch(id: string, objects: Option<seq<ManagedObject>>, removeOk: string -> bool)
    returns (attempt: Option<string>, ok: bool)
    ensures Removal(if attempt.Some? then [attempt.value] else [], ok) == SearchRemoval(id, objects, removeOk)
  {
    if objects.None? {
      return None, false;
    }
    var objs := objects.value;
    var i := 0;
    while i < |objs|
      invariant 0 <= i <= |objs|
      invariant FirstMatch(id, objs[i..]).Some? ==> FirstMatch(id, objs) == Some(i + FirstMatch(id, objs[i..]).value)
      invariant FirstMatch(id, objs[i..]).None? ==> FirstMatch(id, objs).None?
    {
      assert objs[i..][1..] == objs[i + 1..];
      var obj := objs[i];
      if obj.isDevice {
        var address := if obj.address.Some? then obj.address.value else "";
        if Upper(address) == Upper(id) || Contains(Upper(obj.path), Upper(Replace(id, '-', '_'))) {
          return Some(obj.path), removeOk(obj.path);
        }
      }
      i := i + 1;
    }
    return None, false;
  }

  /** remove_bluetooth_device (lines 90-113). */
  method RemoveBluetoothDevice(id: string, objects: Option<seq<ManagedObject>>, removeOk: string -> bool)
    returns (removal: Removal)
    ensures removal == DeviceRemoval(id, objects, removeOk)
  {
    var path: string;
    if '-' in id && |id| == 36 {
      path := DevicePrefix + Replace(id, '-', '_');
    } else {
      path := DevicePrefix + Replace(id, ':', '_');
    }
    if removeOk(path) {
      return Removal([path], true);
    }
    var attempt, ok := TryRemoveBySearch(id, objects, removeOk);
    removal := Removal([path] + (if attempt.Some? then [attempt.value] else []), ok);
  }

  /**
   * A removal reports success exactly when the built path was removed or
   * the search found a device whose removal succeeded; it calls
   * `RemoveDevice` on at most two paths, the built one first, and the
   * second only on a device the search matches, with no matching device
   * before it.
   */
  lemma RemovalOutcomes(id: string, objects: Option<seq<ManagedObject>>, removeOk: string -> bool)
    ensures var r := DeviceRemoval(id, objects, removeOk);
      && 1 <= |r.attempts| <= 2
      && r.attempts[0] == DevicePath(id)
      && (r.ok <==> removeOk(r.attempts[|r.attempts| - 1]))
      && (|r.attempts| == 2 <==> !removeOk(DevicePath(id)) && objects.Some? && FirstMatch(id, objects.value).Some?)
      && (|r.attempts| == 2 ==>
            exists k | 0 <= k < |objects.value| ::
              && objects.value[k].path == r.attempts[1] && SearchMatch(id, objects.value[k])
              && forall j | 0 <= j < k :: !SearchMatch(id, objects.value[j]))
  {
    if !removeOk(DevicePath(id)) && objects.Some? {
      FirstMatchIsFirst(id, objects.value);
    }
  }

  // ---------------------------------------------------------------------
  // WifiConfigCharacteristic.WriteValue
  // ---------------------------------------------------------------------

  /** A JSON value: only strings are looked into; any other value is known by its `str()` and truthiness. */
  datatype JsonValue = JString(s: string) | JOther(text: string, truthy: bool)

  /** What `json.loads(payload)` gave: a syntax error, an object, or another value. */
  datatype Json = Invalid | Object(fields: map<string, JsonValue>) | NonObject

  predicate Truthy(v: JsonValue) {
    match v
    case JString(s) => s != ""
    case JOther(_, t) => t
  }

  /** `data.get(key, "")` */
  function Field(fields: map<string, JsonValue>, key: string): JsonValue {
    if key in fields then fields[key] else JString("")
  }

  /** What a written payload makes the service do. */
  datatype Command =
    | RemoveById(id: string)          // remove_bluetooth_device(id)
    | RemoveNonString(text: string)   // a JSON "mac" that is not a string: every removal step raises
    | RemoveUsage                     // a text remove without exactly one identifier
    | RemoveIdRequired                // a JSON remove without a "mac"
    | Shutdown                        // "disconnect": the service exits
    | ConnectWifi(ssid: string, password: JsonValue)
    | SsidRequired
    | InvalidJson
    | Failure                         // any other exception

  /** The JSON form of a remove: an object whose "cmd" is a string equal to "remove" up to case. */
  predicate JsonRemove(json: Json) {
    json.Object? && "cmd" in json.fields && json.fields["cmd"].JString? &&
    Lower(json.fields["cmd"].s) == "remove"
  }

  /** The Wi-Fi configuration branch, reached by every payload no earlier branch took. */
  function WifiConfig(json: Json): Command {
    match json
    case Invalid => InvalidJson
    case NonObject => Failure
    case Object(fields) =>
      match Field(fields, "ssid")
      case JOther(_, _) => Failure
      case JString(s) => if Strip(s) == "" then SsidRequired else ConnectWifi(Strip(s), Field(fields, "password"))
  }

  /** The early-return chain of WriteValue, in its order. */
  function Dispatch(payload: string, json: Json): Command {
    var t := Strip(payload);
    if StartsWith(Lower(t), "remove") then
      var parts := SplitWs(t);
      if |parts| == 2 then RemoveById(Strip(parts[1])) else RemoveUsage
    else if StartsWith(t, "{") && json.Invalid? then InvalidJson
    else if StartsWith(t, "{") && json.Object? && "cmd" in json.fields && json.fields["cmd"].JOther? then Failure
    else if StartsWith(t, "{") && JsonRemove(json) then
      var mac := Field(json.fields, "mac");
      if !Truthy(mac) then RemoveIdRequired
      else match mac
        case JString(s) => RemoveById(s)
        case JOther(text, _) => RemoveNonString(text)
    else if Lower(t) == "disconnect" then Shutdown
    else WifiConfig(json)
  }

  /** A text without blanks is its own `strip()`. */
  lemma StripBlankFree(s: string)
    requires forall i | 0 <= i < |s| :: !IsSpace(s[i])
    ensures Strip(s) == s
  {
  }

  /**
   * A text remove is handled before any JSON parsing: whatever the JSON
   * parse, a payload starting with "remove" (up to case and blanks) removes
   * the second of exactly two words, which is a non-empty word, and
   * otherwise only answers with the usage message.
   */
  lemma TextRemoveFirst(payload: string, json: Json, other: Json)
    requires StartsWith(Lower(Strip(payload)), "remove")
    ensures Dispatch(payload, json) == Dispatch(payload, other)
    ensures var parts := SplitWs(Strip(payload));
      && (Dispatch(payload, json).RemoveById? <==> |parts| == 2)
      && (|parts| == 2 ==> Dispatch(payload, json) == RemoveById(parts[1]) && parts[1] != [])
      && (|parts| != 2 ==> Dispatch(payload, json) == RemoveUsage)
  {
    var parts := SplitWs(Strip(payload));
    SplitWsWords(Strip(payload));
    if |parts| == 2 {
      StripBlankFree(parts[1]);
    }
  }

  /**
   * A JSON remove acts only on a truthy "mac": a string "mac" is removed,
   * and a missing or empty one gets "Device ID required".
   */
  lemma JsonRemoveNeedsId(payload: string, fields: map<string, JsonValue>)
    requires !StartsWith(Lower(Strip(payload)), "remove") && StartsWith(Strip(payload), "{")
    requires JsonRemove(Object(fields))
    ensures Dispatch(payload, Object(fields)) == RemoveIdRequired <==> !Truthy(Field(fields, "mac"))
    ensures Dispatch(payload, Object(fields)).RemoveById? <==> Field(fields, "mac").JString? && Field(fields, "mac").s != ""
    ensures Dispatch(payload, Object(fields)).RemoveById? ==> Dispatch(payload, Object(fields)).id == Field(fields, "mac").s
  {
  }

  /** "disconnect" (up to case and blanks) shuts the service down whatever the JSON parse. */
  lemma DisconnectIsExact(payload: string, json: Json)
    ensures Lower(Strip(payload)) == "disconnect" ==> Dispatch(payload, json) == Shutdown
    ensures Dispatch(payload, json) == Shutdown ==> Lower(Strip(payload)) == "disconnect"
  {
    var t := Strip(payload);
    if Lower(t) == "disconnect" {
      assert Lower(t)[0] == 'd';
      assert !StartsWith(Lower(t), "remove");
      assert !StartsWith(t, "{") by {
        assert LowerChar(t[0]) == 'd';
      }
    }
  }

  /**
   * A Wi-Fi connection is started only for a JSON object with a string
   * "ssid" that is not blank, with that ssid stripped; everything else that
   * reaches the last branch answers "SSID required", "Invalid JSON" or "Error".
   */
  lemma ConnectNeedsSsid(payload: string, json: Json)
    ensures var c := Dispatch(payload, json);
      c.ConnectWifi? ==>
        && json.Object? && Field(json.fields, "ssid").JString?
        && c.ssid == Strip(Field(json.fields, "ssid").s) && c.ssid != []
        && c.password == Field(json.fields, "password")
        && !(StartsWith(Strip(payload), "{") && JsonRemove(json))
        && !StartsWith(Lower(Strip(payload)), "remove")
        && Lower(Strip(payload)) != "disconnect"
    ensures json.Invalid? && !StartsWith(Lower(Strip(payload)), "remove") && Lower(Strip(payload)) != "disconnect" ==>
      Dispatch(payload, json) == InvalidJson
  {
  }

  /**
   * Everything no earlier rule claims is Wi-Fi configuration, JSON whose
   * "cmd" is some other string included: a blank string ssid answers
   * "SSID required" and starts nothing, a non-blank one starts a connection
   * to the stripped ssid with the given password.
   */
  lemma WifiConfigIsTheRest(payload: string, fields: map<string, JsonValue>)
    requires !StartsWith(Lower(Strip(payload)), "remove") && Lower(Strip(payload)) != "disconnect"
    requires "cmd" in fields ==> fields["cmd"].JString? && Lower(fields["cmd"].s) != "remove"
    ensures Dispatch(payload, Object(fields)) == WifiConfig(Object(fields))
    ensures Field(fields, "ssid").JString? && Strip(Field(fields, "ssid").s) == "" ==>
      Dispatch(payload, Object(fields)) == SsidRequired
    ensures Field(fields, "ssid").JString? && Strip(Field(fields, "ssid").s) != "" ==>
      Dispatch(payload, Object(fields)) ==
        ConnectWifi(Strip(Field(fields, "ssid").s), Field(fields, "password"))
  {
  }

  /** The branches of WriteValue as the handler takes them, returning at the first that applies. */
  method Classify(payload: string, json: Json) returns (command: Command)
    ensures command == Dispatch(payload, json)
  {
    var t := Strip(payload);
    if StartsWith(Lower(t), "remove") {
      var parts := SplitWs(t);
      if |parts| == 2 {
        return RemoveById(Strip(parts[1]));
      }
      return RemoveUsage;
    }
    if StartsWith(t, "{") {
      if json.Invalid? {
        return InvalidJson;
      }
      if json.Object? && "cmd" in json.fields {
        match json.fields["cmd"]
        case JOther(_, _) =>
          return Failure;
        case JString(cmd) =>
          if Lower(cmd) == "remove" {
            var mac := if "mac" in json.fields then json.fields["mac"] else JString("");
            if !Truthy(mac) {
              return RemoveIdRequired;
            }
            match mac
            case JString(id) =>
              return RemoveById(id);
            case JOther(text, _) =>
              return RemoveNonString(text);
          }
      }
    }
    if Lower(t) == "disconnect" {
      return Shutdown;
    }
    match json
    case Invalid =>
      return InvalidJson;
    case NonObject =>
      return Failure;
    case Object(fields) =>
      var ssid := if "ssid" in fields then fields["ssid"] else JString("");
      match ssid
      case JOther(_, _) =>
        return Failure;
      case JString(s) =>
        if Strip(s) == "" {
          return SsidRequired;
        }
        var password := if "password" in fields then fields["password"] else JString("");
        return ConnectWifi(Strip(s), password);
  }

  /** The status message WriteValue sends for a command, given the removal result. */
  function StatusMessage(c: Command, removed: bool): Option<string> {
    match c
    case RemoveById(id) => Some(if removed then "Removed " + id else "Failed to remove " + id)
    case RemoveNonString(text) => Some("Failed to remove " + text)
    case RemoveUsage => Some("Device ID required (remove AA:BB:CC:DD:EE:FF)")
    case RemoveIdRequired => Some("Device ID required")
    case Shutdown => Some("Disconnecting")
    case ConnectWifi(_, _) => None
    case SsidRequired => Some("SSID required")
    case InvalidJson => Some("Invalid JSON")
    case Failure => Some("Error")
  }

  // ---------------------------------------------------------------------
  // WifiStatusCharacteristic
  // ---------------------------------------------------------------------

  /** The status characteristic: notifications go out only while a client subscribed. */
  class WifiStatusCharacteristic {
    var notifying: bool
    /** The `PropertiesChanged` values emitted so far, oldest first. */
    var sent: seq<string>

    constructor()
      ensures !notifying && sent == []
    {
      notifying := false;
      sent := [];
    }

    /** send_status (lines 280-284): emit only while notifying. */
    method SendStatus(msg: string)
      modifies this
      ensures notifying == old(notifying)
      ensures sent == (if old(notifying) then old(sent) + [msg] else old(sent))
    {
      if !notifying {
        return;
      }
      sent := sent + [msg];
    }

    /** StartNotify (lines 286-288) */
    method StartNotify()
      modifies this
      ensures notifying && sent == old(sent)
    {
      notifying := true;
    }

    /** StopNotify (lines 290-292) */
    method StopNotify()
      modifies this
      ensures !notifying && sent == old(sent)
    {
      notifying := false;
    }
  }

  /** A client's subscription changes and the service's status messages, in order. */
  datatype StatusEvent = Subscribe | Unsubscribe | Send(msg: string)

  /** The messages a client sees for a run of events, starting from the given flag. */
  function Emitted(events: seq<StatusEvent>, notifying: bool): seq<string>
    decreases |events|
  {
    if events == [] then []
    else match events[0]
      case Subscribe => Emitted(events[1..], true)
      case Unsubscribe => Emitted(events[1..], false)
      case Send(msg) => (if notifying then [msg] else []) + Emitted(events[1..], notifying)
  }

  /** The flag after a run of events: the last subscription change wins. */
  function NotifyingAfter(events: seq<StatusEvent>, notifying: bool): bool
    decreases |events|
  {
    if events == [] then notifying
    else match events[0]
      case Subscribe => NotifyingAfter(events[1..], true)
      case Unsubscribe => NotifyingAfter(events[1..], false)
      case Send(_) => NotifyingAfter(events[1..], notifying)
  }

  /** Drives the characteristic through a run of events. */
  method Replay(ch: WifiStatusCharacteristic, events: seq<StatusEvent>)
    modifies ch
    ensures ch.sent == old(ch.sent) + Emitted(events, old(ch.notifying))
    ensures ch.notifying == NotifyingAfter(events, old(ch.notifying))
  {
    var i := 0;
    while i < |events|
      invariant 0 <= i <= |events|
      invariant old(ch.sent) + Emitted(events, old(ch.notifying)) == ch.sent + Emitted(events[i..], ch.notifying)
      invariant NotifyingAfter(events, old(ch.notifying)) == NotifyingAfter(events[i..], ch.notifying)
    {
      assert events[i..][1..] == events[i + 1..];
      match events[i] {
        case Subscribe => ch.StartNotify();
        case Unsubscribe => ch.StopNotify();
        case Send(msg) => ch.SendStatus(msg);
      }
      i := i + 1;
    }
    assert events[i..] == [];
  }

  /**
   * Nothing is emitted while nobody is subscribed: with the flag off and no
   * subscription among the events, no message goes out; after a
   * subscription and before any unsubscription, every message goes out.
   */
  lemma {:induction false} SilentWithoutSubscriber(events: seq<StatusEvent>)
    requires forall k | 0 <= k < |events| :: events[k] != Subscribe
    ensures Emitted(events, false) == []
    ensures !NotifyingAfter(events, false)
    decreases |events|
  {
    if events != [] {
      SilentWithoutSubscriber(events[1..]);
    }
  }

  /** While subscribed, every message is emitted, in order. */
  lemma {:induction false} LoudWhileSubscribed(msgs: seq<string>)
    ensures Emitted(seq(|msgs|, k requires 0 <= k < |msgs| => Send(msgs[k])), true) == msgs
    decreases |msgs|
  {
    var events := seq(|msgs|, k requires 0 <= k < |msgs| => Send(msgs[k]));
    if msgs != [] {
      LoudWhileSubscribed(msgs[1..]);
      assert events[1..] == seq(|msgs[1..]|, k requires 0 <= k < |msgs[1..]| => Send(msgs[1..][k]));
    }
  }

  /** Never more messages are emitted than there are events, and every emitted message was sent. */
  lemma {:induction false} EmittedAtMostSent(events: seq<StatusEvent>, notifying: bool)
    ensures |Emitted(events, notifying)| <= |events|
    ensures forall m | m in Emitted(events, notifying) :: Send(m) in events
    decreases |events|
  {
    if events != [] {
      var n := if events[0].Subscribe? then true else if events[0].Unsubscribe? then false else notifying;
      EmittedAtMostSent(events[1..], n);
      assert forall e | e in events[1..] :: e in events;
    }
  }

  // ---------------------------------------------------------------------
  // The write handler
  // ---------------------------------------------------------------------

  /** What WriteValue did: the command, the removal if one ran. */
  datatype WriteResult = WriteResult(command: Command, removal: Option<Removal>)

  /**
   * WifiConfigCharacteristic.WriteValue (lines 298-369): dispatch, run the
   * removal, and send the status message. Starting the Wi-Fi connection
   * thread and the delayed exit are reported in the command, not run.
   */
  method WriteValue(payload: string, json: Json, objects: Option<seq<ManagedObject>>, removeOk: string -> bool,
                    status: WifiStatusCharacteristic)
    returns (result: WriteResult)
    modifies status
    ensures result.command == Dispatch(payload, json)
    ensures result.removal ==
      (if result.command.RemoveById? then Some(DeviceRemoval(result.command.id, objects, removeOk)) else None)
    ensures var msg := StatusMessage(result.command, result.removal.Some? && result.removal.value.ok);
      status.sent == (if msg.Some? && old(status.notifying) then old(status.sent) + [msg.value] else old(status.sent))
    ensures status.notifying == old(status.notifying)
  {
    var command := Classify(payload, json);
    var removed := false;
    var removal: Option<Removal> := None;
    if command.RemoveById? {
      var r := RemoveBluetoothDevice(command.id, objects, removeOk);
      removal := Some(r);
      removed := r.ok;
    }
    var msg := StatusMessage(command, removed);
    if msg.Some? {
      status.SendStatus(msg.value);
    }
    result := WriteResult(command, removal);
  }
}
