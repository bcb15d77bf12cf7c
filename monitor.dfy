/**
 * The state bluetooth-speaker.py keeps between requests and polls, and the
 * steps that change it: one iteration of `continuous_monitoring` (with its
 * error backoff), and the list updates of `connect_speaker` and
 * `disconnect_speaker`.
 *
 * The routing operations these steps call are not re-run here: a step emits
 * an `Action` naming the call, and where the step's course depends on the
 * call's result, that result is an input (`btOk(mac)` for
 * `set_bluetooth_as_default_sink(mac, name)`).
 */
module Monitor {
  import opened Wrappers
  import opened Text
  import opened Devices

  /** What is broadcast to the connected clients. */
  datatype Event =
    | DeviceDisconnected(mac: string, name: string)   // action 'device_disconnected'
    | DeviceReconnected(mac: string, name: string)    // action 'device_reconnected'
    | OrphanedSinkDetected(sink: string)              // action 'orphaned_sink_detected'

  /** A call or command a step issues, in order. */
  datatype Action =
    | SetWired                                        // set_default_to_audiocodec()
    | ForceWiredFallback                              // force_set_hdmi_fallback()
    | SetBluetooth(mac: string, name: Option<string>) // set_bluetooth_as_default_sink(mac, name)
    | Trust(mac: string)                              // bluetoothctl trust <mac>
    | Pair(mac: string)                               // bluetoothctl pair <mac>
    | Connect(mac: string)                            // bluetoothctl connect <mac>
    | Disconnect(mac: string)                         // bluetoothctl disconnect <mac>
    | PowerOn                                         // bluetoothctl power on
    | AgentOn                                         // bluetoothctl agent on
    | DefaultAgent                                    // bluetoothctl default-agent
    | Broadcast(event: Event)

  // ---------------------------------------------------------------------
  // The list of connected speakers
  // ---------------------------------------------------------------------

  /** `list.remove(x)` on a list holding `x`: drops its first occurrence. */
  function RemoveFirst(s: seq<string>, x: string): seq<string>
    decreases |s|
  {
    if s == [] then []
    else if s[0] == x then s[1..]
    else [s[0]] + RemoveFirst(s[1..], x)
  }

  /** `if x not in s: s.append(x)` */
  function AddIfAbsent(s: seq<string>, x: string): seq<string> {
    if x in s then s else s + [x]
  }

  /** On a list without duplicates, removing `x` keeps every other element and no `x`, and adds no duplicate. */
  lemma {:induction false} RemoveFirstMembers(s: seq<string>, x: string)
    requires NoDup(s)
    ensures NoDup(RemoveFirst(s, x))
    ensures forall y :: y in RemoveFirst(s, x) <==> y in s && y != x
    decreases |s|
  {
    if s != [] && s[0] != x {
      assert NoDup(s[1..]) by {
        forall i, j | 0 <= i < j < |s[1..]| ensures s[1..][i] != s[1..][j] {
          assert s[1..][i] == s[i + 1] && s[1..][j] == s[j + 1];
        }
      }
      RemoveFirstMembers(s[1..], x);
      var r := RemoveFirst(s, x);
      assert r == [s[0]] + RemoveFirst(s[1..], x);
      assert forall k | 0 <= k < |s[1..]| :: s[1..][k] == s[k + 1] && s[k + 1] != s[0];
      forall i, j | 0 <= i < j < |r| ensures r[i] != r[j] {
        if i == 0 {
          assert r[j] in RemoveFirst(s[1..], x);
        }
      }
      forall y ensures y in r <==> y in s && y != x {
        assert y in s <==> y == s[0] || y in s[1..];
      }
    } else if s != [] {
      forall i, j | 0 <= i < j < |s[1..]| ensures s[1..][i] != s[1..][j] {
        assert s[1..][i] == s[i + 1] && s[1..][j] == s[j + 1];
      }
      forall y ensures y in s[1..] <==> y in s && y != x {
        if y in s[1..] {
          var k :| 0 <= k < |s[1..]| && s[1..][k] == y;
          assert s[k + 1] == y;
        }
        if y in s && y != x {
          var k :| 0 <= k < |s| && s[k] == y;
          assert s[1..][k - 1] == y;
        }
      }
    }
  }

  /** Appending only when absent keeps the list free of duplicates and adds exactly `x`. */
  lemma AddIfAbsentMembers(s: seq<string>, x: string)
    requires NoDup(s)
    ensures NoDup(AddIfAbsent(s, x))
    ensures forall y :: y in AddIfAbsent(s, x) <==> y in s || y == x
  {
    if x !in s {
      var r := s + [x];
      forall i, j | 0 <= i < j < |r| ensures r[i] != r[j] {
        if j == |s| {
          assert r[i] in s;
        }
      }
    }
  }

  // ---------------------------------------------------------------------
  // One iteration of continuous_monitoring
  // ---------------------------------------------------------------------

  /** How an audio device's connection changed between two polls. */
  datatype Change = WentAway | CameBack | Same

  function ChangeOf(last: DeviceState, current: DeviceState): Change {
    if last.connected && !current.connected && current.isAudio then WentAway
    else if !last.connected && current.connected && current.isAudio then CameBack
    else Same
  }

  datatype Progress = Progress(speakers: seq<string>, actions: seq<Action>)

  /**
   * One address of the new snapshot: compared only when the previous
   * snapshot has it too. A disconnect drops it from the list, sets wired
   * output and broadcasts; a reconnect appends it when absent, routes to it
   * and broadcasts only if routing succeeded.
   */
  function DeviceStep(speakers: seq<string>, mac: string, last: Snapshot, current: DeviceState,
                      btOk: string -> bool): Progress
  {
    if mac !in last.devices then Progress(speakers, [])
    else
      match ChangeOf(last.devices[mac], current)
      case WentAway =>
        Progress(if mac in speakers then RemoveFirst(speakers, mac) else speakers,
                 [SetWired, Broadcast(DeviceDisconnected(mac, current.name))])
      case CameBack =>
        Progress(AddIfAbsent(speakers, mac),
                 [SetBluetooth(mac, Some(current.name))] +
                 (if btOk(mac) then [Broadcast(DeviceReconnected(mac, current.name))] else []))
      case Same => Progress(speakers, [])
  }

  /** The diff loop over the addresses of the new snapshot, in its order. */
  function Diff(order: seq<string>, last: Snapshot, current: map<string, DeviceState>,
                speakers: seq<string>, btOk: string -> bool): Progress
    decreases |order|
  {
    if order == [] then Progress(speakers, [])
    else
      var p := Diff(order[..|order| - 1], last, current, speakers, btOk);
      var mac := order[|order| - 1];
      if mac in current then
        var q := DeviceStep(p.speakers, mac, last, current[mac], btOk);
        Progress(q.speakers, p.actions + q.actions)
      else p
  }

  /** `any(state['connected'] and state['is_audio'] ...)` over the new snapshot. */
  predicate HasActiveAudio(snap: Snapshot) {
    exists mac | mac in snap.devices :: snap.devices[mac].connected && snap.devices[mac].isAudio
  }

  /**
   * The orphaned-sink check, run after the diff: the default sink (what
   * `get_current_default_sink` returned) is a Bluetooth sink although no
   * device of the new snapshot is both connected and audio.
   */
  predicate Orphaned(currentSink: Option<string>, current: Snapshot) {
    currentSink.Some? && currentSink.value != "" &&
    Contains(Lower(currentSink.value), "bluez") && !HasActiveAudio(current)
  }

  function OrphanActions(currentSink: Option<string>, current: Snapshot): seq<Action> {
    if Orphaned(currentSink, current) then [SetWired, Broadcast(OrphanedSinkDetected(currentSink.value))] else []
  }

  /** Seconds a successful iteration waits before the next one. */
  const PollDelay: nat := 3
  /** `max_consecutive_errors` */
  const MaxConsecutiveErrors: nat := 3
  /** Seconds waited after a failed iteration, and after the failure that resets the counter. */
  const RetryDelay: nat := 10
  const RestartDelay: nat := 30

  /** The counter and the wait after one more failed iteration. */
  function AfterFailure(errors: nat): (nat, nat) {
    if errors + 1 >= MaxConsecutiveErrors then (0, RestartDelay) else (errors + 1, RetryDelay)
  }

  /** The counter after `n` failed iterations in a row, starting from a success. */
  function ErrorsAfter(n: nat): nat {
    if n == 0 then 0 else AfterFailure(ErrorsAfter(n - 1)).0
  }

  /**
   * Backoff: after `n` failures in a row the counter is `n % 3`, and the
   * n-th failure waits 30 seconds exactly when it is a multiple of three
   * (the counter is then reset), 10 seconds otherwise.
   */
  lemma {:induction false} FailuresCycle(n: nat)
    ensures ErrorsAfter(n) == n % MaxConsecutiveErrors
    ensures n >= 1 ==> (AfterFailure(ErrorsAfter(n - 1)).1 == RestartDelay <==> n % MaxConsecutiveErrors == 0)
  {
    if n >= 1 {
      FailuresCycle(n - 1);
    }
  }

  // ---------------------------------------------------------------------
  // connect_speaker and disconnect_speaker
  // ---------------------------------------------------------------------

  /**
   * The result of a `bluetoothctl` call made with a timeout: it returned,
   * it raised `TimeoutExpired`, or it raised any other exception.
   */
  datatype ToolResult = Done(returnCode: int, stdout: string) | TimedOut | Raised

  /** A `bluetoothctl connect` that returned 0 or printed `Connection successful`. */
  predicate ConnectSucceeded(r: ToolResult) {
    r.Done? && (r.returnCode == 0 || Contains(r.stdout, "Connection successful"))
  }

  /** The `connect_result` answer (`connected`, `failed` or `timeout`), or `connect_error`. */
  datatype ConnectResponse =
    | Connected(mac: string, name: Option<string>)
    | ConnectFailed(mac: string)
    | ConnectTimeout(mac: string)
    | ConnectError(mac: string)

  /** The `disconnect_result` answer (`disconnected` or `failed`), or `disconnect_error`. */
  datatype DisconnectResponse = Disconnected(mac: string) | DisconnectFailed(mac: string) | DisconnectError(mac: string)

  /** `line.split('Name:')[1].strip()` for a line mentioning `Name:`. */
  function NameField(line: string): string
    requires Contains(line, "Name:")
  {
    IndexOfFindsFirst(line, "Name:");
    Strip(SecondPiece(line, "Name:"))
  }

  /** The device name read from `bluetoothctl info`: taken from the first line mentioning `Name:`. */
  function NameFrom(lines: seq<string>): Option<string>
    decreases |lines|
  {
    if lines == [] then None
    else if Contains(lines[0], "Name:") then Some(NameField(lines[0]))
    else NameFrom(lines[1..])
  }

  /** Index of the first line mentioning `Name:`, or the number of lines when none does. */
  function NameLine(lines: seq<string>): (k: nat)
    ensures k <= |lines|
    decreases |lines|
  {
    if lines == [] || Contains(lines[0], "Name:") then 0 else 1 + NameLine(lines[1..])
  }

  /**
   * The name comes from the first line mentioning `Name:`, and is absent
   * exactly when no line does.
   */
  lemma {:induction false} NameFromFirstLine(lines: seq<string>)
    ensures var k := NameLine(lines);
      && (forall j | 0 <= j < k :: !Contains(lines[j], "Name:"))
      && (k < |lines| ==> Contains(lines[k], "Name:") && NameFrom(lines) == Some(NameField(lines[k])))
      && (k == |lines| ==> NameFrom(lines) == None)
    decreases |lines|
  {
    if lines != [] && !Contains(lines[0], "Name:") {
      NameFromFirstLine(lines[1..]);
      assert forall j | 1 <= j < |lines| :: lines[j] == lines[1..][j - 1];
    }
  }

  /** The loop of `connect_speaker` that looks for the name. */
  method FindDeviceName(lines: seq<string>) returns (name: Option<string>)
    ensures name == NameFrom(lines)
  {
    var i := 0;
    while i < |lines|
      invariant 0 <= i <= |lines|
      invariant NameFrom(lines[i..]) == NameFrom(lines)
    {
      assert lines[i..][1..] == lines[i + 1..];
      if Contains(lines[i], "Name:") {
        return Some(NameField(lines[i]));
      }
      i := i + 1;
    }
    return None;
  }

  /**
   * What connect_speaker does: read the info (`None` when that call
   * raised), trust (`trustRan` is false when that call raised), pair,
   * connect. A timeout ends the request with `timeout`, any other
   * exception with `connect_error`; a connect that printed `Connection
   * successful` or returned 0 routes to the speaker under the name read
   * first.
   */
  function ConnectOutcome(mac: string, info: Option<seq<string>>, trustRan: bool, pair: ToolResult, connect: ToolResult)
    : (seq<Action>, ConnectResponse)
  {
    if info.None? then ([], ConnectError(mac))
    else if !trustRan then ([Trust(mac)], ConnectError(mac))
    else if pair.TimedOut? then ([Trust(mac), Pair(mac)], ConnectTimeout(mac))
    else if pair.Raised? then ([Trust(mac), Pair(mac)], ConnectError(mac))
    else if connect.TimedOut? then ([Trust(mac), Pair(mac), Connect(mac)], ConnectTimeout(mac))
    else if connect.Raised? then ([Trust(mac), Pair(mac), Connect(mac)], ConnectError(mac))
    else if ConnectSucceeded(connect) then
      ([Trust(mac), Pair(mac), Connect(mac), SetBluetooth(mac, NameFrom(info.value))],
       Connected(mac, NameFrom(info.value)))
    else ([Trust(mac), Pair(mac), Connect(mac)], ConnectFailed(mac))
  }

  /**
   * The four answers of connect_speaker, all about `mac`: `connect_error`
   * when the info, trust, pair or connect call raised something other than
   * a timeout, `timeout` when pair or connect timed out, `connected` when
   * the connect reports success, `failed` otherwise. Once the info and
   * trust calls went through, trust and pair come first; the pair result
   * is never inspected; and the speaker is routed to exactly on
   * `connected`, under the name read from the info.
   */
  lemma ConnectOutcomes(mac: string, info: Option<seq<string>>, trustRan: bool, pair: ToolResult, connect: ToolResult)
    ensures var (actions, response) := ConnectOutcome(mac, info, trustRan, pair, connect);
      && response.mac == mac
      && (info.Some? && trustRan ==> |actions| >= 2 && actions[..2] == [Trust(mac), Pair(mac)])
      && (response.ConnectError? <==>
            info.None? || !trustRan || pair.Raised? || (pair.Done? && connect.Raised?))
      && (response.ConnectTimeout? <==>
            info.Some? && trustRan && (pair.TimedOut? || (pair.Done? && connect.TimedOut?)))
      && (response.Connected? <==> info.Some? && trustRan && pair.Done? && ConnectSucceeded(connect))
      && (Connect(mac) in actions <==> info.Some? && trustRan && pair.Done?)
      && (forall a | a in actions :: a.SetBluetooth? ==> info.Some? && a == SetBluetooth(mac, NameFrom(info.value)))
      && ((exists a | a in actions :: a.SetBluetooth?) <==> response.Connected?)
      && (response.Connected? ==> response == Connected(mac, NameFrom(info.value)))
      && (pair.Done? ==>
            ConnectOutcome(mac, info, trustRan, Done(0, ""), connect) == ConnectOutcome(mac, info, trustRan, pair, connect))
  {
    var (actions, response) := ConnectOutcome(mac, info, trustRan, pair, connect);
    if response.Connected? {
      assert actions[3].SetBluetooth?;
    }
  }

  /**
   * What disconnect_speaker does: disconnect (`returnCode` is `None` when
   * that call raised, which answers `disconnect_error`); on return code 0
   * set wired output, answer, set wired output again and fall back to the
   * forced route when that second attempt fails.
   */
  function DisconnectOutcome(mac: string, returnCode: Option<int>, secondWiredOk: bool): (seq<Action>, DisconnectResponse) {
    if returnCode.None? then ([Disconnect(mac)], DisconnectError(mac))
    else if returnCode.value == 0 then
      (if secondWiredOk then [Disconnect(mac), SetWired, SetWired]
       else [Disconnect(mac), SetWired, SetWired, ForceWiredFallback], Disconnected(mac))
    else ([Disconnect(mac)], DisconnectFailed(mac))
  }

  /**
   * A disconnect succeeds exactly on return code 0 and answers
   * `disconnect_error` exactly when the call raised; only on success is
   * wired output set (twice), and the forced fallback runs exactly when the
   * second attempt failed.
   */
  lemma DisconnectOutcomes(mac: string, returnCode: Option<int>, secondWiredOk: bool)
    ensures var (actions, response) := DisconnectOutcome(mac, returnCode, secondWiredOk);
      && actions[0] == Disconnect(mac)
      && response.mac == mac
      && (response.Disconnected? <==> returnCode == Some(0))
      && (response.DisconnectError? <==> returnCode.None?)
      && (SetWired in actions <==> returnCode == Some(0))
      && (ForceWiredFallback in actions <==> returnCode == Some(0) && !secondWiredOk)
      && (forall a | a in actions :: !a.SetBluetooth? && !a.Connect?)
  {
    var (actions, response) := DisconnectOutcome(mac, returnCode, secondWiredOk);
    if returnCode == Some(0) {
      assert actions[1] == SetWired;
    }
  }

  /**
   * A speaker connected and then disconnected leaves the list with exactly
   * the other speakers it had before.
   */
  lemma ConnectThenDisconnect(speakers: seq<string>, mac: string)
    requires NoDup(speakers)
    ensures mac in AddIfAbsent(speakers, mac)
    ensures NoDup(RemoveFirst(AddIfAbsent(speakers, mac), mac))
    ensures forall y :: y in RemoveFirst(AddIfAbsent(speakers, mac), mac) <==> y in speakers && y != mac
  {
    AddIfAbsentMembers(speakers, mac);
    RemoveFirstMembers(AddIfAbsent(speakers, mac), mac);
  }

  /**
   * The comparison loop of continuous_monitoring (lines 948-983), over the
   * addresses of the new snapshot in order, on a copy of the speaker list.
   */
  method DiffDevices(order: seq<string>, last: Snapshot, current: map<string, DeviceState>,
                     speakers0: seq<string>, btOk: string -> bool)
    returns (speakers: seq<string>, actions: seq<Action>)
    requires forall mac | mac in order :: mac in current
    requires NoDup(speakers0)
    ensures Progress(speakers, actions) == Diff(order, last, current, speakers0, btOk)
    ensures NoDup(speakers)
  {
    speakers := speakers0;
    actions := [];
    var i := 0;
    while i < |order|
      invariant 0 <= i <= |order|
      invariant Progress(speakers, actions) == Diff(order[..i], last, current, speakers0, btOk)
      invariant NoDup(speakers)
    {
      assert order[..i + 1][..i] == order[..i];
      var mac := order[i];
      var state := current[mac];
      if mac in last.devices {
        var lastState := last.devices[mac];
        if lastState.connected && !state.connected && state.isAudio {
          if mac in speakers {
            RemoveFirstMembers(speakers, mac);
            speakers := RemoveFirst(speakers, mac);
          }
          actions := actions + [SetWired, Broadcast(DeviceDisconnected(mac, state.name))];
        } else if !lastState.connected && state.connected && state.isAudio {
          AddIfAbsentMembers(speakers, mac);
          if mac !in speakers {
            speakers := speakers + [mac];
          }
          actions := actions + [SetBluetooth(mac, Some(state.name))];
          if btOk(mac) {
            actions := actions + [Broadcast(DeviceReconnected(mac, state.name))];
          }
        }
      }
      i := i + 1;
    }
    assert order[..i] == order;
  }

  /** The long-lived state of the service. */
  class SpeakerService {
    /** `connected_speakers`: the addresses believed connected, in order. */
    var connectedSpeakers: seq<string>
    /** `last_known_devices`: the snapshot of the previous poll. */
    var lastKnownDevices: Snapshot
    /** `consecutive_errors`: failed monitoring iterations in a row. */
    var consecutiveErrors: nat

    ghost predicate Valid()
      reads this
    {
      NoDup(connectedSpeakers) && WellOrdered(lastKnownDevices) && consecutiveErrors < MaxConsecutiveErrors
    }

    constructor()
      ensures Valid()
      ensures connectedSpeakers == [] && lastKnownDevices == Empty && consecutiveErrors == 0
    {
      connectedSpeakers := [];
      lastKnownDevices := Empty;
      consecutiveErrors := 0;
    }

    /**
     * One successful iteration of continuous_monitoring (lines 940-1032):
     * read the snapshot, reset the error counter, diff against the previous
     * snapshot, run the orphaned-sink check, keep the new snapshot, wait 3 s.
     */
    method Poll(devices: Option<seq<string>>, info: string -> Option<string>,
                currentSink: Option<string>, btOk: string -> bool)
      returns (actions: seq<Action>, delay: nat)
      requires Valid()
      modifies this
      ensures Valid()
      ensures var current := CurrentStates(devices, info);
        var p := Diff(current.order, old(lastKnownDevices), current.devices, old(connectedSpeakers), btOk);
        && connectedSpeakers == p.speakers
        && actions == p.actions + OrphanActions(currentSink, current)
        && lastKnownDevices == current
        && consecutiveErrors == 0
        && delay == PollDelay
    {
      var current := GetCurrentDeviceStates(devices, info);
      CurrentStatesWellOrdered(devices, info);
      var speakers;
      speakers, actions := DiffDevices(current.order, lastKnownDevices, current.devices, connectedSpeakers, btOk);
      if currentSink.Some? && currentSink.value != "" && Contains(Lower(currentSink.value), "bluez") &&
         !HasActiveAudio(current) {
        actions := actions + [SetWired, Broadcast(OrphanedSinkDetected(currentSink.value))];
      }
      connectedSpeakers := speakers;
      lastKnownDevices := current;
      consecutiveErrors := 0;
      delay := PollDelay;
    }

    /**
     * A failed iteration (lines 1035-1043): count it; on the third in a row
     * reset the counter and wait 30 s, otherwise wait 10 s. Nothing else changes.
     */
    method PollFailed() returns (delay: nat)
      requires Valid()
      modifies this
      ensures Valid()
      ensures (consecutiveErrors, delay) == AfterFailure(old(consecutiveErrors))
      ensures connectedSpeakers == old(connectedSpeakers) && lastKnownDevices == old(lastKnownDevices)
    {
      consecutiveErrors := consecutiveErrors + 1;
      if consecutiveErrors >= MaxConsecutiveErrors {
        consecutiveErrors := 0;
        delay := RestartDelay;
      } else {
        delay := RetryDelay;
      }
    }

    /**
     * connect_speaker (lines 507-584): read the name, trust, pair, connect;
     * on success route to the speaker and add it to the list. A call that
     * raises ends the request with the list unchanged.
     */
    method ConnectSpeaker(mac: string, info: Option<seq<string>>, trustRan: bool, pair: ToolResult, connect: ToolResult)
      returns (actions: seq<Action>, response: ConnectResponse)
      requires Valid()
      modifies this
      ensures Valid()
      ensures (actions, response) == ConnectOutcome(mac, info, trustRan, pair, connect)
      ensures connectedSpeakers ==
        (if response.Connected? then AddIfAbsent(old(connectedSpeakers), mac) else old(connectedSpeakers))
      ensures lastKnownDevices == old(lastKnownDevices) && consecutiveErrors == old(consecutiveErrors)
    {
      if info.None? {
        return [], ConnectError(mac);
      }
      var name := FindDeviceName(info.value);
      if !trustRan {
        return [Trust(mac)], ConnectError(mac);
      }
      if !pair.Done? {
        return [Trust(mac), Pair(mac)], if pair.TimedOut? then ConnectTimeout(mac) else ConnectError(mac);
      }
      actions := [Trust(mac), Pair(mac), Connect(mac)];
      if !connect.Done? {
        return actions, if connect.TimedOut? then ConnectTimeout(mac) else ConnectError(mac);
      }
      if Contains(connect.stdout, "Connection successful") || connect.returnCode == 0 {
        actions := [Trust(mac), Pair(mac), Connect(mac), SetBluetooth(mac, name)];
        AddIfAbsentMembers(connectedSpeakers, mac);
        if mac !in connectedSpeakers {
          connectedSpeakers := connectedSpeakers + [mac];
        }
        response := Connected(mac, name);
      } else {
        response := ConnectFailed(mac);
      }
    }

    /**
     * disconnect_speaker (lines 586-641): on success drop the speaker from
     * the list, set wired output, answer, set wired output again and, if
     * that second attempt fails, run the forced fallback. A failed
     * disconnect answers `disconnect_failed`, a raising one `disconnect_error`;
     * both leave the list alone.
     */
    method DisconnectSpeaker(mac: string, returnCode: Option<int>, secondWiredOk: bool)
      returns (actions: seq<Action>, response: DisconnectResponse)
      requires Valid()
      modifies this
      ensures Valid()
      ensures (actions, response) == DisconnectOutcome(mac, returnCode, secondWiredOk)
      ensures connectedSpeakers ==
        (if returnCode == Some(0) && mac in old(connectedSpeakers) then RemoveFirst(old(connectedSpeakers), mac)
         else old(connectedSpeakers))
      ensures lastKnownDevices == old(lastKnownDevices) && consecutiveErrors == old(consecutiveErrors)
    {
      actions := [Disconnect(mac)];
      if returnCode.None? {
        return actions, DisconnectError(mac);
      }
      if returnCode.value == 0 {
        if mac in connectedSpeakers {
          RemoveFirstMembers(connectedSpeakers, mac);
          connectedSpeakers := RemoveFirst(connectedSpeakers, mac);
        }
        actions := [Disconnect(mac), SetWired, SetWired];
        if !secondWiredOk {
          actions := [Disconnect(mac), SetWired, SetWired, ForceWiredFallback];
        }
        response := Disconnected(mac);
      } else {
        response := DisconnectFailed(mac);
      }
    }
  }

  /** A snapshot read from `bluetoothctl` lists each address once. */
  lemma CurrentStatesWellOrdered(devices: Option<seq<string>>, info: string -> Option<string>)
    ensures WellOrdered(CurrentStates(devices, info))
  {
    if devices.Some? && Collect(Entries(devices.value), info).Some? {
      CollectKeys(Entries(devices.value), info);
    }
  }

  // ---------------------------------------------------------------------
  // Properties of the poll step
  // ---------------------------------------------------------------------

  /** The diff never puts a duplicate into the list. */
  lemma {:induction false} DiffKeepsNoDup(order: seq<string>, last: Snapshot, current: map<string, DeviceState>,
                                          speakers: seq<string>, btOk: string -> bool)
    requires NoDup(speakers)
    ensures NoDup(Diff(order, last, current, speakers, btOk).speakers)
    decreases |order|
  {
    if order != [] {
      var p := Diff(order[..|order| - 1], last, current, speakers, btOk);
      DiffKeepsNoDup(order[..|order| - 1], last, current, speakers, btOk);
      var mac := order[|order| - 1];
      RemoveFirstMembers(p.speakers, mac);
      AddIfAbsentMembers(p.speakers, mac);
    }
  }

  /**
   * After the diff, an address is in the list exactly when: it disappeared
   * as an audio device → no; it came back as one → yes; otherwise, and for
   * every address not in both snapshots, as before.
   */
  lemma {:induction false} DiffMembership(order: seq<string>, last: Snapshot, current: map<string, DeviceState>,
                                          speakers: seq<string>, btOk: string -> bool, x: string)
    requires NoDup(order) && NoDup(speakers)
    requires forall mac | mac in order :: mac in current
    ensures x in Diff(order, last, current, speakers, btOk).speakers <==>
      if x in order && x in last.devices then
        match ChangeOf(last.devices[x], current[x])
        case WentAway => false
        case CameBack => true
        case Same => x in speakers
      else x in speakers
    decreases |order|
  {
    if order != [] {
      var init := order[..|order| - 1];
      var mac := order[|order| - 1];
      assert forall k | 0 <= k < |init| :: init[k] == order[k] && init[k] != mac;
      assert NoDup(init);
      DiffMembership(init, last, current, speakers, btOk, x);
      DiffKeepsNoDup(init, last, current, speakers, btOk);
      var p := Diff(init, last, current, speakers, btOk);
      DeviceStepMembership(p.speakers, mac, last, current[mac], btOk, x);
      assert x in order <==> x in init || x == mac;
    }
  }

  /** One step of the diff changes the membership of its own address only. */
  lemma DeviceStepMembership(speakers: seq<string>, mac: string, last: Snapshot, current: DeviceState,
                             btOk: string -> bool, x: string)
    requires NoDup(speakers)
    ensures x in DeviceStep(speakers, mac, last, current, btOk).speakers <==>
      if x == mac && mac in last.devices then
        match ChangeOf(last.devices[mac], current)
        case WentAway => false
        case CameBack => true
        case Same => x in speakers
      else x in speakers
  {
    RemoveFirstMembers(speakers, mac);
    AddIfAbsentMembers(speakers, mac);
  }

  /**
   * Every action of the diff is justified by an address present in both
   * snapshots: a disconnect broadcast by an audio device that went away, a
   * Bluetooth routing call and a reconnect broadcast by one that came back
   * (the broadcast only when routing succeeded); the diff itself never
   * reports an orphaned sink.
   */
  lemma {:induction false} DiffActionsJustified(order: seq<string>, last: Snapshot, current: map<string, DeviceState>,
                                                speakers: seq<string>, btOk: string -> bool)
    ensures forall a | a in Diff(order, last, current, speakers, btOk).actions ::
      match a
      case SetWired =>
        exists mac | mac in order && mac in last.devices && mac in current ::
          ChangeOf(last.devices[mac], current[mac]) == WentAway
      case Broadcast(DeviceDisconnected(mac, name)) =>
        mac in order && mac in last.devices && mac in current &&
        ChangeOf(last.devices[mac], current[mac]) == WentAway && name == current[mac].name
      case SetBluetooth(mac, name) =>
        mac in order && mac in last.devices && mac in current &&
        ChangeOf(last.devices[mac], current[mac]) == CameBack && name == Some(current[mac].name)
      case Broadcast(DeviceReconnected(mac, name)) =>
        mac in order && mac in last.devices && mac in current &&
        ChangeOf(last.devices[mac], current[mac]) == CameBack && btOk(mac) && name == current[mac].name
      case _ => false
    decreases |order|
  {
    if order != [] {
      var init := order[..|order| - 1];
      DiffActionsJustified(init, last, current, speakers, btOk);
      assert forall m | m in init :: m in order;
      var mac := order[|order| - 1];
      if mac in current && mac in last.devices && ChangeOf(last.devices[mac], current[mac]) == WentAway {
        assert mac in order;
      }
    }
  }

  /**
   * Conversely, every address present in both snapshots that went away as
   * an audio device makes the diff set wired output and broadcast the
   * disconnect, and every one that came back makes it route Bluetooth to it
   * and, when that routing succeeds, broadcast the reconnect.
   */
  lemma {:induction false} DiffActionsComplete(order: seq<string>, last: Snapshot, current: map<string, DeviceState>,
                                               speakers: seq<string>, btOk: string -> bool, mac: string)
    requires mac in order && mac in last.devices && mac in current
    ensures var actions := Diff(order, last, current, speakers, btOk).actions;
      && (ChangeOf(last.devices[mac], current[mac]) == WentAway ==>
            SetWired in actions && Broadcast(DeviceDisconnected(mac, current[mac].name)) in actions)
      && (ChangeOf(last.devices[mac], current[mac]) == CameBack ==>
            SetBluetooth(mac, Some(current[mac].name)) in actions &&
            (btOk(mac) ==> Broadcast(DeviceReconnected(mac, current[mac].name)) in actions))
    decreases |order|
  {
    var init := order[..|order| - 1];
    var p := Diff(init, last, current, speakers, btOk);
    var final := order[|order| - 1];
    var actions := Diff(order, last, current, speakers, btOk).actions;
    if final in current {
      var q := DeviceStep(p.speakers, final, last, current[final], btOk);
      assert actions == p.actions + q.actions;
    } else {
      assert actions == p.actions;
    }
    if mac != final {
      assert mac in init by {
        var k :| 0 <= k < |order| && order[k] == mac;
        assert init[k] == mac;
      }
      DiffActionsComplete(init, last, current, speakers, btOk, mac);
    }
  }

  /**
   * The orphaned-sink action fires exactly when the default sink is a
   * Bluetooth sink and no device of the new snapshot is connected audio,
   * and it comes after everything the diff did.
   */
  lemma OrphanFiresIff(order: seq<string>, last: Snapshot, current: Snapshot,
                       speakers: seq<string>, btOk: string -> bool, currentSink: Option<string>)
    ensures var diff := Diff(order, last, current.devices, speakers, btOk).actions;
      var actions := diff + OrphanActions(currentSink, current);
      && ((exists s :: Broadcast(OrphanedSinkDetected(s)) in actions) <==> Orphaned(currentSink, current))
      && (Orphaned(currentSink, current) ==>
            actions[|diff|..] == [SetWired, Broadcast(OrphanedSinkDetected(currentSink.value))])
  {
    var diff := Diff(order, last, current.devices, speakers, btOk).actions;
    DiffActionsJustified(order, last, current.devices, speakers, btOk);
    var actions := diff + OrphanActions(currentSink, current);
    if exists s :: Broadcast(OrphanedSinkDetected(s)) in actions {
      var s :| Broadcast(OrphanedSinkDetected(s)) in actions;
      if Broadcast(OrphanedSinkDetected(s)) in diff {
        assert false;
      }
    }
    if Orphaned(currentSink, current) {
      assert actions[|diff| + 1] == Broadcast(OrphanedSinkDetected(currentSink.value));
    }
  }

  /**
   * Scenario: a connected audio speaker powers off. The next poll drops it
   * from the list, sets wired output and broadcasts the disconnect.
   */
  lemma SpeakerPoweredOff(mac: string, name: string, before: DeviceState, speakers: seq<string>,
                          btOk: string -> bool)
    requires NoDup(speakers) && mac in speakers && before.connected
    ensures var last := Snapshot([mac], map[mac := before]);
      var now := DeviceState(name, false, true, true);
      var p := Diff([mac], last, map[mac := now], speakers, btOk);
      && mac !in p.speakers
      && p.actions == [SetWired, Broadcast(DeviceDisconnected(mac, name))]
  {
    var last := Snapshot([mac], map[mac := before]);
    var now := DeviceState(name, false, true, true);
    assert [mac][..0] == [];
    RemoveFirstMembers(speakers, mac);
  }
}
