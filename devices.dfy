/**
 * What bluetooth-speaker.py reads from `bluetoothctl`: the device lines of
 * `bluetoothctl devices`, the flags and the device type read from
 * `bluetoothctl info <mac>`, and the snapshot `get_current_device_states`
 * builds from them.
 */
module Devices {
  import opened Wrappers
  import opened Text

  // ---------------------------------------------------------------------
  // `bluetoothctl info` text
  // ---------------------------------------------------------------------

  predicate InfoConnected(info: string) { Contains(info, "Connected: yes") }
  predicate InfoPaired(info: string) { Contains(info, "Paired: yes") }
  predicate InfoTrusted(info: string) { Contains(info, "Trusted: yes") }

  /** `is_audio_device`: the info mentions an audio profile. */
  predicate IsAudioInfo(info: string) {
    Contains(info, "Audio Sink") || Contains(info, "Audio Source") ||
    Contains(info, "A2DP") || Contains(info, "Headset")
  }

  datatype DeviceType = Audio | Headset | Input | Phone | Unknown

  /**
   * The device type reported by `scan_bluetooth_speakers` and
   * `list_connected_speakers`: the first test that matches wins.
   */
  function TypeOf(info: string): DeviceType {
    if Contains(info, "Audio Sink") || Contains(info, "Audio Source") then Audio
    else if Contains(info, "Headset") || Contains(info, "A2DP") then Headset
    else if Contains(info, "Mouse") || Contains(info, "Keyboard") then Input
    else if Contains(info, "Phone") then Phone
    else Unknown
  }

  /**
   * The two classifications agree: a device counts as audio for monitoring
   * and reconnecting exactly when its listed type is `audio` or `headset`,
   * and an audio-profile device is never listed as input, phone or unknown.
   */
  lemma AudioIffAudioType(info: string)
    ensures IsAudioInfo(info) <==> TypeOf(info) == Audio || TypeOf(info) == Headset
    ensures TypeOf(info) == Input ==> !IsAudioInfo(info) && (Contains(info, "Mouse") || Contains(info, "Keyboard"))
    ensures TypeOf(info) == Phone ==> !IsAudioInfo(info) && Contains(info, "Phone")
  {
  }

  // ---------------------------------------------------------------------
  // `bluetoothctl devices` lines
  // ---------------------------------------------------------------------

  /**
   * A line `Device <mac> <name words>`: a non-blank line mentioning `Device`
   * with at least three words gives the second word as the address and the
   * remaining words, joined by single spaces, as the name.
   */
  function DeviceEntry(line: string): Option<(string, string)> {
    var parts := SplitWs(line);
    if Strip(line) != [] && Contains(line, "Device") && |parts| >= 3 then
      Some((parts[1], JoinWith(parts[2..], ' ')))
    else None
  }

  /** The address of an entry is one word of its line, and the name is not empty. */
  lemma DeviceEntryFields(line: string)
    requires DeviceEntry(line).Some?
    ensures var (mac, name) := DeviceEntry(line).value;
      && mac != [] && Contains(line, mac) && (forall i | 0 <= i < |mac| :: !IsSpace(mac[i]))
      && name != []
      && Contains(line, "Device")
  {
    var parts := SplitWs(line);
    SplitWsWords(line);
    assert parts[2] != [];
    assert |parts[2..]| >= 1 && parts[2..][0] == parts[2];
    JoinWithFirst(parts[2..], ' ');
  }

  /** A join starts with its first part, so it is not empty when that part is not. */
  lemma JoinWithFirst(parts: seq<string>, sep: char)
    requires parts != []
    ensures |JoinWith(parts, sep)| >= |parts[0]|
  {
  }

  // ---------------------------------------------------------------------
  // The snapshot
  // ---------------------------------------------------------------------

  /** One entry of `device_states`; `last_seen` (a clock reading) is not modelled. */
  datatype DeviceState = DeviceState(name: string, connected: bool, paired: bool, isAudio: bool)

  function StateOf(name: string, info: string): DeviceState {
    DeviceState(name, InfoConnected(info), InfoPaired(info), IsAudioInfo(info))
  }

  /**
   * A dictionary from address to state that keeps Python's iteration order:
   * `order` lists each key once, in the order it was first inserted.
   */
  datatype Snapshot = Snapshot(order: seq<string>, devices: map<string, DeviceState>)

  const Empty := Snapshot([], map[])

  predicate NoDup(s: seq<string>) {
    forall i, j | 0 <= i < j < |s| :: s[i] != s[j]
  }

  ghost predicate WellOrdered(snap: Snapshot) {
    NoDup(snap.order) && (forall mac :: mac in snap.devices <==> mac in snap.order)
  }

  /** `d[mac] = st`: a new key goes last, an existing key keeps its place and gets the new value. */
  function Put(snap: Snapshot, mac: string, st: DeviceState): (r: Snapshot)
    ensures WellOrdered(snap) ==> WellOrdered(r)
    ensures r.devices == snap.devices[mac := st]
  {
    if mac in snap.devices then Snapshot(snap.order, snap.devices[mac := st])
    else Snapshot(snap.order + [mac], snap.devices[mac := st])
  }

  /** The entry each line of a `bluetoothctl devices` listing gives, in order. */
  function Entries(lines: seq<string>): (r: seq<Option<(string, string)>>)
    ensures |r| == |lines|
    decreases |lines|
  {
    if lines == [] then [] else Entries(lines[..|lines| - 1]) + [DeviceEntry(lines[|lines| - 1])]
  }

  lemma {:induction false} EntriesAt(lines: seq<string>, i: nat)
    requires i < |lines|
    ensures Entries(lines)[i] == DeviceEntry(lines[i])
    decreases |lines|
  {
    if i < |lines| - 1 {
      EntriesAt(lines[..|lines| - 1], i);
    }
  }

  /**
   * What the loop of `get_current_device_states` has built after the
   * entries, or `None` once an info call has raised. `info(mac)` is what
   * `bluetoothctl info <mac>` prints, `None` when it times out.
   */
  function Collect(entries: seq<Option<(string, string)>>, info: string -> Option<string>): Option<Snapshot>
    decreases |entries|
  {
    if entries == [] then Some(Empty)
    else
      match Collect(entries[..|entries| - 1], info)
      case None => None
      case Some(snap) =>
        match entries[|entries| - 1]
        case None => Some(snap)
        case Some((mac, name)) =>
          match info(mac)
          case None => None
          case Some(out) => Some(Put(snap, mac, StateOf(name, out)))
  }

  /**
   * `get_current_device_states`: `devices` is the output of `bluetoothctl
   * devices` split into lines, `None` when that call timed out; any failure
   * gives the empty dictionary.
   */
  function CurrentStates(devices: Option<seq<string>>, info: string -> Option<string>): Snapshot {
    match devices
    case None => Empty
    case Some(lines) =>
      match Collect(Entries(lines), info)
      case None => Empty
      case Some(snap) => snap
  }

  /** get_current_device_states (lines 882-928). */
  method GetCurrentDeviceStates(devices: Option<seq<string>>, info: string -> Option<string>) returns (snap: Snapshot)
    ensures snap == CurrentStates(devices, info)
  {
    if devices.None? {
      return Empty;
    }
    var lines := devices.value;
    ghost var entries := Entries(lines);
    snap := Empty;
    var i := 0;
    while i < |lines|
      invariant 0 <= i <= |lines|
      invariant Collect(entries[..i], info) == Some(snap)
    {
      assert entries[..i + 1][..i] == entries[..i];
      var entry := DeviceEntry(lines[i]);
      EntriesAt(lines, i);
      if entry.Some? {
        var (mac, name) := entry.value;
        var out := info(mac);
        if out.None? {
          CollectStaysFailed(entries, info, i + 1);
          return Empty;
        }
        snap := Put(snap, mac, StateOf(name, out.value));
      }
      i := i + 1;
    }
    assert entries[..i] == entries;
  }

  /** Once an info call has raised, the rest of the listing does not matter. */
  lemma {:induction false} CollectStaysFailed(entries: seq<Option<(string, string)>>, info: string -> Option<string>, k: nat)
    requires k <= |entries| && Collect(entries[..k], info).None?
    ensures Collect(entries, info).None?
    decreases |entries| - k
  {
    if k < |entries| {
      assert entries[..k + 1][..k] == entries[..k];
      CollectStaysFailed(entries, info, k + 1);
    } else {
      assert entries[..k] == entries;
    }
  }

  /** A successful collection fails on no prefix. */
  lemma CollectPrefix(entries: seq<Option<(string, string)>>, info: string -> Option<string>)
    requires entries != [] && Collect(entries, info).Some?
    ensures Collect(entries[..|entries| - 1], info).Some?
  {
  }

  /** The dictionary holds one key per address some entry names, each listed once in `order`. */
  lemma {:induction false} CollectKeys(entries: seq<Option<(string, string)>>, info: string -> Option<string>)
    requires Collect(entries, info).Some?
    ensures WellOrdered(Collect(entries, info).value)
    ensures forall mac :: mac in Collect(entries, info).value.devices <==>
      exists i | 0 <= i < |entries| :: entries[i].Some? && entries[i].value.0 == mac
    decreases |entries|
  {
    if entries != [] {
      var n := |entries| - 1;
      var init := entries[..n];
      CollectPrefix(entries, info);
      CollectKeys(init, info);
      assert forall i | 0 <= i < n :: init[i] == entries[i];
    }
  }

  /**
   * The value of an address is read from the info of the LAST entry naming
   * it, under that entry's name: a later line for the same address
   * overwrites an earlier one.
   */
  lemma {:induction false} CollectLastWins(entries: seq<Option<(string, string)>>, info: string -> Option<string>, i: nat)
    requires Collect(entries, info).Some?
    requires i < |entries| && entries[i].Some?
    requires forall j | i < j < |entries| :: entries[j].None? || entries[j].value.0 != entries[i].value.0
    ensures var (mac, name) := entries[i].value;
      && mac in Collect(entries, info).value.devices
      && info(mac).Some?
      && Collect(entries, info).value.devices[mac] == StateOf(name, info(mac).value)
    decreases |entries|
  {
    var n := |entries| - 1;
    CollectPrefix(entries, info);
    if i < n {
      var init := entries[..n];
      assert init[i] == entries[i];
      CollectLastWins(init, info, i);
    }
  }

  /** A failed `bluetoothctl` call leaves nothing known: every address is absent. */
  lemma FailedCallForgetsDevices(devices: Option<seq<string>>, info: string -> Option<string>)
    requires devices.None? ||
      exists i | 0 <= i < |devices.value| :: DeviceEntry(devices.value[i]).Some? && info(DeviceEntry(devices.value[i]).value.0).None?
    ensures CurrentStates(devices, info) == Empty
  {
    if devices.Some? {
      var lines := devices.value;
      var i :| 0 <= i < |lines| && DeviceEntry(lines[i]).Some? && info(DeviceEntry(lines[i]).value.0).None?;
      EntriesAt(lines, i);
      CollectFailsAt(Entries(lines), info, i);
    }
  }

  /** An entry whose info call raises makes the whole collection fail. */
  lemma CollectFailsAt(entries: seq<Option<(string, string)>>, info: string -> Option<string>, i: nat)
    requires i < |entries| && entries[i].Some? && info(entries[i].value.0).None?
    ensures Collect(entries, info).None?
  {
    var prefix := entries[..i + 1];
    assert prefix[..i] == entries[..i];
    CollectStaysFailed(entries, info, i + 1);
  }
}
