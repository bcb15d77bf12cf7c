# Bluetooth speaker service and BLE provisioning: a Dafny model

This project models the decision logic of two Raspberry Pi services.

`bluetooth-speaker.py` keeps a Bluetooth speaker as the PulseAudio default
sink and falls back to the wired HDMI sink. The model covers:

- the sink resolver: each Bluetooth sink scores 100, 80, 50 or 0, the first
  best sink wins, a score of 100 stops the scan, and there are up to 10
  attempts;
- the wired (HDMI) selector and the forced fallback that restarts PulseAudio;
- the parsing of `pactl list short sink-inputs` when streams are moved;
- the device snapshot built from `bluetoothctl devices` / `bluetoothctl info`,
  and the device-type classification;
- one iteration of the monitoring loop: the diff against the previous
  snapshot, the updates of the speaker list, the orphaned-sink check, the
  snapshot replacement and the error backoff;
- the per-device decisions of the reconnect pass run after a reboot;
- the speaker-list updates made by connect and disconnect requests.

`new-ble-gatt-1.py` is a BLE GATT service that receives Wi-Fi credentials and
device-removal commands. The model covers:

- the BlueZ object path built from a MAC address or an iOS UUID;
- the fallback search over managed objects and its match predicate;
- the ordered dispatch of a written payload: text `remove`, JSON remove,
  `disconnect`, Wi-Fi configuration;
- the status characteristic's notify flag and `send_status`;
- the `nmcli` line predicates and the polling loops that use them.

Every external tool is replaced by its output, passed in as a value:

- a listing is a sequence of lines;
- a return code or success flag is a `bool` or an `int`;
- a call whose exception the model follows is `None`, or `TimedOut` or
  `Raised` for a timed `bluetoothctl` call; the routing calls whose
  exceptions are not followed are listed under "## Left out";
- per-device answers are functions from the address to the output.

What the service would run or broadcast is returned as a sequence of
commands or actions, in order.

Modules:

- `Wrappers`: `Option`.
- `Text`: Python's string operations on `seq<char>`: `split`, `strip`,
  `lower`, `replace`, `in`, `startswith`, `join`.
- `Sinks`: scoring and scanning of sink listings.
- `Routing`: the resolver, the wired selector and the fallback.
- `Devices`: classification and the snapshot.
- `Monitor`: the monitoring step, connect/disconnect and the `SpeakerService` class.
- `Reconnect`: the reconnect pass.
- `Ble`: paths, search, dispatch, the status characteristic and the write handler.
- `Wifi`: the `nmcli` predicates and the two waits.

## Model

| member | source | states |
|---|---|---|
| Sinks.ScoreSink | bluetooth-speaker.py:143-166 | a sink's score is one of 100, 80, 50 or 0 |
| Sinks.NamedDeviceHasNoFallback | bluetooth-speaker.py:149-166 | with a device name given, a sink matching neither the address nor any name spelling scores 0: the 50-point generic match is unreachable |
| Sinks.OfferParts | bluetooth-speaker.py:130-138 | a line offers a sink only when it is non-blank, mentions `bluez` in any case and has two columns; the sink is column 2, with that sink's score |
| Sinks.OffersWellFormed | bluetooth-speaker.py:130-166 | a line that offers no sink offers score 0, and no offer exceeds 100 |
| Sinks.BestOfferStep | bluetooth-speaker.py:169-172 | a later offer replaces the kept sink exactly when its score is strictly greater |
| Sinks.BestOfferIsFirstMaximum | bluetooth-speaker.py:169-176 | no offer beats the kept one and no earlier offer ties it: ties keep the first line |
| Sinks.BestOfferStopsAtAddress | bluetooth-speaker.py:174-176 | once the kept sink scores 100 no later line can change the result, so stopping the scan there loses nothing |
| Sinks.AddressMatchWins | bluetooth-speaker.py:143-176 | the first line whose sink carries the lowercased address with `_` for `:` is chosen, with 100 |
| Sinks.BestOfIsFirstMaximum | bluetooth-speaker.py:130-176 | the scan's score is 0 exactly when no sink is kept; a kept sink is offered by the first line that reaches the best score, and no line offers more |
| Sinks.ScanSinks | bluetooth-speaker.py:127-176 | the scanning loop with its early stop returns exactly the first best offer of the listing |
| Sinks.HdmiSinkIsWired | bluetooth-speaker.py:240-251 | a sink the wired selector can pick mentions `hdmi` and never `bluez` |
| Sinks.HdmiSinksAreWired | bluetooth-speaker.py:332-340 | the fallback's HDMI list holds exactly the sinks offered by HDMI lines, each wired and not Bluetooth |
| Sinks.FindFirstHdmi | bluetooth-speaker.py:238-254 | the selector loop stops at, and returns, the first HDMI sink of the listing, or none |
| Sinks.CollectHdmiSinks | bluetooth-speaker.py:332-340 | the fallback loop collects every HDMI sink in listing order |
| Sinks.StreamIdsOfLines | bluetooth-speaker.py:301-306 | every moved stream id is the first tab-separated field of a non-blank line and holds no tab |
| Sinks.MoveAllStreamsToSink | bluetooth-speaker.py:290-313 | the loop yields the id of one stream to move per non-blank line, in order, equal to the reference stream ids |
| Routing.Apply | bluetooth-speaker.py:181-206 | a chosen sink is set; streams move and the result is true only when the set succeeded |
| Routing.SetBluetoothAsDefaultSink | bluetooth-speaker.py:106-222 | the 10-attempt retry loop returns exactly the resolver outcome: the first accepted attempt's sink is set once |
| Routing.FirstAcceptedIsFirstAttempt | bluetooth-speaker.py:114-178 | the sink set comes from the first attempt whose best Bluetooth sink scores at least 50; there is none exactly when no attempt reaches 50 |
| Routing.ResolverSetsOnlyAcceptedSinks | bluetooth-speaker.py:114-216 | `set-default-sink` is issued only with a Bluetooth sink that is some attempt's best and scores at least 50; with none the call fails and runs nothing |
| Routing.AppliedSetsOnce | bluetooth-speaker.py:178-206 | the set is the first command and is issued once; the result is true exactly when it succeeded, and a failed set ends the call with no retry |
| Routing.ResolverSucceeds | bluetooth-speaker.py:178-216 | the resolver succeeds exactly when some attempt is accepted and the set on its sink succeeds |
| Routing.NamedDeviceNeedsAMatch | bluetooth-speaker.py:149-216 | for a named device, listings with no address or name match are never set and the call fails with nothing run |
| Routing.SetDefaultToAudiocodec | bluetooth-speaker.py:223-288 | the wired selector's outcome: the first HDMI sink is set, or the call fails with nothing run |
| Routing.WiredSetsOnlyHdmi | bluetooth-speaker.py:240-284 | the wired selector sets only the first sink mentioning `hdmi` on a line without `bluez`, and succeeds exactly when such a sink exists and its set succeeds |
| Routing.ForceSetHdmiFallback | bluetooth-speaker.py:315-398 | the fallback method's commands and result are those of its route function |
| Routing.FallbackOutcomes | bluetooth-speaker.py:332-394 | with no HDMI sink: fail and run nothing; a successful set on the first HDMI sink: the wired selector's own result on the same listing, with no restart; only a failed set leads to kill and start, then, if the start succeeded, to exactly one run of the wired selector whose result is returned, and otherwise to failure |
| Devices.AudioIffAudioType | bluetooth-speaker.py:476-484 | the same type tests appear again at lines 689-697; a device is audio for monitoring (`is_audio`, lines 912-915) exactly when its listed type is `audio` or `headset`; `input` and `phone` devices are never audio |
| Devices.DeviceEntryFields | bluetooth-speaker.py:895-900 | a device line gives its second word as the address and a non-empty name made of the remaining words |
| Devices.Put | bluetooth-speaker.py:917-923 | storing a device overwrites its value and keeps each key listed once, in insertion order |
| Devices.GetCurrentDeviceStates | bluetooth-speaker.py:882-928 | the parsing loop builds exactly the snapshot of the listing, or the empty one when any call fails |
| Devices.CollectKeys | bluetooth-speaker.py:895-923 | the snapshot has one key per address named by some device line, each listed once |
| Devices.CollectLastWins | bluetooth-speaker.py:899-923 | an address's state comes from the info of the last line naming it, under that line's name, with `connected`, `paired` and `is_audio` read from that info |
| Devices.CollectStaysFailed | bluetooth-speaker.py:903-928 | once an info call has raised, the rest of the listing does not matter |
| Devices.CollectFailsAt | bluetooth-speaker.py:903-928 | an info call that times out makes the whole snapshot fail |
| Devices.FailedCallForgetsDevices | bluetooth-speaker.py:888-928 | a failed `bluetoothctl` call gives the empty snapshot |
| Monitor.RemoveFirstMembers | bluetooth-speaker.py:958-959 | removing an address from a duplicate-free list keeps every other address, drops it, and adds no duplicate |
| Monitor.AddIfAbsentMembers | bluetooth-speaker.py:982-983 | appending only when absent keeps the list duplicate-free and adds exactly that address |
| Monitor.FailuresCycle | bluetooth-speaker.py:1035-1043 | after n failures in a row the counter is n mod 3, and the n-th failure waits 30 s exactly when n is a multiple of 3, 10 s otherwise |
| Monitor.NameFromFirstLine | bluetooth-speaker.py:519-522 | the device name comes from the first info line mentioning `Name:`, and is absent exactly when no line does |
| Monitor.FindDeviceName | bluetooth-speaker.py:519-522 | the name loop returns the specified name |
| Monitor.ConnectOutcomes | bluetooth-speaker.py:507-584 | the answer is `connect_error` exactly when the info, trust, pair or connect call raised something other than a timeout, `timeout` when pair or connect timed out, `connected` exactly when connect returned 0 or printed `Connection successful`, `failed` otherwise; once info and trust went through, trust and pair come first; the pair result is ignored; routing to the speaker, under the name read from the info, happens exactly on `connected` |
| Monitor.DisconnectOutcomes | bluetooth-speaker.py:586-641 | a disconnect succeeds exactly on return code 0 and answers `disconnect_error` exactly when the call raised; only on success is wired output set twice, and the forced fallback runs exactly when the second attempt fails |
| Monitor.ConnectThenDisconnect | bluetooth-speaker.py:550-599 | a speaker connected then disconnected leaves exactly the other speakers in the list |
| Monitor.DiffDevices | bluetooth-speaker.py:948-983 | the comparison loop yields the list and actions of the diff, and the list stays duplicate-free |
| Monitor.SpeakerService.constructor | bluetooth-speaker.py:26-32 | an empty speaker list and an empty snapshot, as `__init__` sets them; the error counter starts at 0 as the local `consecutive_errors` does at lines 937-945 |
| Monitor.SpeakerService.Poll | bluetooth-speaker.py:940-1032 | one successful iteration: the counter is reset, the list and actions are the diff's followed by the orphaned-sink check, the snapshot becomes the new one, and the wait is 3 s |
| Monitor.SpeakerService.PollFailed | bluetooth-speaker.py:1035-1043 | a failed iteration updates only the counter and returns the wait |
| Monitor.SpeakerService.ConnectSpeaker | bluetooth-speaker.py:507-584 | the list gains the address exactly on a `connected` answer, appended only when absent; a timeout or an exception leaves it unchanged |
| Monitor.SpeakerService.DisconnectSpeaker | bluetooth-speaker.py:586-641 | the list loses the address exactly on a successful disconnect; a failed or raising call leaves it unchanged |
| Monitor.CurrentStatesWellOrdered | bluetooth-speaker.py:882-928 | a snapshot lists each address once |
| Monitor.DiffKeepsNoDup | bluetooth-speaker.py:948-983 | the diff never puts a duplicate into the speaker list |
| Monitor.DiffMembership | bluetooth-speaker.py:948-983 | after the diff an address is listed exactly when: it went away as audio, no; it came back as audio, yes; otherwise, or when it is not in both snapshots, as before |
| Monitor.DeviceStepMembership | bluetooth-speaker.py:949-983 | one diff step changes only the membership of its own address |
| Monitor.DiffActionsJustified | bluetooth-speaker.py:948-983 | every diff action comes from an address in both snapshots: the wired-output call and the disconnect broadcast from an audio device that went away, routing and the reconnect broadcast from one that came back (that broadcast only when routing succeeded); the diff never reports an orphaned sink |
| Monitor.DiffActionsComplete | bluetooth-speaker.py:948-983 | conversely, an audio device in both snapshots that went away makes the diff set wired output and broadcast its disconnect, and one that came back makes it route Bluetooth to it and, when that routing succeeds, broadcast its reconnect |
| Monitor.OrphanFiresIff | bluetooth-speaker.py:1002-1026 | the orphaned-sink action fires exactly when the default sink mentions `bluez` and no device of the new snapshot is connected audio, and it comes after the diff's actions |
| Monitor.SpeakerPoweredOff | bluetooth-speaker.py:950-973 | example, one concrete scenario rather than a general property: a connected audio speaker that powers off is dropped from the list, and the wired route and the disconnect broadcast follow |
| Reconnect.AutoReconnectPairedDevices | bluetooth-speaker.py:1045-1173 | the reconnect loop produces exactly the pass of the listing |
| Reconnect.AttemptDevice | bluetooth-speaker.py:1107-1150 | one device's trust, optional pair, connect and routing, as specified |
| Reconnect.RunStaysAborted | bluetooth-speaker.py:1107-1173 | once a pair or connect has raised (a timeout or any other exception), later lines change nothing |
| Reconnect.JustifiedGrows | bluetooth-speaker.py:1080-1159 | an action justified by a prefix of the listing stays justified by the whole listing |
| Reconnect.AttemptSound | bluetooth-speaker.py:1107-1150 | an attempt on a listed eligible device keeps every action and recorded name justified |
| Reconnect.ConfirmSound | bluetooth-speaker.py:1152-1159 | confirming an already connected audio device keeps the pass justified |
| Reconnect.RunJustified | bluetooth-speaker.py:1080-1159 | only unconnected, paired-or-trusted devices are trusted and connected, and only unpaired ones paired; only audio devices, connected already or reconnected, are routed to; no wired call happens during the walk; reconnects never exceed attempts |
| Reconnect.RunCoversEligible | bluetooth-speaker.py:1106-1132 | a pass not ended by a raising pair or connect call (a timeout or any other exception) has trusted, paired when unpaired, and tried to connect every eligible listed device |
| Reconnect.RunRoutesAudio | bluetooth-speaker.py:1133-1159 | a pass that ran to the end routes to every listed audio device that was connected already or whose connect succeeded, and records its name as the default sink when that routing succeeded |
| Reconnect.NoWiredAfterAudioDefault | bluetooth-speaker.py:1133-1164 | when a listed audio device, connected already or reconnected, is successfully routed to, the pass does not fall back to wired output |
| Reconnect.WiredIffNoAudio | bluetooth-speaker.py:1161-1164 | wired output is set exactly when the pass ran to the end and no audio device took the default, and it is the last call |
| Reconnect.AbortedByFailedCall | bluetooth-speaker.py:1117-1132 | a pass ends early only when an attempted device's pair (if unpaired) or connect call raised |
| Ble.DevicePathShape | new-ble-gatt-1.py:99-105 | the path is `/org/bluez/hci0/dev_` followed by as many characters as the identifier; for a 36-character identifier with `-` no `-` is left in that tail, for any other identifier no `:` is left |
| Ble.DevicePathRoundTrip | new-ble-gatt-1.py:99-105 | for an identifier without `_`, turning `_` in the path's tail back into `-` (UUID form) or `:` (otherwise) gives the identifier: only `-` or `:` respectively is rewritten |
| Ble.FirstMatch | new-ble-gatt-1.py:68-81 | the matched index is within the object list |
| Ble.FirstMatchIsFirst | new-ble-gatt-1.py:68-84 | the match is the first device object whose address equals the identifier ignoring case, or whose uppercased path contains the uppercased identifier with `-` as `_`; none exactly when no object matches |
| Ble.SearchFindsDevicePath | new-ble-gatt-1.py:68-84 | a device object at a UUID's built path is matched by the search; for an identifier with `:` that is not a UUID, its own built path never contains the search needle, so only the address test can find it |
| Ble.TryRemoveBySearch | new-ble-gatt-1.py:52-88 | the search loop calls `RemoveDevice` only on the first matching object and returns that call's result; with no match, or no object list because the bus call raised, it removes nothing and returns false |
| Ble.RemoveBluetoothDevice | new-ble-gatt-1.py:90-113 | the removal is the specified one: the built path is tried first, and the search runs only when that removal raised |
| Ble.RemovalOutcomes | new-ble-gatt-1.py:90-113 | the built path is always the first `RemoveDevice` call; a second call happens exactly when that one failed and the search has a match, and it goes to the first matching object; the result is that of the last call |
| Ble.StripBlankFree | new-ble-gatt-1.py:305-308 | a string without whitespace is unchanged by `strip`, so the id taken from the second word is that word |
| Ble.TextRemoveFirst | new-ble-gatt-1.py:305-318 | a payload whose stripped lowercase form starts with `remove` is handled before any JSON: it removes the second word exactly when there are two words, and otherwise asks for a device id |
| Ble.JsonRemoveNeedsId | new-ble-gatt-1.py:321-334 | a JSON remove (after no text remove applied) asks for a device id exactly when `mac` is missing or falsy, and removes exactly when `mac` is a non-empty string, with that string as the id |
| Ble.DisconnectIsExact | new-ble-gatt-1.py:336-349 | the service shuts down exactly on a payload that is `disconnect` ignoring case and surrounding whitespace, when no earlier rule applied |
| Ble.ConnectNeedsSsid | new-ble-gatt-1.py:350-363 | a connection starts only for a JSON object with a string ssid that is non-empty after `strip`, using the stripped ssid and the given password, and only when no remove or disconnect rule applied; invalid JSON reaching the last branch answers `Invalid JSON` |
| Ble.WifiConfigIsTheRest | new-ble-gatt-1.py:305-363 | a payload no remove or disconnect rule claims, including JSON whose `cmd` is another string, is Wi-Fi configuration: a blank string ssid answers `SSID required` and starts nothing, a non-blank one starts a connection to the stripped ssid with the given password |
| Ble.Classify | new-ble-gatt-1.py:299-369 | the early-return chain yields the specified dispatch for every payload |
| Ble.WifiStatusCharacteristic.constructor | new-ble-gatt-1.py:276-278 | a new status characteristic is not notifying and has sent nothing |
| Ble.WifiStatusCharacteristic.SendStatus | new-ble-gatt-1.py:280-284 | a status is emitted exactly while notifying, and the flag is unchanged |
| Ble.WifiStatusCharacteristic.StartNotify | new-ble-gatt-1.py:286-288 | sets the flag and sends nothing |
| Ble.WifiStatusCharacteristic.StopNotify | new-ble-gatt-1.py:290-292 | clears the flag and sends nothing |
| Ble.Replay | new-ble-gatt-1.py:280-292 | a sequence of subscribe, unsubscribe and send events emits exactly the statuses sent while subscribed |
| Ble.SilentWithoutSubscriber | new-ble-gatt-1.py:280-282 | with no subscribe event, nothing is emitted and the flag stays off |
| Ble.LoudWhileSubscribed | new-ble-gatt-1.py:280-289 | while notifying, a run of sends emits every status, in order |
| Ble.EmittedAtMostSent | new-ble-gatt-1.py:280-292 | no more statuses are emitted than events, and every emitted status was sent by some event |
| Ble.WriteValue | new-ble-gatt-1.py:299-369 | a write classifies the payload, runs a removal only for a remove with an id, and sends that command's status message |
| Wifi.ReadyLineOfFields | new-ble-gatt-1.py:205-209 | a line `device:wifi:state` with a state in connected/disconnected/connecting is Wi-Fi-ready |
| Wifi.ReadyLineRejects | new-ble-gatt-1.py:205-209 | a line `device:kind:state` whose kind is not `wifi` or whose state is not one of the three is not ready |
| Wifi.ConnectionLineOfFields | new-ble-gatt-1.py:224-230 | for an ssid without `:`, `yes:<ssid>` matches it, and `<active>:<ssid>` with any other colon-free first field does not |
| Wifi.ColonSsidNeverMatches | new-ble-gatt-1.py:227-228 | an ssid containing `:` can never match, because the line is split on `:` |
| Wifi.WaitForWifiReady | new-ble-gatt-1.py:198-217 | the wait returns true exactly when some poll shows a ready line, stopping at the first such poll; a poll that raised counts as not ready |
| Wifi.WaitForConnection | new-ble-gatt-1.py:219-232 | the wait returns true exactly when some poll has a line matching the ssid and every earlier poll ran without it; it lets an exception out exactly when some poll raised and every earlier poll ran without the ssid; it returns false exactly when all 25 polls ran without it |

## Left out

- Sockets, client threads and JSON framing of the speaker service
  (bluetooth-speaker.py:34-104, 1175-1239) are left out; a broadcast is an
  `Action` value.
- The mDNS/Avahi files and `systemctl` restarts (bluetooth-speaker.py:768-802)
  are file and process I/O.
- Subprocess calls, sleeps and timeouts become inputs. The PulseAudio
  kill/start are output commands. The delays are returned, never waited.
- The `pactl subscribe` reader (bluetooth-speaker.py:804-880) is a
  long-lived thread. Its orphan decision is the same predicate as
  `Monitor.Orphaned`. Its 2-second throttle is not modelled.
- Races between the monitoring thread and client requests on the speaker
  list are not modelled. Every step is single-threaded.
- `last_seen` in a snapshot entry is a clock reading and is not modelled.
- `scan_bluetooth_speakers` and `list_connected_speakers` only report to a
  client. Only their classification (`Devices.TypeOf`) is modelled.
- `get_current_default_sink` is an input to `Poll`: its output, or `None`.
- Reconnect.AutoReconnectPairedDevices: the `paired-devices` listing is
  only logged, so it is not an input.
- Reconnect.AutoReconnectPairedDevices: a pair or connect call that raises
  (a timeout or anything else) ends the pass, recorded as `aborted`. An
  exception from the `power`, `agent`, `paired-devices` (bluetooth-speaker.py:1066-1070),
  `devices`, `trust` (bluetooth-speaker.py:1112) or `info` calls, which would
  end the pass as well through the `except` at line 1172, is not modelled:
  those calls are total functions or are not inputs.
- Routing.SetBluetoothAsDefaultSink: the outer `except Exception: return
  False` (bluetooth-speaker.py:218-221) is not modelled. A `pactl` call
  that raises, including the `get-default-sink` check after a successful
  set, would return false with the commands issued so far.
- Routing.SetDefaultToAudiocodec: the outer `except` returning false
  (bluetooth-speaker.py:286-288) is not modelled, for the same reason.
- Routing.ForceSetHdmiFallback: the outer `except` returning false
  (bluetooth-speaker.py:396-398) is not modelled, for the same reason.
- Sinks.MoveAllStreamsToSink: the `except` at bluetooth-speaker.py:312-313
  is not modelled. A raising `pactl` call would stop the remaining moves.
- Monitor.SpeakerService: `consecutiveErrors` is a field here, but in the
  source it is a local of `continuous_monitoring` (bluetooth-speaker.py:937-945),
  lifted into the class so that one iteration can be a method.
- Devices.GetCurrentDeviceStates: a listing is given as lines, so
  `str.split('\n')` happens before the model sees it. The blank-line test
  is part of the model (`Devices.DeviceEntry`).
- Python's `lower`, `upper`, `strip` and `split` are modelled on ASCII
  letters and on ASCII whitespace plus U+0085 and U+00A0. Full Unicode case
  mapping is not modelled.
- `json.loads` is an input to `Ble.Dispatch`: the parsed object, a
  non-object, or invalid. A non-string `cmd` is the `Error` path.
- Ble.Dispatch: a non-string `mac` or `ssid` is carried as its text and
  its truthiness. Python's exact rendering of it is not modelled.
- UTF-8 decoding of the written bytes (`errors="ignore"`) is left out. The
  payload is given as text.
- Wifi.WaitForWifiReady: the `nmcli device wifi rescan` call after a ready
  poll (new-ble-gatt-1.py:211) is not modelled. It sits inside the same
  `try`, so if it raised, the exception would be swallowed and polling
  would go on; the model returns ready at the first ready poll.
- `connect_wifi` (new-ble-gatt-1.py:234-269) only runs `nmcli` and sends
  status messages from a thread. Only the two waits it uses are modelled.
  An exception let out of `wait_for_connection`, which is
  `Wifi.WaitForConnection` returning `Raised`, reaches the outer `except`
  of `connect_wifi` and sends `Error`.
- D-Bus, GATT and advertisement registration, the GLib main loop, signal
  handlers and `os._exit` (new-ble-gatt-1.py:119-193, 378-489) are left
  out. The shutdown is a `Shutdown` command.
- Ble.RemoveBluetoothDevice: `removeOk` is a function of the path. A
  second `RemoveDevice` on the same path as the first is assumed to fail the
  same way. D-Bus does not promise that. This happens for a UUID whose built
  path the search then finds, and for an upper-case MAC, which the search
  finds by its `Address` at the path already built from it.
- Ble.WriteValue: every `hasattr(self.service, "status_char")` test is
  taken as true, since the service always creates the characteristic.
- system-control.py and get-serial-pi.py are not part of this model. They
  are socket, HTTP and file I/O with no decision logic.
