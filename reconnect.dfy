/**
 * `auto_reconnect_paired_devices` of bluetooth-speaker.py: after a reboot,
 * walk the `bluetoothctl devices` listing, reconnect every device that is
 * paired or trusted but not connected, make a connected audio device the
 * default sink, and fall back to wired output when no audio device took
 * the default.
 *
 * The calls are inputs: `info(mac)` is what `bluetoothctl info <mac>`
 * prints, `pair(mac)` and `connect(mac)` the results of the timed
 * `bluetoothctl pair`/`connect` calls (a timeout or any other exception
 * is `TimedOut` or `Raised`), `btOk(mac)` the result of
 * `set_bluetooth_as_default_sink(mac, name)`.
 */
module Reconnect {
  import opened Wrappers
  import opened Text
  import opened Devices
  import opened Monitor

  /** A device the pass tries to reconnect: not connected, but paired or trusted. */
  predicate Eligible(info: string) {
    !InfoConnected(info) && (InfoPaired(info) || InfoTrusted(info))
  }

  /**
   * The pass so far: the calls made, the names attempted, the count of
   * successful connects, the names that became the default sink, and
   * whether a pair or connect that raised (a timeout or anything else) has
   * ended the pass (the exception leaves the whole method).
   */
  datatype Pass = Pass(actions: seq<Action>, attempted: seq<string>, reconnected: nat,
                       audio: seq<string>, aborted: bool)

  /** The reconnect attempt for one eligible device. */
  function Attempt(p: Pass, mac: string, name: string, out: string,
                   pair: ToolResult, connect: ToolResult, ok: bool): Pass
  {
    var attempted := p.attempted + [name];
    if !InfoPaired(out) && !pair.Done? then
      Pass(p.actions + [Trust(mac), Pair(mac)], attempted, p.reconnected, p.audio, true)
    else
      var calls := if InfoPaired(out) then [Trust(mac), Connect(mac)] else [Trust(mac), Pair(mac), Connect(mac)];
      if !connect.Done? then Pass(p.actions + calls, attempted, p.reconnected, p.audio, true)
      else if ConnectSucceeded(connect) then
        if IsAudioInfo(out) then
          Pass(p.actions + calls + [SetBluetooth(mac, Some(name))], attempted, p.reconnected + 1,
               if ok then p.audio + [name] else p.audio, false)
        else Pass(p.actions + calls, attempted, p.reconnected + 1, p.audio, false)
      else Pass(p.actions + calls, attempted, p.reconnected, p.audio, false)
  }

  /** One line of the listing: a device line is attempted, confirmed as default sink, or skipped. */
  function EntryStep(p: Pass, entry: Option<(string, string)>, info: string -> string,
                     pair: string -> ToolResult, connect: string -> ToolResult, btOk: string -> bool): Pass
  {
    if p.aborted || entry.None? then p
    else
      var (mac, name) := entry.value;
      var out := info(mac);
      if Eligible(out) then Attempt(p, mac, name, out, pair(mac), connect(mac), btOk(mac))
      else if InfoConnected(out) && IsAudioInfo(out) then
        Pass(p.actions + [SetBluetooth(mac, Some(name))], p.attempted, p.reconnected,
             if btOk(mac) then p.audio + [name] else p.audio, false)
      else p
  }

  /** Power on, agent setup, then the listing's entries in order. */
  function Run(entries: seq<Option<(string, string)>>, info: string -> string,
               pair: string -> ToolResult, connect: string -> ToolResult, btOk: string -> bool): Pass
    decreases |entries|
  {
    if entries == [] then Pass([PowerOn, AgentOn, DefaultAgent], [], 0, [], false)
    else EntryStep(Run(entries[..|entries| - 1], info, pair, connect, btOk), entries[|entries| - 1], info, pair, connect, btOk)
  }

  /** The whole pass: when it ran to the end with no audio default set, wired output is set. */
  function Outcome(lines: seq<string>, info: string -> string,
                   pair: string -> ToolResult, connect: string -> ToolResult, btOk: string -> bool): Pass
  {
    var p := Run(Entries(lines), info, pair, connect, btOk);
    if !p.aborted && p.audio == [] then p.(actions := p.actions + [SetWired]) else p
  }

  /** auto_reconnect_paired_devices (lines 1045-1173). */
  method AutoReconnectPairedDevices(lines: seq<string>, info: string -> string,
                                    pair: string -> ToolResult, connect: string -> ToolResult, btOk: string -> bool)
    returns (pass: Pass)
    ensures pass == Outcome(lines, info, pair, connect, btOk)
  {
    ghost var entries := Entries(lines);
    pass := Pass([PowerOn, AgentOn, DefaultAgent], [], 0, [], false);
    var i := 0;
    while i < |lines|
      invariant 0 <= i <= |lines|
      invariant pass == Run(entries[..i], info, pair, connect, btOk) && !pass.aborted
    {
      assert entries[..i + 1][..i] == entries[..i];
      EntriesAt(lines, i);
      var entry := DeviceEntry(lines[i]);
      if entry.Some? {
        var (mac, name) := entry.value;
        var out := info(mac);
        if !InfoConnected(out) && (InfoPaired(out) || InfoTrusted(out)) {
          pass := AttemptDevice(pass, mac, name, out, pair(mac), connect(mac), btOk(mac));
          if pass.aborted {
            RunStaysAborted(entries, info, pair, connect, btOk, i + 1);
            return;
          }
        } else if InfoConnected(out) && IsAudioInfo(out) {
          var audio := pass.audio;
          if btOk(mac) {
            audio := audio + [name];
          }
          pass := Pass(pass.actions + [SetBluetooth(mac, Some(name))], pass.attempted, pass.reconnected, audio, false);
        }
      }
      i := i + 1;
    }
    assert entries[..i] == entries;
    if pass.audio == [] {
      pass := pass.(actions := pass.actions + [SetWired]);
    }
  }

  /** The body of the reconnect branch: trust, pair if unpaired, connect, and route on success. */
  method AttemptDevice(p: Pass, mac: string, name: string, out: string,
                       pair: ToolResult, connect: ToolResult, ok: bool) returns (q: Pass)
    ensures q == Attempt(p, mac, name, out, pair, connect, ok)
  {
    var actions := p.actions + [Trust(mac)];
    var attempted := p.attempted + [name];
    if !InfoPaired(out) {
      actions := actions + [Pair(mac)];
      if !pair.Done? {
        return Pass(actions, attempted, p.reconnected, p.audio, true);
      }
    }
    actions := actions + [Connect(mac)];
    if !connect.Done? {
      return Pass(actions, attempted, p.reconnected, p.audio, true);
    }
    if connect.returnCode == 0 || Contains(connect.stdout, "Connection successful") {
      var audio := p.audio;
      if IsAudioInfo(out) {
        actions := actions + [SetBluetooth(mac, Some(name))];
        if ok {
          audio := audio + [name];
        }
      }
      q := Pass(actions, attempted, p.reconnected + 1, audio, false);
    } else {
      q := Pass(actions, attempted, p.reconnected, p.audio, false);
    }
  }

  /** Once the pass has been ended by a raising call, later lines change nothing. */
  lemma {:induction false} RunStaysAborted(entries: seq<Option<(string, string)>>, info: string -> string,
                                           pair: string -> ToolResult, connect: string -> ToolResult,
                                           btOk: string -> bool, k: nat)
    requires k <= |entries| && Run(entries[..k], info, pair, connect, btOk).aborted
    ensures Run(entries, info, pair, connect, btOk) == Run(entries[..k], info, pair, connect, btOk)
    decreases |entries| - k
  {
    if k < |entries| {
      assert entries[..k + 1][..k] == entries[..k];
      RunStaysAborted(entries, info, pair, connect, btOk, k + 1);
    } else {
      assert entries[..k] == entries;
    }
  }

  // ---------------------------------------------------------------------
  // Properties
  // ---------------------------------------------------------------------

  /** Some line of the listing names the address `mac` with the name `name`. */
  predicate ListedAs(entries: seq<Option<(string, string)>>, mac: string, name: string) {
    exists i | 0 <= i < |entries| :: entries[i] == Some((mac, name))
  }

  predicate Listed(entries: seq<Option<(string, string)>>, mac: string) {
    exists i | 0 <= i < |entries| :: entries[i].Some? && entries[i].value.0 == mac
  }

  /** What each call of the pass needs to be justified by. */
  predicate Justified(a: Action, entries: seq<Option<(string, string)>>, info: string -> string,
                      connect: string -> ToolResult) {
    match a
    case PowerOn => true
    case AgentOn => true
    case DefaultAgent => true
    case Trust(mac) => Listed(entries, mac) && Eligible(info(mac))
    case Pair(mac) => Listed(entries, mac) && Eligible(info(mac)) && !InfoPaired(info(mac))
    case Connect(mac) => Listed(entries, mac) && Eligible(info(mac))
    case SetBluetooth(mac, name) =>
      name.Some? && ListedAs(entries, mac, name.value) && IsAudioInfo(info(mac)) &&
      (InfoConnected(info(mac)) || (Eligible(info(mac)) && ConnectSucceeded(connect(mac))))
    case _ => false
  }

  /** A name that became the default sink belongs to an audio device whose routing succeeded. */
  predicate AudioJustified(n: string, entries: seq<Option<(string, string)>>, info: string -> string,
                           btOk: string -> bool) {
    exists i | 0 <= i < |entries| ::
      entries[i].Some? && entries[i].value.1 == n &&
      IsAudioInfo(info(entries[i].value.0)) && btOk(entries[i].value.0)
  }

  /** Appending one entry keeps everything already justified justified. */
  lemma JustifiedGrows(entries: seq<Option<(string, string)>>, info: string -> string,
                       connect: string -> ToolResult, btOk: string -> bool)
    requires entries != []
    ensures forall a :: Justified(a, entries[..|entries| - 1], info, connect) ==> Justified(a, entries, info, connect)
    ensures forall n :: AudioJustified(n, entries[..|entries| - 1], info, btOk) ==> AudioJustified(n, entries, info, btOk)
  {
    var init := entries[..|entries| - 1];
    assert forall i | 0 <= i < |init| :: init[i] == entries[i];
  }

  /** Everything the pass has done so far is justified by the listing. */
  predicate Sound(p: Pass, entries: seq<Option<(string, string)>>, info: string -> string,
                  connect: string -> ToolResult, btOk: string -> bool) {
    && (forall a | a in p.actions :: Justified(a, entries, info, connect))
    && (forall n | n in p.audio :: AudioJustified(n, entries, info, btOk))
    && p.reconnected <= |p.attempted|
  }

  /** The reconnect attempt of a listed eligible device keeps the pass sound. */
  lemma AttemptSound(p: Pass, i: nat, entries: seq<Option<(string, string)>>, info: string -> string,
                     pair: string -> ToolResult, connect: string -> ToolResult, btOk: string -> bool)
    requires i < |entries| && entries[i].Some? && Eligible(info(entries[i].value.0))
    requires Sound(p, entries, info, connect, btOk)
    ensures var (mac, name) := entries[i].value;
      Sound(Attempt(p, mac, name, info(mac), pair(mac), connect(mac), btOk(mac)), entries, info, connect, btOk)
  {
    var (mac, name) := entries[i].value;
    var out := info(mac);
    assert Listed(entries, mac) && ListedAs(entries, mac, name);
    assert Justified(Trust(mac), entries, info, connect) && Justified(Connect(mac), entries, info, connect);
    assert !InfoPaired(out) ==> Justified(Pair(mac), entries, info, connect);
    assert IsAudioInfo(out) && ConnectSucceeded(connect(mac)) ==>
      Justified(SetBluetooth(mac, Some(name)), entries, info, connect);
    assert IsAudioInfo(out) && btOk(mac) ==> AudioJustified(name, entries, info, btOk);
    var q := Attempt(p, mac, name, out, pair(mac), connect(mac), btOk(mac));
    var calls := if InfoPaired(out) then [Trust(mac), Connect(mac)] else [Trust(mac), Pair(mac), Connect(mac)];
    assert forall a | a in calls :: Justified(a, entries, info, connect);
    if !InfoPaired(out) && !pair(mac).Done? {
      assert q.actions == p.actions + [Trust(mac), Pair(mac)];
    } else if !connect(mac).Done? || !ConnectSucceeded(connect(mac)) || !IsAudioInfo(out) {
      assert q.actions == p.actions + calls && q.audio == p.audio;
    } else {
      assert q.actions == p.actions + calls + [SetBluetooth(mac, Some(name))];
      assert forall n | n in q.audio :: n in p.audio || n == name;
    }
  }

  /** Confirming an already connected audio device keeps the pass sound. */
  lemma ConfirmSound(p: Pass, i: nat, entries: seq<Option<(string, string)>>, info: string -> string,
                     connect: string -> ToolResult, btOk: string -> bool)
    requires i < |entries| && entries[i].Some?
    requires InfoConnected(info(entries[i].value.0)) && IsAudioInfo(info(entries[i].value.0))
    requires Sound(p, entries, info, connect, btOk)
    ensures var (mac, name) := entries[i].value;
      Sound(Pass(p.actions + [SetBluetooth(mac, Some(name))], p.attempted, p.reconnected,
                 if btOk(mac) then p.audio + [name] else p.audio, false), entries, info, connect, btOk)
  {
    var (mac, name) := entries[i].value;
    assert ListedAs(entries, mac, name);
    assert btOk(mac) ==> AudioJustified(name, entries, info, btOk);
  }

  /**
   * Only devices that are paired or trusted and not connected are trusted,
   * paired (only when unpaired) and connected; a device becomes the default
   * sink only when it is an audio device that was connected already or
   * whose connect succeeded; no wired call happens during the walk; a name
   * recorded as audio default comes from an audio device whose routing
   * succeeded; and there are never more reconnects than attempts.
   */
  lemma {:induction false} RunJustified(entries: seq<Option<(string, string)>>, info: string -> string,
                                        pair: string -> ToolResult, connect: string -> ToolResult, btOk: string -> bool)
    ensures Sound(Run(entries, info, pair, connect, btOk), entries, info, connect, btOk)
    decreases |entries|
  {
    if entries != [] {
      var n := |entries| - 1;
      var init := entries[..n];
      RunJustified(init, info, pair, connect, btOk);
      JustifiedGrows(entries, info, connect, btOk);
      var p := Run(init, info, pair, connect, btOk);
      assert Sound(p, entries, info, connect, btOk);
      if !p.aborted && entries[n].Some? {
        var mac := entries[n].value.0;
        if Eligible(info(mac)) {
          AttemptSound(p, n, entries, info, pair, connect, btOk);
        } else if InfoConnected(info(mac)) && IsAudioInfo(info(mac)) {
          ConfirmSound(p, n, entries, info, connect, btOk);
        }
      }
    }
  }

  /** The steps only ever append calls. */
  lemma {:induction false} RunExtends(entries: seq<Option<(string, string)>>, info: string -> string,
                                      pair: string -> ToolResult, connect: string -> ToolResult, btOk: string -> bool)
    requires entries != []
    ensures var p := Run(entries[..|entries| - 1], info, pair, connect, btOk);
      var q := Run(entries, info, pair, connect, btOk);
      && p.actions <= q.actions
      && p.audio <= q.audio
      && (p.aborted ==> q.aborted)
  {
  }

  /**
   * Conversely, a pass that ran to the end has trusted, paired when it was
   * unpaired, and tried to connect every eligible device of the listing.
   */
  lemma {:induction false} RunCoversEligible(entries: seq<Option<(string, string)>>, info: string -> string,
                                             pair: string -> ToolResult, connect: string -> ToolResult, btOk: string -> bool)
    requires !Run(entries, info, pair, connect, btOk).aborted
    ensures forall i | 0 <= i < |entries| && entries[i].Some? && Eligible(info(entries[i].value.0)) ::
      var actions := Run(entries, info, pair, connect, btOk).actions;
      && Trust(entries[i].value.0) in actions
      && (!InfoPaired(info(entries[i].value.0)) ==> Pair(entries[i].value.0) in actions)
      && Connect(entries[i].value.0) in actions
    decreases |entries|
  {
    if entries != [] {
      var n := |entries| - 1;
      var init := entries[..n];
      RunExtends(entries, info, pair, connect, btOk);
      var p := Run(init, info, pair, connect, btOk);
      var q := Run(entries, info, pair, connect, btOk);
      RunCoversEligible(init, info, pair, connect, btOk);
      assert forall i | 0 <= i < n :: init[i] == entries[i];
      assert forall a | a in p.actions :: a in q.actions;
      if entries[n].Some? && Eligible(info(entries[n].value.0)) {
        var mac := entries[n].value.0;
        assert Trust(mac) in q.actions && Connect(mac) in q.actions;
        assert !InfoPaired(info(mac)) ==> Pair(mac) in q.actions;
      }
    }
  }

  /**
   * A pass that ran to the end routes to every listed audio device that was
   * connected already or whose connect succeeded, and records its name as
   * the default sink when that routing succeeded.
   */
  lemma {:induction false} RunRoutesAudio(entries: seq<Option<(string, string)>>, info: string -> string,
                                          pair: string -> ToolResult, connect: string -> ToolResult,
                                          btOk: string -> bool, i: nat)
    requires i < |entries| && entries[i].Some? && !Run(entries, info, pair, connect, btOk).aborted
    requires var mac := entries[i].value.0;
      IsAudioInfo(info(mac)) && (InfoConnected(info(mac)) || (Eligible(info(mac)) && ConnectSucceeded(connect(mac))))
    ensures var (mac, name) := entries[i].value;
      && SetBluetooth(mac, Some(name)) in Run(entries, info, pair, connect, btOk).actions
      && (btOk(mac) ==> name in Run(entries, info, pair, connect, btOk).audio)
    decreases |entries|
  {
    var n := |entries| - 1;
    var init := entries[..n];
    var (mac, name) := entries[i].value;
    RunExtends(entries, info, pair, connect, btOk);
    var p := Run(init, info, pair, connect, btOk);
    var q := Run(entries, info, pair, connect, btOk);
    assert q == EntryStep(p, entries[n], info, pair, connect, btOk);
    assert !p.aborted;
    if i < n {
      assert init[i] == entries[i];
      RunRoutesAudio(init, info, pair, connect, btOk, i);
      assert SetBluetooth(mac, Some(name)) in q.actions;
      assert btOk(mac) ==> name in q.audio;
    } else {
      assert SetBluetooth(mac, Some(name)) in q.actions;
    }
  }

  /**
   * An audio device that took the default sink, connected already or
   * reconnected, keeps the pass from falling back to wired output.
   */
  lemma NoWiredAfterAudioDefault(lines: seq<string>, info: string -> string,
                                 pair: string -> ToolResult, connect: string -> ToolResult,
                                 btOk: string -> bool, i: nat)
    requires i < |Entries(lines)| && Entries(lines)[i].Some?
    requires var mac := Entries(lines)[i].value.0;
      && IsAudioInfo(info(mac)) && btOk(mac)
      && (InfoConnected(info(mac)) || (Eligible(info(mac)) && ConnectSucceeded(connect(mac))))
    ensures SetWired !in Outcome(lines, info, pair, connect, btOk).actions
  {
    var o := Outcome(lines, info, pair, connect, btOk);
    WiredIffNoAudio(lines, info, pair, connect, btOk);
    if !o.aborted {
      RunRoutesAudio(Entries(lines), info, pair, connect, btOk, i);
      assert Entries(lines)[i].value.1 in o.audio;
    }
  }

  /**
   * The final wired call: it is made exactly when the pass ran to the end
   * and no audio device took the default sink, and it is the last call.
   */
  lemma WiredIffNoAudio(lines: seq<string>, info: string -> string,
                        pair: string -> ToolResult, connect: string -> ToolResult, btOk: string -> bool)
    ensures var o := Outcome(lines, info, pair, connect, btOk);
      && (SetWired in o.actions <==> !o.aborted && o.audio == [])
      && (SetWired in o.actions ==> o.actions[|o.actions| - 1] == SetWired)
  {
    var entries := Entries(lines);
    RunJustified(entries, info, pair, connect, btOk);
    var p := Run(entries, info, pair, connect, btOk);
    assert SetWired !in p.actions by {
      assert forall a | a in p.actions :: Justified(a, entries, info, connect);
      assert !Justified(SetWired, entries, info, connect);
    }
  }

  /** A pass ends early only because a device it tried to reconnect had its pair or connect call raise. */
  lemma {:induction false} AbortedByFailedCall(entries: seq<Option<(string, string)>>, info: string -> string,
                                            pair: string -> ToolResult, connect: string -> ToolResult, btOk: string -> bool)
    requires Run(entries, info, pair, connect, btOk).aborted
    ensures exists i | 0 <= i < |entries| ::
      && entries[i].Some? && Eligible(info(entries[i].value.0))
      && ((!InfoPaired(info(entries[i].value.0)) && !pair(entries[i].value.0).Done?) ||
          !connect(entries[i].value.0).Done?)
    decreases |entries|
  {
    var n := |entries| - 1;
    var init := entries[..n];
    if Run(init, info, pair, connect, btOk).aborted {
      AbortedByFailedCall(init, info, pair, connect, btOk);
      assert forall i | 0 <= i < n :: init[i] == entries[i];
    } else {
      assert entries[n].Some? && Eligible(info(entries[n].value.0));
    }
  }
}
