/**
 * The three routing operations of bluetooth-speaker.py that change the
 * PulseAudio default sink: `set_bluetooth_as_default_sink` (the resolver with
 * its ten attempts), `set_default_to_audiocodec` (the wired selector) and
 * `force_set_hdmi_fallback`.
 *
 * What `pactl` and `pulseaudio` print or return is an input: each listing is
 * given already split into lines, a return code of 0 is a `true` flag. What
 * the operations would run is an output: the state-changing commands, in the
 * order they are issued.
 */
module Routing {
  import opened Wrappers
  import opened Text
  import opened Sinks

  /** A state-changing command the service runs. */
  datatype Command =
    | SetDefaultSink(sink: string)      // pactl set-default-sink <sink>
    | MoveStream(id: string, sink: string)  // pactl move-sink-input <id> <sink>
    | KillAudioServer                   // pulseaudio --kill
    | StartAudioServer                  // pulseaudio --start

  /** `max_retries`: the resolver reads the sink listing at most this many times. */
  const MaxRetries: nat := 10

  /** The moves `move_all_streams_to_sink` issues for the listed streams. */
  function Moves(ids: seq<string>, sink: string): seq<Command> {
    seq(|ids|, k requires 0 <= k < |ids| => MoveStream(ids[k], sink))
  }

  /**
   * Setting a chosen sink: `set-default-sink`, then, only when it succeeds,
   * every listed stream is moved to it and the result is true.
   */
  function Applied(sink: string, setOk: bool, streamLines: seq<string>): (bool, seq<Command>) {
    if setOk then (true, [SetDefaultSink(sink)] + Moves(StreamIds(streamLines), sink))
    else (false, [SetDefaultSink(sink)])
  }

  method Apply(sink: string, setOk: bool, streamLines: seq<string>) returns (ok: bool, cmds: seq<Command>)
    ensures (ok, cmds) == Applied(sink, setOk, streamLines)
  {
    cmds := [SetDefaultSink(sink)];
    ok := setOk;
    if setOk {
      var moved := MoveAllStreamsToSink(streamLines);
      cmds := cmds + Moves(moved, sink);
    }
  }

  // ---------------------------------------------------------------------
  // set_bluetooth_as_default_sink
  // ---------------------------------------------------------------------

  /** `found_sink and best_match_score >= 50`: an attempt whose result may be set. */
  predicate Accepts(c: Candidate) {
    c.sink.Some? && c.sink.value != "" && c.score >= AcceptScore
  }

  /** The sink chosen by the first attempt that `Accepts`, if any. */
  function FirstAccepted(mac: string, name: Option<string>, listings: seq<seq<string>>): Option<string>
    decreases |listings|
  {
    if listings == [] then None
    else if Accepts(BestOf(listings[0], mac, name)) then BestOf(listings[0], mac, name).sink
    else FirstAccepted(mac, name, listings[1..])
  }

  /**
   * The resolver's outcome: nothing is run when no attempt is accepted;
   * otherwise the first accepted sink is set, once, whether or not that
   * succeeds.
   */
  function BluetoothRoute(mac: string, name: Option<string>, listings: seq<seq<string>>,
                          setOk: bool, streamLines: seq<string>): (bool, seq<Command>)
  {
    match FirstAccepted(mac, name, listings)
    case None => (false, [])
    case Some(sink) => Applied(sink, setOk, streamLines)
  }

  /**
   * set_bluetooth_as_default_sink (lines 106-222). `listings[k]` is what
   * `pactl list short sinks` prints on attempt k; the set's return code is
   * `setOk`; `streamLines` is the sink-input listing read when streams move.
   */
  method SetBluetoothAsDefaultSink(mac: string, name: Option<string>, listings: seq<seq<string>>,
                                   setOk: bool, streamLines: seq<string>)
    returns (ok: bool, cmds: seq<Command>)
    requires |listings| == MaxRetries
    ensures (ok, cmds) == BluetoothRoute(mac, name, listings, setOk, streamLines)
  {
    var retry := 0;
    while retry < MaxRetries
      invariant 0 <= retry <= MaxRetries
      invariant FirstAccepted(mac, name, listings) == FirstAccepted(mac, name, listings[retry..])
    {
      assert listings[retry..][1..] == listings[retry + 1..];
      var found, best := ScanSinks(listings[retry], mac, name);
      if found.Some? && found.value != "" && best >= AcceptScore {
        ok, cmds := Apply(found.value, setOk, streamLines);
        return;
      }
      retry := retry + 1;
    }
    ok, cmds := false, [];
  }

  /** The first accepted sink comes from the first attempt whose best Bluetooth sink scores at least 50. */
  lemma {:induction false} FirstAcceptedIsFirstAttempt(mac: string, name: Option<string>, listings: seq<seq<string>>)
    ensures FirstAccepted(mac, name, listings).None? <==>
      forall k | 0 <= k < |listings| :: !Accepts(BestOf(listings[k], mac, name))
    ensures FirstAccepted(mac, name, listings).Some? ==>
      exists k | 0 <= k < |listings| ::
        Accepts(BestOf(listings[k], mac, name)) &&
        BestOf(listings[k], mac, name).sink == FirstAccepted(mac, name, listings) &&
        forall j | 0 <= j < k :: !Accepts(BestOf(listings[j], mac, name))
    decreases |listings|
  {
    if listings != [] && !Accepts(BestOf(listings[0], mac, name)) {
      var rest := listings[1..];
      FirstAcceptedIsFirstAttempt(mac, name, rest);
      assert forall k | 0 <= k < |rest| :: rest[k] == listings[k + 1];
      if FirstAccepted(mac, name, rest).Some? {
        var k :| 0 <= k < |rest| && Accepts(BestOf(rest[k], mac, name)) &&
          BestOf(rest[k], mac, name).sink == FirstAccepted(mac, name, rest) &&
          forall j | 0 <= j < k :: !Accepts(BestOf(rest[j], mac, name));
        assert forall j | 0 <= j < k + 1 :: !Accepts(BestOf(listings[j], mac, name)) by {
          forall j | 0 <= j < k + 1 ensures !Accepts(BestOf(listings[j], mac, name)) {
            if j > 0 {
              assert listings[j] == rest[j - 1];
            }
          }
        }
      } else {
        forall k | 0 <= k < |listings| ensures !Accepts(BestOf(listings[k], mac, name)) {
          if k > 0 {
            assert listings[k] == rest[k - 1];
          }
        }
      }
    }
  }

  /**
   * The resolver runs `set-default-sink` only with a Bluetooth sink offered
   * on some attempt's listing that scores at least 50 and is that attempt's
   * best; when no attempt reaches 50 it runs nothing and reports failure,
   * leaving the current default in place.
   */
  lemma ResolverSetsOnlyAcceptedSinks(mac: string, name: Option<string>, listings: seq<seq<string>>,
                                      setOk: bool, streamLines: seq<string>)
    ensures var (ok, cmds) := BluetoothRoute(mac, name, listings, setOk, streamLines);
      (forall k | 0 <= k < |listings| :: BestOf(listings[k], mac, name).score < AcceptScore) ==> !ok && cmds == []
    ensures var (ok, cmds) := BluetoothRoute(mac, name, listings, setOk, streamLines);
      forall s | SetDefaultSink(s) in cmds :: exists k, i | 0 <= k < |listings| && 0 <= i < |listings[k]| ::
        BluezSink(listings[k][i]) == Some(s) && ScoreSink(mac, name, s) >= AcceptScore &&
        BestOf(listings[k], mac, name) == Candidate(Some(s), ScoreSink(mac, name, s))
  {
    FirstAcceptedIsFirstAttempt(mac, name, listings);
    var (ok, cmds) := BluetoothRoute(mac, name, listings, setOk, streamLines);
    match FirstAccepted(mac, name, listings)
    case None =>
    case Some(sink) =>
      var k :| 0 <= k < |listings| && Accepts(BestOf(listings[k], mac, name)) &&
        BestOf(listings[k], mac, name).sink == Some(sink) &&
        forall j | 0 <= j < k :: !Accepts(BestOf(listings[j], mac, name));
      BestOfIsFirstMaximum(listings[k], mac, name);
      var i :| 0 <= i < |listings[k]| && BluezSink(listings[k][i]) == Some(sink) &&
        ScoreSink(mac, name, sink) == BestOf(listings[k], mac, name).score &&
        forall j | 0 <= j < i :: Offer(listings[k][j], mac, name).score < BestOf(listings[k], mac, name).score;
      forall s | SetDefaultSink(s) in cmds
        ensures exists k, i | 0 <= k < |listings| && 0 <= i < |listings[k]| ::
          BluezSink(listings[k][i]) == Some(s) && ScoreSink(mac, name, s) >= AcceptScore &&
          BestOf(listings[k], mac, name) == Candidate(Some(s), ScoreSink(mac, name, s))
      {
        AppliedSetsOnce(sink, setOk, streamLines);
      }
  }

  /**
   * A set is issued at most once and only as the first command; the result
   * is true exactly when that set succeeded, and a failed set ends the call
   * with nothing else run (no retry).
   */
  lemma AppliedSetsOnce(sink: string, setOk: bool, streamLines: seq<string>)
    ensures var (ok, cmds) := Applied(sink, setOk, streamLines);
      && cmds != [] && cmds[0] == SetDefaultSink(sink)
      && (forall k | 1 <= k < |cmds| :: cmds[k].MoveStream? && cmds[k].sink == sink)
      && (forall s | SetDefaultSink(s) in cmds :: s == sink)
      && (ok <==> setOk)
      && (!setOk ==> cmds == [SetDefaultSink(sink)])
      && (setOk ==> |cmds| == 1 + |StreamIds(streamLines)|)
  {
    var (ok, cmds) := Applied(sink, setOk, streamLines);
    forall s | SetDefaultSink(s) in cmds ensures s == sink {
      var k :| 0 <= k < |cmds| && cmds[k] == SetDefaultSink(s);
    }
  }

  /** The resolver succeeds exactly when some attempt is accepted and the set on its sink succeeds. */
  lemma ResolverSucceeds(mac: string, name: Option<string>, listings: seq<seq<string>>,
                         setOk: bool, streamLines: seq<string>)
    ensures BluetoothRoute(mac, name, listings, setOk, streamLines).0 <==>
      setOk && exists k | 0 <= k < |listings| :: Accepts(BestOf(listings[k], mac, name))
  {
    FirstAcceptedIsFirstAttempt(mac, name, listings);
    if FirstAccepted(mac, name, listings).Some? {
      AppliedSetsOnce(FirstAccepted(mac, name, listings).value, setOk, streamLines);
    }
  }

  /**
   * With a device name given, a listing none of whose Bluetooth sinks
   * carries the address or a spelling of the name is never set: the generic
   * 50-point match is not reached for a named device.
   */
  lemma NamedDeviceNeedsAMatch(mac: string, name: Option<string>, listings: seq<seq<string>>,
                               setOk: bool, streamLines: seq<string>)
    requires HasName(name)
    requires forall k, i | 0 <= k < |listings| && 0 <= i < |listings[k]| && BluezSink(listings[k][i]).Some? ::
      !Contains(Lower(BluezSink(listings[k][i]).value), Lower(MacKey(mac))) &&
      !MatchesVariant(name.value, Lower(BluezSink(listings[k][i]).value))
    ensures BluetoothRoute(mac, name, listings, setOk, streamLines) == (false, [])
  {
    forall k | 0 <= k < |listings| ensures BestOf(listings[k], mac, name).score < AcceptScore {
      forall i | 0 <= i < |listings[k]| && BluezSink(listings[k][i]).Some?
        ensures ScoreSink(mac, name, BluezSink(listings[k][i]).value) == 0
      {
        NamedDeviceHasNoFallback(mac, name, BluezSink(listings[k][i]).value);
      }
      BestOfIsFirstMaximum(listings[k], mac, name);
    }
    ResolverSetsOnlyAcceptedSinks(mac, name, listings, setOk, streamLines);
  }

  // ---------------------------------------------------------------------
  // set_default_to_audiocodec and force_set_hdmi_fallback
  // ---------------------------------------------------------------------

  /** The wired selector's outcome: the first HDMI sink is set, and none means failure with nothing run. */
  function WiredRoute(lines: seq<string>, setOk: bool, streamLines: seq<string>): (bool, seq<Command>) {
    match First(HdmiSinks(lines))
    case None => (false, [])
    case Some(sink) => Applied(sink, setOk, streamLines)
  }

  /** set_default_to_audiocodec (lines 223-288). */
  method SetDefaultToAudiocodec(lines: seq<string>, setOk: bool, streamLines: seq<string>)
    returns (ok: bool, cmds: seq<Command>)
    ensures (ok, cmds) == WiredRoute(lines, setOk, streamLines)
  {
    var hdmiSink := FindFirstHdmi(lines);
    if hdmiSink.Some? {
      ok, cmds := Apply(hdmiSink.value, setOk, streamLines);
    } else {
      ok, cmds := false, [];
    }
  }

  /**
   * The wired selector only ever sets a sink whose name mentions `hdmi` and
   * not `bluez`, offered by a line that does not mention `bluez`, and the
   * first such; it succeeds exactly when there is one and the set succeeds.
   */
  lemma WiredSetsOnlyHdmi(lines: seq<string>, setOk: bool, streamLines: seq<string>)
    ensures var (ok, cmds) := WiredRoute(lines, setOk, streamLines);
      && (ok <==> HdmiSinks(lines) != [] && setOk)
      && (HdmiSinks(lines) == [] ==> cmds == [])
      && forall s | SetDefaultSink(s) in cmds ::
           s == HdmiSinks(lines)[0] && Contains(Lower(s), "hdmi") && !Contains(Lower(s), "bluez") &&
           exists i | 0 <= i < |lines| :: HdmiSink(lines[i]) == Some(s) && !Contains(Lower(lines[i]), "bluez")
  {
    HdmiSinksAreWired(lines);
    if HdmiSinks(lines) != [] {
      var sink := HdmiSinks(lines)[0];
      assert sink in HdmiSinks(lines);
      AppliedSetsOnce(sink, setOk, streamLines);
      var i :| 0 <= i < |lines| && HdmiSink(lines[i]) == Some(sink);
      assert !Contains(Lower(lines[i]), "bluez");
    }
  }

  /** What `force_set_hdmi_fallback` does, as a function of what the tools report. */
  function FallbackRoute(lines: seq<string>, setOk: bool, startOk: bool,
                         retryLines: seq<string>, retrySetOk: bool, streamLines: seq<string>,
                         retryStreamLines: seq<string>): (bool, seq<Command>)
  {
    var sinks := HdmiSinks(lines);
    if sinks == [] then (false, [])
    else if setOk then Applied(sinks[0], true, streamLines)
    else
      var restart := [SetDefaultSink(sinks[0]), KillAudioServer, StartAudioServer];
      if startOk then
        var (ok, cmds) := WiredRoute(retryLines, retrySetOk, retryStreamLines);
        (ok, restart + cmds)
      else (false, restart)
  }

  /**
   * force_set_hdmi_fallback (lines 315-398). `lines` is the first listing;
   * `startOk` is `pulseaudio --start`'s result; `retryLines`, `retrySetOk`
   * and `retryStreamLines` are what the one call to the wired selector after
   * the restart reads. The result of `pulseaudio --kill` is not looked at.
   */
  method ForceSetHdmiFallback(lines: seq<string>, setOk: bool, startOk: bool,
                              retryLines: seq<string>, retrySetOk: bool, streamLines: seq<string>,
                              retryStreamLines: seq<string>)
    returns (ok: bool, cmds: seq<Command>)
    ensures (ok, cmds) == FallbackRoute(lines, setOk, startOk, retryLines, retrySetOk, streamLines, retryStreamLines)
  {
    var hdmiSinks := CollectHdmiSinks(lines);
    if |hdmiSinks| > 0 {
      var targetSink := hdmiSinks[0];
      ok, cmds := Apply(targetSink, setOk, streamLines);
      if ok {
        return;
      }
    } else {
      return false, [];
    }
    assert cmds == [SetDefaultSink(hdmiSinks[0])];
    cmds := cmds + [KillAudioServer, StartAudioServer];
    assert cmds == [SetDefaultSink(hdmiSinks[0]), KillAudioServer, StartAudioServer];
    if startOk {
      var retryOk, retryCmds := SetDefaultToAudiocodec(retryLines, retrySetOk, retryStreamLines);
      ok, cmds := retryOk, cmds + retryCmds;
      assert cmds == [SetDefaultSink(hdmiSinks[0]), KillAudioServer, StartAudioServer] + retryCmds;
      return;
    }
    ok := false;
  }

  /**
   * The fallback's three outcomes: with no HDMI sink it fails and restarts
   * nothing; a successful set on the first HDMI sink (the wired selector's
   * own choice) succeeds without a restart; only a failed set leads to the
   * kill and start, and then to exactly one run of the wired selector.
   */
  lemma FallbackOutcomes(lines: seq<string>, setOk: bool, startOk: bool,
                         retryLines: seq<string>, retrySetOk: bool, streamLines: seq<string>,
                         retryStreamLines: seq<string>)
    ensures var (ok, cmds) := FallbackRoute(lines, setOk, startOk, retryLines, retrySetOk, streamLines, retryStreamLines);
      && (HdmiSinks(lines) == [] ==> !ok && cmds == [])
      && (HdmiSinks(lines) != [] && setOk ==>
            ok && (ok, cmds) == WiredRoute(lines, true, streamLines) && KillAudioServer !in cmds)
      && (HdmiSinks(lines) != [] && !setOk ==>
            cmds[..3] == [SetDefaultSink(HdmiSinks(lines)[0]), KillAudioServer, StartAudioServer] &&
            (startOk ==> (ok, cmds[3..]) == WiredRoute(retryLines, retrySetOk, retryStreamLines)) &&
            (!startOk ==> !ok && |cmds| == 3))
  {
    var (ok, cmds) := FallbackRoute(lines, setOk, startOk, retryLines, retrySetOk, streamLines, retryStreamLines);
    if HdmiSinks(lines) != [] && setOk {
      var sink := HdmiSinks(lines)[0];
      AppliedSetsOnce(sink, true, streamLines);
      forall k | 0 <= k < |cmds| ensures cmds[k] != KillAudioServer {
      }
    }
  }
}
