/**
 * The `nmcli` checks of the BLE provisioning service (new-ble-gatt-1.py):
 * `wait_for_wifi_ready` polls `nmcli -t -f DEVICE,TYPE,STATE device` until a
 * Wi-Fi device is in a usable state, and `wait_for_connection` polls
 * `nmcli -t -f ACTIVE,SSID dev wifi` until the requested network is the
 * active one.
 *
 * Each poll's output is given already stripped and split into lines
 * (`r.stdout.strip().split("\n")`), or `None` when that `nmcli` call
 * raised; the one-second sleeps are not modelled.
 */
module Wifi {
  import opened Wrappers
  import opened Text

  /** Polls made by `wait_for_wifi_ready` and `wait_for_connection`. */
  const ReadyPolls: nat := 15
  const ConnectionPolls: nat := 25

  /** A `DEVICE:TYPE:STATE` line of a Wi-Fi device that is connected, disconnected or connecting. */
  predicate WifiReadyLine(line: string) {
    var parts := SplitOn(line, ':');
    |parts| >= 3 && parts[1] == "wifi" &&
    (parts[2] == "connected" || parts[2] == "disconnected" || parts[2] == "connecting")
  }

  /** An `ACTIVE:SSID` line saying that `ssid` is the active network. */
  predicate ConnectionLine(line: string, ssid: string) {
    var parts := SplitOn(line, ':');
    line != "" && |parts| >= 2 && parts[0] == "yes" && parts[1] == ssid
  }

  /** One poll of `wait_for_wifi_ready`: some non-empty line is a ready Wi-Fi device. */
  predicate WifiReady(lines: seq<string>) {
    exists i | 0 <= i < |lines| :: lines[i] != "" && WifiReadyLine(lines[i])
  }

  /** The line nmcli prints for a Wi-Fi device in one of the accepted states is accepted. */
  lemma ReadyLineOfFields(device: string, kind: string, state: string)
    requires forall i | 0 <= i < |device| :: device[i] != ':'
    requires kind == "wifi"
    requires state == "connected" || state == "disconnected" || state == "connecting"
    ensures WifiReadyLine(device + [':'] + kind + [':'] + state)
  {
    assert forall i | 0 <= i < |kind| :: kind[i] != ':';
    assert forall i | 0 <= i < |state| :: state[i] != ':';
    SplitOnThree(device, kind, state, ':');
  }

  /** Any other type or state is rejected. */
  lemma ReadyLineRejects(device: string, kind: string, state: string)
    requires forall i | 0 <= i < |device| :: device[i] != ':'
    requires forall i | 0 <= i < |kind| :: kind[i] != ':'
    requires forall i | 0 <= i < |state| :: state[i] != ':'
    requires kind != "wifi" || !(state == "connected" || state == "disconnected" || state == "connecting")
    ensures !WifiReadyLine(device + [':'] + kind + [':'] + state)
  {
    SplitOnThree(device, kind, state, ':');
  }

  /** The line nmcli prints for the active network `ssid` is recognised, when `ssid` holds no ':'. */
  lemma ConnectionLineOfFields(ssid: string)
    requires forall i | 0 <= i < |ssid| :: ssid[i] != ':'
    ensures ConnectionLine("yes:" + ssid, ssid)
    ensures forall active | active != "yes" && forall i | 0 <= i < |active| :: active[i] != ':' ::
      !ConnectionLine(active + ":" + ssid, ssid)
  {
    IndexOfCharNone(ssid, ':');
    SplitOnConcat("yes", ssid, ':');
    assert "yes:" + ssid == "yes" + [':'] + ssid;
    forall active | active != "yes" && forall i | 0 <= i < |active| :: active[i] != ':'
      ensures !ConnectionLine(active + ":" + ssid, ssid)
    {
      SplitOnConcat(active, ssid, ':');
      assert active + ":" + ssid == active + [':'] + ssid;
    }
  }

  /**
   * An ssid holding ':' is never recognised as active: the field compared
   * with it is a piece of `split(':')`, which holds no ':'.
   */
  lemma ColonSsidNeverMatches(line: string, ssid: string, k: nat)
    requires k < |ssid| && ssid[k] == ':'
    ensures !ConnectionLine(line, ssid)
  {
    var parts := SplitOn(line, ':');
    SplitOnPieces(line, ':');
    if |parts| >= 2 {
      IndexOfCharBefore(parts[1], ':');
      assert IndexOfChar(parts[1], ':') == |parts[1]|;
      assert parts[1] != ssid by {
        if |parts[1]| == |ssid| {
          assert parts[1][k] != ':';
        }
      }
    }
  }

  /**
   * wait_for_wifi_ready (lines 198-217): poll until some poll shows a
   * ready Wi-Fi device, then rescan; a poll that raised (`None`) is
   * skipped. Reports whether it succeeded and how many polls it used.
   */
  method WaitForWifiReady(polls: seq<Option<seq<string>>>) returns (ready: bool, used: nat)
    requires |polls| == ReadyPolls
    ensures ready <==> exists k | 0 <= k < |polls| :: polls[k].Some? && WifiReady(polls[k].value)
    ensures ready ==> 1 <= used <= |polls| && polls[used - 1].Some? && WifiReady(polls[used - 1].value)
    ensures ready ==> forall k | 0 <= k < used - 1 :: !(polls[k].Some? && WifiReady(polls[k].value))
    ensures !ready ==> used == |polls|
  {
    var k := 0;
    while k < |polls|
      invariant 0 <= k <= |polls|
      invariant forall j | 0 <= j < k :: !(polls[j].Some? && WifiReady(polls[j].value))
    {
      if polls[k].Some? {
        var lines := polls[k].value;
        var found := false;
        var i := 0;
        while i < |lines| && !found
          invariant 0 <= i <= |lines|
          invariant found ==> i > 0 && lines[i - 1] != "" && WifiReadyLine(lines[i - 1])
          invariant !found ==> forall j | 0 <= j < i :: !(lines[j] != "" && WifiReadyLine(lines[j]))
        {
          if lines[i] != "" && WifiReadyLine(lines[i]) {
            found := true;
          }
          i := i + 1;
        }
        if found {
          return true, k + 1;
        }
      }
      k := k + 1;
    }
    return false, |polls|;
  }

  /** What `wait_for_connection` does: return `True`, return `False`, or let an `nmcli` exception out. */
  datatype WaitOutcome = Connected | NotConnected | Raised

  /** One poll of `wait_for_connection`: some line says that `ssid` is active. */
  predicate ShowsSsid(lines: seq<string>, ssid: string) {
    exists i | 0 <= i < |lines| :: ConnectionLine(lines[i], ssid)
  }

  /** The first `k` polls all ran and none showed `ssid` active. */
  predicate Quiet(polls: seq<Option<seq<string>>>, k: nat, ssid: string)
    requires k <= |polls|
  {
    forall j | 0 <= j < k :: polls[j].Some? && !ShowsSsid(polls[j].value, ssid)
  }

  /**
   * wait_for_connection (lines 219-232): poll until a non-empty line says
   * that `ssid` is active. `polls[k]` is `None` when the k-th `nmcli` call
   * raised; nothing catches that, so it ends the wait.
   */
  method WaitForConnection(ssid: string, polls: seq<Option<seq<string>>>) returns (outcome: WaitOutcome)
    requires |polls| == ConnectionPolls
    ensures outcome == Connected <==>
      exists k | 0 <= k < |polls| :: Quiet(polls, k, ssid) && polls[k].Some? && ShowsSsid(polls[k].value, ssid)
    ensures outcome == Raised <==>
      exists k | 0 <= k < |polls| :: Quiet(polls, k, ssid) && polls[k].None?
    ensures outcome == NotConnected <==> Quiet(polls, |polls|, ssid)
  {
    var k := 0;
    while k < |polls|
      invariant 0 <= k <= |polls|
      invariant Quiet(polls, k, ssid)
    {
      if polls[k].None? {
        assert forall m | k < m < |polls| :: !Quiet(polls, m, ssid);
        return Raised;
      }
      var lines := polls[k].value;
      var i := 0;
      while i < |lines|
        invariant 0 <= i <= |lines|
        invariant forall m | 0 <= m < i :: !ConnectionLine(lines[m], ssid)
      {
        var line := lines[i];
        if line != "" {
          var parts := SplitOn(line, ':');
          if |parts| >= 2 && parts[0] == "yes" && parts[1] == ssid {
            assert forall m | k < m < |polls| :: !Quiet(polls, m, ssid);
            return Connected;
          }
        }
        i := i + 1;
      }
      k := k + 1;
    }
    return NotConnected;
  }
}
