/**
 * Reading `pactl list short sinks` and `pactl list short sink-inputs`
 * (bluetooth-speaker.py): the resolver's sink scoring, the wired (HDMI)
 * selector, and the stream ids `move_all_streams_to_sink` moves.
 *
 * A sink line reads `index  sink-name  module  sample-spec  state`; the
 * sink name is the second whitespace-separated column. The methods below
 * take a listing already split into `Lines`, as the source's loops do with
 * `stdout.split('\n')`.
 */
module Sinks {
  import opened Wrappers
  import opened Text

  /** Column 2 of a line, when the line has at least two columns. */
  function SinkColumn(line: string): Option<string> {
    var parts := SplitWs(line);
    if |parts| >= 2 then Some(parts[1]) else None
  }

  // ---------------------------------------------------------------------
  // Resolver scoring (set_bluetooth_as_default_sink)
  // ---------------------------------------------------------------------

  const AddressScore: nat := 100
  const NameScore: nat := 80
  const FallbackScore: nat := 50
  /** Only a best score of at least this much is ever set as default. */
  const AcceptScore: nat := 50

  /** The address as it appears in sink names: `mac.replace(":", "_")`. */
  function MacKey(mac: string): string {
    Replace(mac, ':', '_')
  }

  /** Python truthiness of the optional device name: `None` and `""` are both false. */
  predicate HasName(name: Option<string>) {
    name.Some? && name.value != ""
  }

  /** The four spellings of a device name tried against a sink name. */
  function NameVariants(name: string): seq<string> {
    [Replace(name, ' ', '_'), Replace(name, ' ', '-'), Replace(name, '-', '_'), name]
  }

  predicate MatchesVariant(name: string, sinkLower: string) {
    exists v | v in NameVariants(name) :: Contains(sinkLower, Lower(v))
  }

  /**
   * The score of one Bluetooth sink name. The name branch is taken whenever
   * a device name is given, so with a name the generic 50 is never reached.
   */
  function ScoreSink(mac: string, name: Option<string>, sink: string): (score: nat)
    ensures score == AddressScore || score == NameScore || score == FallbackScore || score == 0
  {
    var sinkLower := Lower(sink);
    if Contains(sinkLower, Lower(MacKey(mac))) then AddressScore
    else if HasName(name) then (if MatchesVariant(name.value, sinkLower) then NameScore else 0)
    else if Contains(sinkLower, "bluez_sink") || Contains(sinkLower, "bluez_output") then FallbackScore
    else 0
  }

  /** A non-blank line that mentions `bluez` in any case: the resolver looks only at these. */
  predicate IsBluezLine(line: string) {
    Strip(line) != [] && Contains(Lower(line), "bluez")
  }

  /** The sink a line offers the resolver. */
  function BluezSink(line: string): Option<string> {
    if IsBluezLine(line) then SinkColumn(line) else None
  }

  datatype Candidate = Candidate(sink: Option<string>, score: nat)

  /** What one line offers the resolver: its sink and that sink's score (0 when it offers none). */
  function Offer(line: string, mac: string, name: Option<string>): (o: Candidate)
    ensures o.sink.None? ==> o.score == 0
    ensures o.score <= AddressScore
  {
    match BluezSink(line)
    case None => Candidate(None, 0)
    case Some(sink) => Candidate(Some(sink), ScoreSink(mac, name, sink))
  }

  /** A line's offer, taken apart: the line's Bluetooth sink and, for a sink, its score. */
  lemma OfferParts(line: string, mac: string, name: Option<string>)
    ensures Offer(line, mac, name).sink == BluezSink(line)
    ensures BluezSink(line).Some? ==> Offer(line, mac, name).score == ScoreSink(mac, name, BluezSink(line).value)
  {
  }

  function Offers(lines: seq<string>, mac: string, name: Option<string>): (r: seq<Candidate>)
    ensures |r| == |lines|
    decreases |lines|
  {
    if lines == [] then [] else Offers(lines[..|lines| - 1], mac, name) + [Offer(lines[|lines| - 1], mac, name)]
  }

  lemma {:induction false} OffersAt(lines: seq<string>, mac: string, name: Option<string>, i: nat)
    requires i < |lines|
    ensures Offers(lines, mac, name)[i] == Offer(lines[i], mac, name)
    decreases |lines|
  {
    if i < |lines| - 1 {
      OffersAt(lines[..|lines| - 1], mac, name, i);
    }
  }

  lemma OffersWellFormed(lines: seq<string>, mac: string, name: Option<string>)
    ensures WellFormed(Offers(lines, mac, name))
    ensures forall j | 0 <= j < |lines| :: Offers(lines, mac, name)[j].score <= AddressScore
  {
    forall j | 0 <= j < |lines| ensures Offers(lines, mac, name)[j] == Offer(lines[j], mac, name) {
      OffersAt(lines, mac, name, j);
    }
  }

  /**
   * Reference definition of one scan over the offers: a later offer replaces
   * the one kept only on a strictly greater score.
   */
  function BestOffer(offers: seq<Candidate>): Candidate
    decreases |offers|
  {
    if offers == [] then Candidate(None, 0)
    else
      var prev := BestOffer(offers[..|offers| - 1]);
      var last := offers[|offers| - 1];
      if last.score > prev.score then last else prev
  }

  /** One more offer: it replaces the kept one exactly when it scores strictly higher. */
  lemma BestOfferStep(offers: seq<Candidate>, i: nat)
    requires i < |offers|
    ensures BestOffer(offers[..i + 1]) ==
      (if offers[i].score > BestOffer(offers[..i]).score then offers[i] else BestOffer(offers[..i]))
  {
    assert offers[..i + 1][..i] == offers[..i];
  }

  /** The result of scanning a whole listing. */
  function BestOf(lines: seq<string>, mac: string, name: Option<string>): Candidate {
    BestOffer(Offers(lines, mac, name))
  }

  predicate WellFormed(offers: seq<Candidate>) {
    forall j | 0 <= j < |offers| :: offers[j].sink.None? ==> offers[j].score == 0
  }

  /** The scan keeps the first maximum: no offer beats it and no earlier offer ties it. */
  lemma {:induction false} BestOfferIsFirstMaximum(offers: seq<Candidate>)
    requires WellFormed(offers)
    ensures var c := BestOffer(offers);
      && (forall j | 0 <= j < |offers| :: offers[j].score <= c.score)
      && (c.score == 0 <==> c.sink.None?)
      && (c.score > 0 ==> exists i | 0 <= i < |offers| ::
            offers[i] == c && forall j | 0 <= j < i :: offers[j].score < c.score)
    decreases |offers|
  {
    if offers != [] {
      var init := offers[..|offers| - 1];
      assert forall j | 0 <= j < |init| :: init[j] == offers[j];
      BestOfferIsFirstMaximum(init);
      var prev := BestOffer(init);
      if offers[|offers| - 1].score <= prev.score && prev.score > 0 {
        var i :| 0 <= i < |init| && init[i] == prev && forall j | 0 <= j < i :: init[j].score < prev.score;
        assert offers[i] == prev;
      }
    }
  }

  /** Once the kept offer has the address score, later offers cannot change it: stopping there is safe. */
  lemma {:induction false} BestOfferStopsAtAddress(offers: seq<Candidate>, k: nat)
    requires k <= |offers| && BestOffer(offers[..k]).score == AddressScore
    requires forall j | 0 <= j < |offers| :: offers[j].score <= AddressScore
    ensures BestOffer(offers) == BestOffer(offers[..k])
    decreases |offers| - k
  {
    if k < |offers| {
      assert offers[..k + 1][..k] == offers[..k];
      BestOfferStopsAtAddress(offers, k + 1);
    } else {
      assert offers[..k] == offers;
    }
  }

  /** Scoring correctness: the first line whose sink carries the device's address wins, with 100. */
  lemma AddressMatchWins(lines: seq<string>, mac: string, name: Option<string>, i: nat)
    requires i < |lines| && BluezSink(lines[i]).Some?
    requires Contains(Lower(BluezSink(lines[i]).value), Lower(MacKey(mac)))
    requires forall j | 0 <= j < i :: Offer(lines[j], mac, name).score < AddressScore
    ensures BestOf(lines, mac, name) == Candidate(BluezSink(lines[i]), AddressScore)
  {
    var offers := Offers(lines, mac, name);
    OffersWellFormed(lines, mac, name);
    forall j | 0 <= j < |lines| ensures offers[j] == Offer(lines[j], mac, name) {
      OffersAt(lines, mac, name, j);
    }
    BestOfferIsFirstMaximum(offers);
    var c := BestOffer(offers);
    assert offers[i].score == AddressScore;
    var k :| 0 <= k < |offers| && offers[k] == c && forall j | 0 <= j < k :: offers[j].score < c.score;
    assert k == i;
  }

  /**
   * The scan's result, line by line: no line offers more, the score is 0
   * exactly when no sink was kept, and a kept sink is the one offered by the
   * first line that reaches the best score, with that sink's own score.
   */
  lemma BestOfIsFirstMaximum(lines: seq<string>, mac: string, name: Option<string>)
    ensures var c := BestOf(lines, mac, name);
      && (forall j | 0 <= j < |lines| :: Offer(lines[j], mac, name).score <= c.score)
      && (c.score == 0 <==> c.sink.None?)
      && (c.score > 0 ==> exists i | 0 <= i < |lines| ::
            BluezSink(lines[i]) == c.sink && ScoreSink(mac, name, c.sink.value) == c.score &&
            forall j | 0 <= j < i :: Offer(lines[j], mac, name).score < c.score)
  {
    var offers := Offers(lines, mac, name);
    OffersWellFormed(lines, mac, name);
    forall j | 0 <= j < |lines| ensures offers[j] == Offer(lines[j], mac, name) {
      OffersAt(lines, mac, name, j);
    }
    BestOfferIsFirstMaximum(offers);
    var c := BestOffer(offers);
    if c.score > 0 {
      var i :| 0 <= i < |offers| && offers[i] == c && forall j | 0 <= j < i :: offers[j].score < c.score;
      OfferParts(lines[i], mac, name);
    }
  }

  /** With a device name given, a sink that matches neither address nor name scores 0, never 50. */
  lemma NamedDeviceHasNoFallback(mac: string, name: Option<string>, sink: string)
    requires HasName(name)
    requires !Contains(Lower(sink), Lower(MacKey(mac))) && !MatchesVariant(name.value, Lower(sink))
    ensures ScoreSink(mac, name, sink) == 0
  {
  }

  /**
   * One scan of a `pactl list short sinks` listing (lines 127-176): keep the
   * best-scoring Bluetooth sink, stop at the first address match.
   */
  method ScanSinks(lines: seq<string>, mac: string, name: Option<string>) returns (found: Option<string>, best: nat)
    ensures Candidate(found, best) == BestOf(lines, mac, name)
  {
    ghost var offers := Offers(lines, mac, name);
    found, best := None, 0;
    var i := 0;
    while i < |lines|
      invariant 0 <= i <= |lines|
      invariant Candidate(found, best) == BestOffer(offers[..i])
      invariant best < AddressScore
    {
      var offer := Offer(lines[i], mac, name);
      OffersAt(lines, mac, name, i);
      BestOfferStep(offers, i);
      if offer.score > best {
        best, found := offer.score, offer.sink;
        if best == AddressScore {
          OffersWellFormed(lines, mac, name);
          BestOfferStopsAtAddress(offers, i + 1);
          assert offers[..|offers|] == offers;
          return;
        }
      }
      i := i + 1;
    }
    assert offers[..i] == offers;
  }

  // ---------------------------------------------------------------------
  // Wired selector (set_default_to_audiocodec, force_set_hdmi_fallback)
  // ---------------------------------------------------------------------

  /** The HDMI sink a line offers: non-blank, no `bluez` anywhere, column 2 mentions `hdmi`. */
  function HdmiSink(line: string): Option<string> {
    if Strip(line) != [] && !Contains(Lower(line), "bluez") then
      match SinkColumn(line)
      case Some(sink) => if Contains(Lower(sink), "hdmi") then Some(sink) else None
      case None => None
    else None
  }

  function HdmiOffers(lines: seq<string>): (r: seq<Option<string>>)
    ensures |r| == |lines|
    decreases |lines|
  {
    if lines == [] then [] else HdmiOffers(lines[..|lines| - 1]) + [HdmiSink(lines[|lines| - 1])]
  }

  lemma {:induction false} HdmiOffersAt(lines: seq<string>, i: nat)
    requires i < |lines|
    ensures HdmiOffers(lines)[i] == HdmiSink(lines[i])
    decreases |lines|
  {
    if i < |lines| - 1 {
      HdmiOffersAt(lines[..|lines| - 1], i);
    }
  }

  /** Every HDMI sink of a listing, in listing order. */
  function HdmiSinks(lines: seq<string>): seq<string> {
    Somes(HdmiOffers(lines))
  }

  function First(s: seq<string>): Option<string> {
    if s == [] then None else Some(s[0])
  }

  /** A sink the wired selector can return is an HDMI sink and never a Bluetooth one. */
  lemma HdmiSinkIsWired(line: string)
    requires HdmiSink(line).Some?
    ensures Contains(Lower(HdmiSink(line).value), "hdmi")
    ensures !Contains(Lower(HdmiSink(line).value), "bluez")
  {
    var sink := HdmiSink(line).value;
    SplitWsWords(line);
    assert sink == SplitWs(line)[1];
    if Contains(Lower(sink), "bluez") {
      ContainsLower(line, sink);
      ContainsTransitive(Lower(line), Lower(sink), "bluez");
      assert false;
    }
  }

  /** HdmiSinks holds exactly the sinks HDMI lines offer, and each is wired and not Bluetooth. */
  lemma HdmiSinksAreWired(lines: seq<string>)
    ensures forall s :: s in HdmiSinks(lines) <==> exists i | 0 <= i < |lines| :: HdmiSink(lines[i]) == Some(s)
    ensures forall s | s in HdmiSinks(lines) :: Contains(Lower(s), "hdmi") && !Contains(Lower(s), "bluez")
  {
    var offers := HdmiOffers(lines);
    SomesMembers(offers);
    forall i | 0 <= i < |lines| ensures offers[i] == HdmiSink(lines[i]) {
      HdmiOffersAt(lines, i);
    }
    forall s | s in HdmiSinks(lines) ensures Contains(Lower(s), "hdmi") && !Contains(Lower(s), "bluez") {
      var i :| 0 <= i < |offers| && offers[i] == Some(s);
      HdmiSinkIsWired(lines[i]);
    }
  }

  /** set_default_to_audiocodec's scan (lines 238-254): the first HDMI sink, stopping there. */
  method FindFirstHdmi(lines: seq<string>) returns (sink: Option<string>)
    ensures sink == First(HdmiSinks(lines))
  {
    ghost var offers := HdmiOffers(lines);
    sink := None;
    var i := 0;
    while i < |lines|
      invariant 0 <= i <= |lines|
      invariant forall j | 0 <= j < i :: offers[j].None?
    {
      var offer := HdmiSink(lines[i]);
      HdmiOffersAt(lines, i);
      if offer.Some? {
        sink := offer;
        SomesFirst(offers, i);
        return;
      }
      i := i + 1;
    }
    SomesNone(offers);
  }

  /** force_set_hdmi_fallback's scan (lines 332-340): every HDMI sink, in order. */
  method CollectHdmiSinks(lines: seq<string>) returns (sinks: seq<string>)
    ensures sinks == HdmiSinks(lines)
  {
    ghost var offers := HdmiOffers(lines);
    sinks := [];
    var i := 0;
    while i < |lines|
      invariant 0 <= i <= |lines|
      invariant sinks == Somes(offers[..i])
    {
      assert offers[..i + 1] == offers[..i] + [offers[i]];
      SomesAppend(offers[..i], [offers[i]]);
      assert [offers[i]][..0] == [];
      var offer := HdmiSink(lines[i]);
      HdmiOffersAt(lines, i);
      if offer.Some? {
        sinks := sinks + [offer.value];
      }
      i := i + 1;
    }
    assert offers[..i] == offers;
  }

  // ---------------------------------------------------------------------
  // Stream ids (move_all_streams_to_sink)
  // ---------------------------------------------------------------------

  /** The stream id of a `pactl list short sink-inputs` line: its first tab-separated field. */
  function StreamId(line: string): Option<string> {
    if Strip(line) != [] then Some(FirstField(line, '\t')) else None
  }

  function StreamOffers(lines: seq<string>): (r: seq<Option<string>>)
    ensures |r| == |lines|
    decreases |lines|
  {
    if lines == [] then [] else StreamOffers(lines[..|lines| - 1]) + [StreamId(lines[|lines| - 1])]
  }

  lemma {:induction false} StreamOffersAt(lines: seq<string>, i: nat)
    requires i < |lines|
    ensures StreamOffers(lines)[i] == StreamId(lines[i])
    decreases |lines|
  {
    if i < |lines| - 1 {
      StreamOffersAt(lines[..|lines| - 1], i);
    }
  }

  /** The ids `move_all_streams_to_sink` moves, one per non-blank line, in order. */
  function StreamIds(lines: seq<string>): seq<string> {
    Somes(StreamOffers(lines))
  }

  /** Each id is the first tab-separated field of a non-blank line, and holds no tab. */
  lemma StreamIdsOfLines(lines: seq<string>)
    ensures forall id | id in StreamIds(lines) ::
      (forall k | 0 <= k < |id| :: id[k] != '\t') &&
      exists i | 0 <= i < |lines| :: Strip(lines[i]) != [] && id == FirstField(lines[i], '\t')
  {
    var offers := StreamOffers(lines);
    SomesMembers(offers);
    forall id | id in StreamIds(lines)
      ensures (forall k | 0 <= k < |id| :: id[k] != '\t')
      ensures exists i | 0 <= i < |lines| :: Strip(lines[i]) != [] && id == FirstField(lines[i], '\t')
    {
      var i :| 0 <= i < |offers| && offers[i] == Some(id);
      StreamOffersAt(lines, i);
      FirstFieldIsFirstPiece(lines[i], '\t');
    }
  }

  /**
   * move_all_streams_to_sink (lines 290-310): the ids of the streams to move,
   * in listing order; the caller issues one `pactl move-sink-input <id> <sink>`
   * per id (see Routing.Apply).
   */
  method MoveAllStreamsToSink(lines: seq<string>) returns (moved: seq<string>)
    ensures moved == StreamIds(lines)
  {
    ghost var offers := StreamOffers(lines);
    moved := [];
    var i := 0;
    while i < |lines|
      invariant 0 <= i <= |lines|
      invariant moved == Somes(offers[..i])
    {
      assert offers[..i + 1] == offers[..i] + [offers[i]];
      SomesAppend(offers[..i], [offers[i]]);
      assert [offers[i]][..0] == [];
      var inputId := StreamId(lines[i]);
      StreamOffersAt(lines, i);
      if inputId.Some? {
        moved := moved + [inputId.value];
      }
      i := i + 1;
    }
    assert offers[..i] == offers;
  }
}
