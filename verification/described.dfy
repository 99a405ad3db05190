/**
 What a whole list of media sections says, without reading it in order: which section is of which kind, when
 all of them can be read, and from which section or line each value comes in the end.
 */
module Described {
  import opened Sequences
  import opened Options
  import opened Channels
  import opened SdpDescription
  import opened SdpValidation
  import opened DescribedSections

  // ----- the kind of a section -----

  /** The first a=rtpmap line of the section names this encoding, at 90 kHz. */
  ghost predicate MapIs(m: Media, e: Encoding) {
    exists i :: 0 <= i < |m.attrs| && m.attrs[i].RtpMap? && m.attrs[i].encoding == e && m.attrs[i].clockRate == 90000 &&
      forall j :: 0 <= j < i ==> !m.attrs[j].RtpMap?
  }

  ghost predicate HasRate(m: Media) { exists i :: 0 <= i < |m.bandwidths| && m.bandwidths[i].modifier == AS }

  /** An MPEG-2 stream is the original one over RTP/AVP or UDP, or if it has a bit rate. */
  ghost predicate IsOrig(m: Media) {
    m.video && MapIs(m, EncMp2t) && (m.transport == RtpAvp || m.transport == Udp || HasRate(m))
  }

  ghost predicate IsRe(m: Media) {
    m.video && MapIs(m, EncMp2t) && m.transport != RtpAvp && m.transport != Udp && !HasRate(m)
  }

  ghost predicate IsRtx(m: Media) {
    m.video && MapIs(m, EncRtx) && m.transport == RtpAvpf && !IsMulticast(m.conn)
  }

  ghost predicate IsColumn(m: Media) {
    m.video && MapIs(m, EncParity) && m.transport == RtpAvp && IsMulticast(m.conn)
  }

  ghost predicate Is2d(m: Media) {
    m.video && MapIs(m, Enc2dParity) && m.transport == RtpAvp && IsMulticast(m.conn)
  }

  ghost predicate FecAmong(ms: seq<Media>) {
    exists i :: 0 <= i < |ms| && Active(ms[i]) && (IsColumn(ms[i]) || Is2d(ms[i]))
  }

  /** An active section of this kind, after some others: of the 2-D parity sections the first FEC one is a column. */
  ghost predicate OfKind(before: seq<Media>, m: Media, k: Kind) {
    Active(m) &&
    match k
    case OrigKind => IsOrig(m)
    case ReKind => IsRe(m)
    case RtxKind => IsRtx(m)
    case Fec1Kind => IsColumn(m) || (Is2d(m) && !FecAmong(before))
    case Fec2Kind => Is2d(m) && FecAmong(before)
  }

  lemma {:induction false} FirstMapIs(attrs: seq<Attr>)
    ensures FirstRtpMap(attrs).None? <==> forall i :: 0 <= i < |attrs| ==> !attrs[i].RtpMap?
    ensures FirstRtpMap(attrs).Some? ==>
            exists i :: 0 <= i < |attrs| && attrs[i] == FirstRtpMap(attrs).value &&
              forall j :: 0 <= j < i ==> !attrs[j].RtpMap?
  {
    if attrs != [] && !attrs[0].RtpMap? {
      var t := attrs[1..];
      FirstMapIs(t);
      assert forall j :: 0 <= j < |t| ==> attrs[j + 1] == t[j];
      if FirstRtpMap(t).Some? {
        var i :| 0 <= i < |t| && t[i] == FirstRtpMap(t).value && forall j :: 0 <= j < i ==> !t[j].RtpMap?;
        assert attrs[i + 1] == FirstRtpMap(attrs).value;
      }
    }
  }

  lemma {:induction false} MapIsIff(m: Media, e: Encoding)
    ensures MapIs(m, e) <==>
            var a := FirstRtpMap(m.attrs); a.Some? && a.value.encoding == e && a.value.clockRate == 90000
  {
    FirstMapIs(m.attrs);
    if FirstRtpMap(m.attrs).Some? {
      var i :| 0 <= i < |m.attrs| && m.attrs[i] == FirstRtpMap(m.attrs).value &&
               forall j :: 0 <= j < i ==> !m.attrs[j].RtpMap?;
      assert forall j :: 0 <= j < |m.attrs| && m.attrs[j].RtpMap? && j != i ==> i < j;
    }
  }

  lemma {:induction false} RateIsThere(bws: seq<Bandwidth>)
    ensures BitRate(bws).Some? <==> exists i :: 0 <= i < |bws| && bws[i].modifier == AS
  {
    if bws != [] && bws[0].modifier != AS {
      RateIsThere(bws[1..]);
      if i :| 0 <= i < |bws| && bws[i].modifier == AS {
        assert bws[1..][i - 1].modifier == AS;
      }
    }
  }

  /** The kind by the lines of the section is the kind found with what was read before. */
  lemma {:induction false} KindIs(st: State, before: seq<Media>, m: Media, k: Kind)
    requires st.fec1.pt == 0 <==> !FecAmong(before)
    ensures OfKind(before, m, k) <==> Active(m) && KindOf(st, m) == Some(k)
  {
    MapIsIff(m, EncMp2t);
    MapIsIff(m, EncRtx);
    MapIsIff(m, EncParity);
    MapIsIff(m, Enc2dParity);
    RateIsThere(m.bandwidths);
  }

  // ----- the lines of all sections of some kinds -----

  ghost predicate InKinds(before: seq<Media>, m: Media, ks: set<Kind>) { exists k :: k in ks && OfKind(before, m, k) }

  ghost function Attrs(ms: seq<Media>, ks: set<Kind>): seq<Attr> {
    if ms == [] then []
    else
      var n := |ms| - 1;
      var before := Attrs(ms[..n], ks);
      if InKinds(ms[..n], ms[n], ks) then before + ms[n].attrs else before
  }

  ghost function Bandwidths(ms: seq<Media>, k: Kind): seq<Bandwidth> {
    if ms == [] then []
    else
      var n := |ms| - 1;
      var before := Bandwidths(ms[..n], k);
      if OfKind(ms[..n], ms[n], k) then before + ms[n].bandwidths else before
  }

  /** The last section of a kind. */
  ghost function LastOf(ms: seq<Media>, k: Kind): Option<Media> {
    if ms == [] then None
    else
      var n := |ms| - 1;
      if OfKind(ms[..n], ms[n], k) then Some(ms[n]) else LastOf(ms[..n], k)
  }

  /** A multicast section over UDP gives the original address, port and rate whatever else it is. */
  predicate OverUdp(m: Media) { m.transport == Udp && IsMulticast(m.conn) }

  /** The last section that gives the address and port of the original stream. */
  ghost function LastPlace(ms: seq<Media>): Option<Media> {
    if ms == [] then None
    else
      var n := |ms| - 1;
      if OverUdp(ms[n]) || OfKind(ms[..n], ms[n], OrigKind) then Some(ms[n]) else LastPlace(ms[..n])
  }

  /** The bandwidths that give the bit rate: the first one over UDP, and those of original sections. */
  ghost function Rates(ms: seq<Media>): seq<Bandwidth> {
    if ms == [] then []
    else
      var n := |ms| - 1;
      var before, r := Rates(ms[..n]), BitRate(ms[n].bandwidths);
      var first := if OverUdp(ms[n]) && r.Some? then before + [Bandwidth(AS, r.value)] else before;
      if OfKind(ms[..n], ms[n], OrigKind) then first + ms[n].bandwidths else first
  }

  /** The bandwidth per receiver of the original sections that name one: the one in the first a=fmtp line. */
  ghost function PerReceiver(ms: seq<Media>): nat {
    if ms == [] then BW_UNSPECIFIED
    else
      var n := |ms| - 1;
      var f := FirstFmtp(ms[n].attrs);
      if OfKind(ms[..n], ms[n], OrigKind) && f.Some? then f.value.perRcvrBw else PerReceiver(ms[..n])
  }

  // ----- the state that is read -----

  /** All but address and port of a stream. */
  ghost predicate StreamDescribed(ms: seq<Media>, k: Kind, s: Stream) {
    var attrs := Attrs(ms, {k});
    && s.status == StatusFrom(attrs, Inactive) && s.rtcpPort == RtcpFrom(attrs, 0)
    && s.sndrBw == SndrFrom(Bandwidths(ms, k), BW_UNSPECIFIED)
    && s.rcvrBw == RcvrFrom(Bandwidths(ms, k), BW_UNSPECIFIED)
    && Some(s.srcAddr) == (if k == ReKind || k == RtxKind then Some(0) else SourceFrom(attrs, Some(0)))
    && match LastOf(ms, k)
       case None => s.pt == 0 && s.mid == ""
       case Some(m) => m.payloadTypes == [s.pt] && s.mid == MidFrom(m.attrs, "")
  }

  ghost predicate PlaceDescribed(m: Option<Media>, s: Stream, s0: Stream) {
    match m
    case None => s.addr == s0.addr && s.rtpPort == s0.rtpPort
    case Some(m) => Some(s.addr) == m.conn.addr && s.rtpPort == m.port
  }

  ghost predicate PlacesDescribed(ms: seq<Media>, st: State) {
    && PlaceDescribed(LastPlace(ms), st.orig, START.orig)
    && (forall k :: k != OrigKind ==> PlaceDescribed(LastOf(ms, k), StreamAt(st, k), StreamAt(START, k)))
  }

  const ALL_KINDS := {OrigKind, ReKind, RtxKind, Fec1Kind, Fec2Kind}

  ghost predicate DescribedBy(ms: seq<Media>, st: State) {
    && (forall k :: StreamDescribed(ms, k, StreamAt(st, k)))
    && PlacesDescribed(ms, st) && RatesDescribed(ms, st) && RepairDescribed(ms, st)
  }

  // ----- one section more -----

  /** How the lines grow. */
  lemma {:induction false} LinesSnoc(ms: seq<Media>, m: Media, k: Kind, ks: set<Kind>)
    ensures Attrs(ms + [m], ks) == if InKinds(ms, m, ks) then Attrs(ms, ks) + m.attrs else Attrs(ms, ks)
    ensures Bandwidths(ms + [m], k) ==
            if OfKind(ms, m, k) then Bandwidths(ms, k) + m.bandwidths else Bandwidths(ms, k)
    ensures LastOf(ms + [m], k) == if OfKind(ms, m, k) then Some(m) else LastOf(ms, k)
  {
    assert (ms + [m])[..|ms|] == ms;
  }

  /** At most one kind. */
  lemma {:induction false} OneKind(before: seq<Media>, m: Media, k: Kind)
    requires OfKind(before, m, k)
    ensures forall j :: OfKind(before, m, j) <==> j == k
    ensures forall ks {:trigger InKinds(before, m, ks)} :: InKinds(before, m, ks) <==> k in ks
  {
    MapIsIff(m, EncMp2t);
    MapIsIff(m, EncRtx);
    MapIsIff(m, EncParity);
    MapIsIff(m, Enc2dParity);
  }

  /** A section of no kind is passed over, but for what it says over UDP. */
  lemma {:induction false} StreamSkips(ms: seq<Media>, m: Media, k: Kind, s: Stream, s': Stream)
    requires StreamDescribed(ms, k, s) && !OfKind(ms, m, k)
    requires s' == s.(addr := s'.addr, rtpPort := s'.rtpPort)
    ensures StreamDescribed(ms + [m], k, s')
  {
    LinesSnoc(ms, m, k, {k});
    assert !InKinds(ms, m, {k});
  }

  lemma {:induction false} StreamTakes(ms: seq<Media>, m: Media, k: Kind, s: Stream, s': Stream)
    requires StreamDescribed(ms, k, s) && OfKind(ms, m, k) && StreamIs(s, s', k, m)
    ensures StreamDescribed(ms + [m], k, s')
  {
    LinesSnoc(ms, m, k, {k});
    assert InKinds(ms, m, {k});
    StreamValuesAppend(Attrs(ms, {k}), m.attrs, Inactive, "", 0, Some(0));
    LastOfAppend(Bandwidths(ms, k), m.bandwidths, IsRs);
    LastOfAppend(Bandwidths(ms, k), m.bandwidths, IsRr);
  }

  /** Over UDP the address, the port and the rate must be there. */
  predicate UdpFits(m: Media) {
    OverUdp(m) ==>
      && IsAddress(m.conn.addr) && PortOk(m.port)
      && BitRate(m.bandwidths).Some? && BitRateOk(BitRate(m.bandwidths).value)
  }

  function UdpRead(st: State, m: Media): State
    requires UdpFits(m)
  {
    if OverUdp(m) then
      st.(orig := st.orig.(addr := m.conn.addr.value, rtpPort := m.port),
          bitRate := BitRate(m.bandwidths).value * 1000)
    else st
  }

  lemma {:induction false} UdpIs(st: State, m: Media)
    ensures UdpOriginal(st, m) == if UdpFits(m) then Some(UdpRead(st, m)) else None
  {
  }

  /** What one section does: nothing more than over UDP if it is of no kind. */
  ghost predicate StepIs(ms: seq<Media>, m: Media, st: State, st': State)
    requires UdpFits(m)
  {
    var u := UdpRead(st, m);
    && (forall k :: OfKind(ms, m, k) ==> Readable(k, m) && SectionIs(u, st', k, m))
    && ((forall k :: !OfKind(ms, m, k)) ==> st' == u)
  }

  /** A stream is touched by the section of its kind only, and over UDP. */
  lemma {:induction false} StreamAfter(ms: seq<Media>, m: Media, st: State, st': State, j: Kind)
    requires UdpFits(m) && StepIs(ms, m, st, st')
    ensures var s, s' := StreamAt(UdpRead(st, m), j), StreamAt(st', j);
            if OfKind(ms, m, j) then StreamIs(s, s', j, m) else s' == s
  {
    if k :| OfKind(ms, m, k) {
      assert SectionIs(UdpRead(st, m), st', k, m);
    }
  }

  lemma {:induction false} StreamSteps(ms: seq<Media>, m: Media, st: State, st': State, j: Kind)
    requires UdpFits(m) && StepIs(ms, m, st, st') && StreamDescribed(ms, j, StreamAt(st, j))
    ensures StreamDescribed(ms + [m], j, StreamAt(st', j))
  {
    var s, s1 := StreamAt(st, j), StreamAt(UdpRead(st, m), j);
    assert s1 == s.(addr := s1.addr, rtpPort := s1.rtpPort);
    StreamAfter(ms, m, st, st', j);
    if OfKind(ms, m, j) {
      StreamTakes(ms, m, j, s, StreamAt(st', j));
    } else {
      StreamSkips(ms, m, j, s, StreamAt(st', j));
    }
  }

  lemma {:induction false} PlaceSnoc(ms: seq<Media>, m: Media)
    ensures LastPlace(ms + [m]) == if OverUdp(m) || OfKind(ms, m, OrigKind) then Some(m) else LastPlace(ms)
  {
    assert (ms + [m])[..|ms|] == ms;
  }

  lemma {:induction false} OrigPlaceStep(ms: seq<Media>, m: Media, st: State, st': State)
    requires UdpFits(m) && StepIs(ms, m, st, st') && PlaceDescribed(LastPlace(ms), st.orig, START.orig)
    ensures PlaceDescribed(LastPlace(ms + [m]), st'.orig, START.orig)
  {
    PlaceSnoc(ms, m);
    StreamAfter(ms, m, st, st', OrigKind);
  }

  lemma {:induction false} OtherPlaceStep(ms: seq<Media>, m: Media, st: State, st': State, j: Kind)
    requires UdpFits(m) && StepIs(ms, m, st, st') && j != OrigKind
    requires PlaceDescribed(LastOf(ms, j), StreamAt(st, j), StreamAt(START, j))
    ensures PlaceDescribed(LastOf(ms + [m], j), StreamAt(st', j), StreamAt(START, j))
  {
    LinesSnoc(ms, m, j, {});
    StreamAfter(ms, m, st, st', j);
    assert StreamAt(UdpRead(st, m), j) == StreamAt(st, j);
  }

  lemma {:induction false} PlacesStep(ms: seq<Media>, m: Media, st: State, st': State)
    requires UdpFits(m) && StepIs(ms, m, st, st') && PlacesDescribed(ms, st)
    ensures PlacesDescribed(ms + [m], st')
  {
    OrigPlaceStep(ms, m, st, st');
    forall j | j != OrigKind ensures PlaceDescribed(LastOf(ms + [m], j), StreamAt(st', j), StreamAt(START, j)) {
      OtherPlaceStep(ms, m, st, st', j);
    }
  }

  lemma {:induction false} NoRate(k: Kind, bws: seq<Bandwidth>, rate: nat)
    requires k != OrigKind && BwsFit(k, bws)
    ensures RateFrom(bws, rate) == rate
  {
  }

  lemma {:induction false} FmtpIsThere(attrs: seq<Attr>)
    ensures FirstFmtp(attrs).Some? <==> Last(attrs, IsFmtp).Some?
  {
    if attrs != [] {
      FmtpIsThere(attrs[1..]);
    }
  }

  /** The protocol and the rates. */
  ghost predicate RatesDescribed(ms: seq<Media>, st: State) {
    && st.proto == (match LastOf(ms, OrigKind)
                    case None => UdpStream
                    case Some(m) => if m.transport == Udp then UdpStream else RtpStream)
    && st.bitRate == RateFrom(Rates(ms), 0) && st.perRcvrBw == PerReceiver(ms)
  }

  lemma {:induction false} RatesSnoc(ms: seq<Media>, m: Media)
    requires UdpFits(m)
    ensures var before := if OverUdp(m) then Rates(ms) + [Bandwidth(AS, BitRate(m.bandwidths).value)] else Rates(ms);
            Rates(ms + [m]) == if OfKind(ms, m, OrigKind) then before + m.bandwidths else before
    ensures PerReceiver(ms + [m]) ==
            if OfKind(ms, m, OrigKind) && FirstFmtp(m.attrs).Some? then FirstFmtp(m.attrs).value.perRcvrBw
            else PerReceiver(ms)
  {
    assert (ms + [m])[..|ms|] == ms;
  }

  lemma {:induction false} RatesStep(ms: seq<Media>, m: Media, st: State, st': State)
    requires UdpFits(m) && StepIs(ms, m, st, st') && RatesDescribed(ms, st)
    ensures RatesDescribed(ms + [m], st')
  {
    var u := UdpRead(st, m);
    LinesSnoc(ms, m, OrigKind, {});
    RatesSnoc(ms, m);
    FmtpIsThere(m.attrs);
    var before := Rates(ms);
    if OverUdp(m) {
      var first := Bandwidth(AS, BitRate(m.bandwidths).value);
      LastOfAppend(before, [first], IsAs);
      OfOne(first, IsAs);
      before := before + [first];
    }
    LastOfAppend(before, m.bandwidths, IsAs);
    assert u.bitRate == RateFrom(before, 0);
    if k :| OfKind(ms, m, k) {
      OneKind(ms, m, k);
      assert SectionIs(u, st', k, m);
      if k != OrigKind {
        NoRate(k, m.bandwidths, u.bitRate);
      }
    }
  }

  /** Feedback, retransmission parameters and the filter of the re-sourced stream. */
  ghost predicate RepairDescribed(ms: seq<Media>, st: State) {
    && Some(st.fbt) == TargetFrom(Attrs(ms, {OrigKind, ReKind}), Some(0))
    && st.apt == AptFrom(Attrs(ms, {RtxKind}), 0) && st.time == TimeFrom(Attrs(ms, {RtxKind}), 0)
    && st.reFilter == SourceFrom(Attrs(ms, {ReKind}), None)
    && st.er == Feedback(Attrs(ms, ALL_KINDS), "") && st.fcc == Feedback(Attrs(ms, ALL_KINDS), "pli")
  }

  lemma {:induction false} RepairSkips(ms: seq<Media>, m: Media, st: State, st': State)
    requires UdpFits(m) && StepIs(ms, m, st, st') && RepairDescribed(ms, st)
    requires forall k :: !OfKind(ms, m, k)
    ensures RepairDescribed(ms + [m], st')
  {
    LinesSnoc(ms, m, OrigKind, {OrigKind, ReKind});
    LinesSnoc(ms, m, OrigKind, {RtxKind});
    LinesSnoc(ms, m, OrigKind, {ReKind});
    LinesSnoc(ms, m, OrigKind, ALL_KINDS);
  }

  /** The lines of some kinds after a section of kind k. */
  lemma {:induction false} AttrsTaken(ms: seq<Media>, m: Media, k: Kind, ks: set<Kind>)
    requires OfKind(ms, m, k)
    ensures Attrs(ms + [m], ks) == if k in ks then Attrs(ms, ks) + m.attrs else Attrs(ms, ks)
  {
    OneKind(ms, m, k);
    LinesSnoc(ms, m, k, ks);
  }

  lemma {:induction false} RepairTakes(ms: seq<Media>, m: Media, u: State, st': State, k: Kind)
    requires RepairDescribed(ms, u) && OfKind(ms, m, k) && RestIs(u, st', k, m)
    ensures RepairDescribed(ms + [m], st')
  {
    AttrsTaken(ms, m, k, {OrigKind, ReKind});
    AttrsTaken(ms, m, k, {RtxKind});
    AttrsTaken(ms, m, k, {ReKind});
    AttrsTaken(ms, m, k, ALL_KINDS);
    OtherValuesAppend(Attrs(ms, {OrigKind, ReKind}), m.attrs, Some(0), 0, 0);
    OtherValuesAppend(Attrs(ms, {RtxKind}), m.attrs, Some(0), 0, 0);
    StreamValuesAppend(Attrs(ms, {ReKind}), m.attrs, Inactive, "", 0, None);
    FeedbackOfAppend(Attrs(ms, ALL_KINDS), m.attrs, "");
    FeedbackOfAppend(Attrs(ms, ALL_KINDS), m.attrs, "pli");
  }

  lemma {:induction false} RepairStep(ms: seq<Media>, m: Media, st: State, st': State)
    requires UdpFits(m) && StepIs(ms, m, st, st') && RepairDescribed(ms, st)
    ensures RepairDescribed(ms + [m], st')
  {
    if k :| OfKind(ms, m, k) {
      assert SectionIs(UdpRead(st, m), st', k, m);
      RepairTakes(ms, m, UdpRead(st, m), st', k);
    } else {
      RepairSkips(ms, m, st, st');
    }
  }

  // ----- all sections -----

  /** Whether an FEC section was read before. */
  ghost predicate FecKnown(ms: seq<Media>, st: State) { st.fec1.pt == 0 <==> !FecAmong(ms) }

  lemma {:induction false} FecSnoc(ms: seq<Media>, m: Media)
    ensures FecAmong(ms + [m]) <==> FecAmong(ms) || OfKind(ms, m, Fec1Kind)
  {
    var t := ms + [m];
    if i :| 0 <= i < |ms| && Active(ms[i]) && (IsColumn(ms[i]) || Is2d(ms[i])) {
      assert t[i] == ms[i];
    }
    assert t[|ms|] == m;
  }

  lemma {:induction false} FecStep(ms: seq<Media>, m: Media, st: State, st': State)
    requires UdpFits(m) && StepIs(ms, m, st, st') && FecKnown(ms, st)
    ensures FecKnown(ms + [m], st')
  {
    FecSnoc(ms, m);
    StreamAfter(ms, m, st, st', Fec1Kind);
  }

  /** One section can be read exactly when it fits its kind, whatever the values read before. */
  lemma {:induction false} SectionStep(ms: seq<Media>, m: Media, st: State)
    requires FecKnown(ms, st)
    ensures Section(st, m).Some? <==> UdpFits(m) && forall k :: OfKind(ms, m, k) ==> Readable(k, m)
    ensures Section(st, m).Some? ==> StepIs(ms, m, st, Section(st, m).value)
  {
    UdpIs(st, m);
    if UdpFits(m) {
      var u := UdpRead(st, m);
      forall k ensures OfKind(ms, m, k) <==> Active(m) && KindOf(u, m) == Some(k) {
        KindIs(u, ms, m, k);
      }
      if Active(m) && KindOf(u, m).Some? {
        ReadLinesAre(u, KindOf(u, m).value, m);
        assert OfKind(ms, m, KindOf(u, m).value);
      }
    }
  }

  /** Each section can be read, by its own lines and kind. */
  ghost predicate SectionsFit(ms: seq<Media>) {
    forall i :: 0 <= i < |ms| ==> UdpFits(ms[i]) && forall k :: OfKind(ms[..i], ms[i], k) ==> Readable(k, ms[i])
  }

  lemma {:induction false} FitSnoc(ms: seq<Media>, m: Media)
    ensures SectionsFit(ms + [m]) <==>
            SectionsFit(ms) && UdpFits(m) && forall k :: OfKind(ms, m, k) ==> Readable(k, m)
  {
    var t := ms + [m];
    assert t[..|ms|] == ms && t[|ms|] == m;
    assert forall i :: 0 <= i < |ms| ==> t[..i] == ms[..i] && t[i] == ms[i];
  }

  lemma {:induction false} SectionsSnoc(st: State, ms: seq<Media>, m: Media)
    ensures Sections(st, ms + [m]) ==
            var r := Sections(st, ms); if r.None? then None else Section(r.value, m)
    decreases |ms|
  {
    if ms == [] {
      assert [] + [m] == [m] && [m][1..] == [];
    } else {
      assert (ms + [m])[1..] == ms[1..] + [m];
      var r := Section(st, ms[0]);
      if r.Some? {
        SectionsSnoc(r.value, ms[1..], m);
      }
    }
  }

  lemma {:induction false} StepDescribes(ms: seq<Media>, m: Media, st: State, st': State)
    requires UdpFits(m) && StepIs(ms, m, st, st') && DescribedBy(ms, st) && FecKnown(ms, st)
    ensures DescribedBy(ms + [m], st') && FecKnown(ms + [m], st')
  {
    forall j ensures StreamDescribed(ms + [m], j, StreamAt(st', j)) {
      StreamSteps(ms, m, st, st', j);
    }
    PlacesStep(ms, m, st, st');
    RatesStep(ms, m, st, st');
    RepairStep(ms, m, st, st');
    FecStep(ms, m, st, st');
  }

  /**
   The sections of a description can be read exactly when each fits its kind. What is read is then described
   by their lines: every value comes from the last line or section that gives it, or is the default.
   */
  lemma {:induction false} SectionsAre(ms: seq<Media>)
    ensures Sections(START, ms).Some? <==> SectionsFit(ms)
    ensures Sections(START, ms).Some? ==>
            DescribedBy(ms, Sections(START, ms).value) && FecKnown(ms, Sections(START, ms).value)
    decreases |ms|
  {
    if ms != [] {
      var before, m := ms[..|ms| - 1], ms[|ms| - 1];
      assert ms == before + [m];
      SectionsAre(before);
      SectionsSnoc(START, before, m);
      FitSnoc(before, m);
      if Sections(START, before).Some? {
        var st := Sections(START, before).value;
        SectionStep(before, m, st);
        if Section(st, m).Some? {
          StepDescribes(before, m, st, Section(st, m).value);
        }
      }
    } else {
      StartDescribed();
    }
  }

  lemma {:induction false} StartDescribed()
    ensures DescribedBy([], START) && FecKnown([], START)
  {
  }
}
