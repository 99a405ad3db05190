/**
 What one media section says, without going through its lines in order: the values that the reading of
 SdpValidation ends with are those of the last line of each kind.
 */
module DescribedSections {
  import opened Sequences
  import opened Options
  import opened Channels
  import opened SdpDescription
  import opened SdpValidation

  // ----- attributes -----

  predicate IsDirection(a: Attr) { a.SendOnlyAttr? || a.RecvOnlyAttr? || a.InactiveAttr? }
  predicate IsMid(a: Attr) { a.Mid? }
  predicate IsRtcp(a: Attr) { a.Rtcp? }
  predicate IsTarget(a: Attr) { a.Rtcp? && a.target.Target? }
  predicate IsFilter(a: Attr) { a.SourceFilter? }
  predicate IsFmtp(a: Attr) { a.Fmtp? }
  predicate IsApt(a: Attr) { a.Fmtp? && a.apt > 0 }
  predicate IsTime(a: Attr) { a.Fmtp? && a.rtxTime > 0 }

  function StatusFrom(attrs: seq<Attr>, s: Status): Status {
    match Last(attrs, IsDirection)
    case None => s
    case Some(a) => if a.SendOnlyAttr? then SendOnly else if a.RecvOnlyAttr? then RecvOnly else Inactive
  }

  function MidFrom(attrs: seq<Attr>, id: string): string {
    match Last(attrs, IsMid) case None => id case Some(a) => a.id
  }

  function RtcpFrom(attrs: seq<Attr>, port: nat): nat {
    match Last(attrs, IsRtcp) case None => port case Some(a) => a.port
  }

  function TargetFrom(attrs: seq<Attr>, t: AddrText): AddrText {
    match Last(attrs, IsTarget) case None => t case Some(a) => a.target.addr
  }

  function SourceFrom(attrs: seq<Attr>, t: AddrText): AddrText {
    match Last(attrs, IsFilter) case None => t case Some(a) => if a.sources == [] then None else a.sources[0]
  }

  function AptFrom(attrs: seq<Attr>, apt: nat): nat {
    match Last(attrs, IsApt) case None => apt case Some(a) => a.apt % 256
  }

  function TimeFrom(attrs: seq<Attr>, time: nat): nat {
    match Last(attrs, IsTime) case None => time case Some(a) => a.rtxTime
  }

  /** A kind of feedback is asked for. */
  predicate Feedback(attrs: seq<Attr>, kind: string) {
    exists i :: 0 <= i < |attrs| && attrs[i].RtcpFb? && attrs[i].nack == Some(kind)
  }

  /** The line may stand in a section of this kind. */
  predicate AttrFits(k: Kind, m: Media, a: Attr)
    requires |m.payloadTypes| == 1
  {
    match a
    case SourceFilter(incl, dest, sources) =>
      incl && IsAddress(dest) && dest == m.conn.addr && |sources| == 1 && IsHost(sources[0])
    case RtpMap(pt, _, _) => PayloadTypeOk(pt) && pt == m.payloadTypes[0]
    case Rtcp(port, target) => PortOk(port) && (target.Target? ==> IsHost(target.addr))
    case RtcpFb(pt, nack) => nack.Some? && (k == OrigKind || k == ReKind ==> pt == m.payloadTypes[0])
    case Fmtp(pt, retransmission, _, _, _) =>
      && (k == RtxKind ==> retransmission && pt == m.payloadTypes[0])
      && (k == OrigKind ==>
          var f := FirstFmtp(m.attrs); f.Some? && f.value.pt == m.payloadTypes[0] && f.value.perRcvrBw <= MAX_BW)
    case _ => true
  }

  /** What attributes do to the stream of their section. */
  predicate StreamRead(s: Stream, s': Stream, k: Kind, attrs: seq<Attr>) {
    && s'.addr == s.addr && s'.rtpPort == s.rtpPort && s'.pt == s.pt && s'.sndrBw == s.sndrBw && s'.rcvrBw == s.rcvrBw
    && s'.status == StatusFrom(attrs, s.status) && s'.mid == MidFrom(attrs, s.mid)
    && s'.rtcpPort == RtcpFrom(attrs, s.rtcpPort)
    && Some(s'.srcAddr) == if k == ReKind || k == RtxKind then Some(s.srcAddr) else SourceFrom(attrs, Some(s.srcAddr))
  }

  ghost predicate OthersSame(st: State, st': State, k: Kind) {
    forall j :: j != k ==> StreamAt(st', j) == StreamAt(st, j)
  }

  /** What they do to the rest. */
  predicate RestRead(st: State, st': State, k: Kind, m: Media, attrs: seq<Attr>) {
    && st'.proto == st.proto && st'.bitRate == st.bitRate
    && Some(st'.fbt) == (if k == OrigKind || k == ReKind then TargetFrom(attrs, Some(st.fbt)) else Some(st.fbt))
    && st'.er == (st.er || Feedback(attrs, "")) && st'.fcc == (st.fcc || Feedback(attrs, "pli"))
    && st'.apt == (if k == RtxKind then AptFrom(attrs, st.apt) else st.apt)
    && st'.time == (if k == RtxKind then TimeFrom(attrs, st.time) else st.time)
    && st'.reFilter == (if k == ReKind then SourceFrom(attrs, st.reFilter) else st.reFilter)
    && st'.perRcvrBw == (if k == OrigKind && Last(attrs, IsFmtp).Some? && FirstFmtp(m.attrs).Some?
                         then FirstFmtp(m.attrs).value.perRcvrBw else st.perRcvrBw)
  }

  ghost predicate AttrsRead(st: State, st': State, k: Kind, m: Media, attrs: seq<Attr>) {
    StreamRead(StreamAt(st, k), StreamAt(st', k), k, attrs) && OthersSame(st, st', k) && RestRead(st, st', k, m, attrs)
  }

  lemma {:induction false} OfOne<T>(x: T, p: T -> bool)
    ensures Last([x], p) == if p(x) then Some(x) else None
  {
    assert [x][1..] == [];
  }

  lemma {:induction false} StreamValuesOfOne(a: Attr, s: Stream)
    ensures StatusFrom([a], s.status) ==
            if a.SendOnlyAttr? then SendOnly
            else if a.RecvOnlyAttr? then RecvOnly
            else if a.InactiveAttr? then Inactive
            else s.status
    ensures MidFrom([a], s.mid) == if a.Mid? then a.id else s.mid
    ensures RtcpFrom([a], s.rtcpPort) == if a.Rtcp? then a.port else s.rtcpPort
    ensures forall t {:trigger SourceFrom([a], t)} :: SourceFrom([a], t) ==
              if !a.SourceFilter? then t else if a.sources == [] then None else a.sources[0]
  {
    OfOne(a, IsDirection);
    OfOne(a, IsMid);
    OfOne(a, IsRtcp);
    OfOne(a, IsFilter);
  }

  lemma {:induction false} OtherValuesOfOne(a: Attr, st: State)
    ensures TargetFrom([a], Some(st.fbt)) == if a.Rtcp? && a.target.Target? then a.target.addr else Some(st.fbt)
    ensures AptFrom([a], st.apt) == if a.Fmtp? && a.apt > 0 then a.apt % 256 else st.apt
    ensures TimeFrom([a], st.time) == if a.Fmtp? && a.rtxTime > 0 then a.rtxTime else st.time
    ensures Last([a], IsFmtp).Some? <==> a.Fmtp?
    ensures Feedback([a], "") <==> a.RtcpFb? && a.nack == Some("")
    ensures Feedback([a], "pli") <==> a.RtcpFb? && a.nack == Some("pli")
  {
    OfOne(a, IsTarget);
    OfOne(a, IsFmtp);
    OfOne(a, IsApt);
    OfOne(a, IsTime);
    assert [a][0] == a;
  }

  lemma {:induction false} AttrFitsIff(st: State, k: Kind, m: Media, a: Attr)
    requires |m.payloadTypes| == 1 && StreamAt(st, k).pt == m.payloadTypes[0]
    ensures AttrLine(st, k, m, a).Some? <==> AttrFits(k, m, a)
  {
  }

  lemma {:induction false} AttrOthersSame(st: State, k: Kind, m: Media, a: Attr)
    requires AttrLine(st, k, m, a).Some?
    ensures OthersSame(st, AttrLine(st, k, m, a).value, k)
  {
  }

  lemma {:induction false} AttrStreamRead(st: State, k: Kind, m: Media, a: Attr)
    requires |m.payloadTypes| == 1 && AttrFits(k, m, a) && AttrLine(st, k, m, a).Some?
    ensures StreamRead(StreamAt(st, k), StreamAt(AttrLine(st, k, m, a).value, k), k, [a])
  {
    StreamValuesOfOne(a, StreamAt(st, k));
  }

  lemma {:induction false} AttrRestRead(st: State, k: Kind, m: Media, a: Attr)
    requires |m.payloadTypes| == 1 && AttrFits(k, m, a) && AttrLine(st, k, m, a).Some?
    ensures RestRead(st, AttrLine(st, k, m, a).value, k, m, [a])
  {
    if a.Fmtp? {
      FmtpRestRead(st, k, m, a);
    } else {
      StreamValuesOfOne(a, StreamAt(st, k));
      OtherValuesOfOne(a, st);
    }
  }

  lemma {:induction false} FmtpRestRead(st: State, k: Kind, m: Media, a: Attr)
    requires |m.payloadTypes| == 1 && a.Fmtp? && AttrFits(k, m, a) && FmtpLine(st, k, m, a).Some?
    ensures RestRead(st, FmtpLine(st, k, m, a).value, k, m, [a])
  {
    StreamValuesOfOne(a, StreamAt(st, k));
    OtherValuesOfOne(a, st);
  }

  lemma {:induction false} AttrLineIs(st: State, k: Kind, m: Media, a: Attr)
    requires |m.payloadTypes| == 1 && StreamAt(st, k).pt == m.payloadTypes[0]
    ensures AttrLine(st, k, m, a).Some? <==> AttrFits(k, m, a)
    ensures AttrFits(k, m, a) ==> AttrsRead(st, AttrLine(st, k, m, a).value, k, m, [a])
  {
    AttrFitsIff(st, k, m, a);
    if AttrFits(k, m, a) {
      AttrOthersSame(st, k, m, a);
      AttrStreamRead(st, k, m, a);
      AttrRestRead(st, k, m, a);
    }
  }

  lemma {:induction false} FeedbackOfAppend(a: seq<Attr>, b: seq<Attr>, kind: string)
    ensures Feedback(a + b, kind) <==> Feedback(a, kind) || Feedback(b, kind)
  {
    var t := a + b;
    if i :| 0 <= i < |a| && a[i].RtcpFb? && a[i].nack == Some(kind) {
      assert t[i] == a[i];
    }
    if i :| 0 <= i < |b| && b[i].RtcpFb? && b[i].nack == Some(kind) {
      assert t[|a| + i] == b[i];
    }
  }

  /** Reading on after some lines is reading all of them. */
  lemma {:induction false} StreamValuesAppend(a: seq<Attr>, b: seq<Attr>, s: Status, id: string, port: nat, t: AddrText)
    ensures StatusFrom(a + b, s) == StatusFrom(b, StatusFrom(a, s))
    ensures MidFrom(a + b, id) == MidFrom(b, MidFrom(a, id))
    ensures RtcpFrom(a + b, port) == RtcpFrom(b, RtcpFrom(a, port))
    ensures SourceFrom(a + b, t) == SourceFrom(b, SourceFrom(a, t))
  {
    LastOfAppend(a, b, IsDirection);
    LastOfAppend(a, b, IsMid);
    LastOfAppend(a, b, IsRtcp);
    LastOfAppend(a, b, IsFilter);
  }

  lemma {:induction false} OtherValuesAppend(a: seq<Attr>, b: seq<Attr>, t: AddrText, apt: nat, time: nat)
    ensures TargetFrom(a + b, t) == TargetFrom(b, TargetFrom(a, t))
    ensures AptFrom(a + b, apt) == AptFrom(b, AptFrom(a, apt))
    ensures TimeFrom(a + b, time) == TimeFrom(b, TimeFrom(a, time))
    ensures Last(a + b, IsFmtp).Some? <==> Last(a, IsFmtp).Some? || Last(b, IsFmtp).Some?
  {
    LastOfAppend(a, b, IsTarget);
    LastOfAppend(a, b, IsApt);
    LastOfAppend(a, b, IsTime);
    LastOfAppend(a, b, IsFmtp);
  }

  lemma {:induction false} StreamReadAppend(s: Stream, s1: Stream, s2: Stream, k: Kind, a: seq<Attr>, b: seq<Attr>)
    requires StreamRead(s, s1, k, a) && StreamRead(s1, s2, k, b)
    ensures StreamRead(s, s2, k, a + b)
  {
    StreamValuesAppend(a, b, s.status, s.mid, s.rtcpPort, Some(s.srcAddr));
  }

  lemma {:induction false} RestReadAppend(
    st: State, st1: State, st2: State, k: Kind, m: Media, a: seq<Attr>, b: seq<Attr>)
    requires RestRead(st, st1, k, m, a) && RestRead(st1, st2, k, m, b)
    ensures RestRead(st, st2, k, m, a + b)
  {
    OtherValuesAppend(a, b, Some(st.fbt), st.apt, st.time);
    StreamValuesAppend(a, b, Inactive, "", 0, st.reFilter);
    FeedbackOfAppend(a, b, "");
    FeedbackOfAppend(a, b, "pli");
  }

  ghost predicate AllFit(k: Kind, m: Media, attrs: seq<Attr>)
    requires |m.payloadTypes| == 1
  {
    forall i :: 0 <= i < |attrs| ==> AttrFits(k, m, attrs[i])
  }

  /** Attribute lines can be read exactly when each fits its section; the last one of each kind counts. */
  lemma {:induction false} AttrLinesAre(st: State, k: Kind, m: Media, attrs: seq<Attr>)
    requires |m.payloadTypes| == 1 && StreamAt(st, k).pt == m.payloadTypes[0]
    ensures AttrLines(st, k, m, attrs).Some? <==> AllFit(k, m, attrs)
    ensures AllFit(k, m, attrs) ==> AttrsRead(st, AttrLines(st, k, m, attrs).value, k, m, attrs)
    decreases |attrs|
  {
    if attrs != [] {
      var a, rest := attrs[0], attrs[1..];
      assert attrs == [a] + rest;
      AttrLineIs(st, k, m, a);
      assert AllFit(k, m, attrs) <==> AttrFits(k, m, a) && AllFit(k, m, rest);
      if AttrFits(k, m, a) {
        var st1 := AttrLine(st, k, m, a).value;
        AttrLinesAre(st1, k, m, rest);
        if AllFit(k, m, rest) {
          AttrsReadAppend(st, st1, AttrLines(st1, k, m, rest).value, k, m, [a], rest);
        }
      }
    }
  }

  lemma {:induction false} AttrsReadAppend(
    st: State, st1: State, st2: State, k: Kind, m: Media, a: seq<Attr>, b: seq<Attr>)
    requires AttrsRead(st, st1, k, m, a) && AttrsRead(st1, st2, k, m, b)
    ensures AttrsRead(st, st2, k, m, a + b)
  {
    StreamReadAppend(StreamAt(st, k), StreamAt(st1, k), StreamAt(st2, k), k, a, b);
    RestReadAppend(st, st1, st2, k, m, a, b);
  }

  // ----- bandwidths -----

  predicate IsAs(b: Bandwidth) { b.modifier == AS }
  predicate IsRs(b: Bandwidth) { b.modifier == RS }
  predicate IsRr(b: Bandwidth) { b.modifier == RR }

  function RateFrom(bws: seq<Bandwidth>, rate: nat): nat {
    match Last(bws, IsAs) case None => rate case Some(b) => b.value * 1000
  }

  function SndrFrom(bws: seq<Bandwidth>, bw: nat): nat {
    match Last(bws, IsRs) case None => bw case Some(b) => b.value
  }

  function RcvrFrom(bws: seq<Bandwidth>, bw: nat): nat {
    match Last(bws, IsRr) case None => bw case Some(b) => b.value
  }

  /** Only an original section may have a bit rate. */
  predicate BwFits(k: Kind, b: Bandwidth) {
    b.value <= MAX_BW && (b.modifier == AS ==> k == OrigKind && BitRateOk(b.value))
  }

  ghost predicate BwsFit(k: Kind, bws: seq<Bandwidth>) { forall i :: 0 <= i < |bws| ==> BwFits(k, bws[i]) }

  function BwsRead(st: State, k: Kind, bws: seq<Bandwidth>): State {
    var s := StreamAt(st, k);
    WithStream(st, k, s.(sndrBw := SndrFrom(bws, s.sndrBw), rcvrBw := RcvrFrom(bws, s.rcvrBw))).(
      bitRate := RateFrom(bws, st.bitRate))
  }

  lemma {:induction false} BandwidthLineIs(st: State, k: Kind, b: Bandwidth)
    ensures BandwidthLine(st, k, b) == if BwFits(k, b) then Some(BwsRead(st, k, [b])) else None
  {
    OfOne(b, IsAs);
    OfOne(b, IsRs);
    OfOne(b, IsRr);
  }

  lemma {:induction false} BwsReadAppend(st: State, k: Kind, a: seq<Bandwidth>, b: seq<Bandwidth>)
    ensures BwsRead(BwsRead(st, k, a), k, b) == BwsRead(st, k, a + b)
  {
    LastOfAppend(a, b, IsAs);
    LastOfAppend(a, b, IsRs);
    LastOfAppend(a, b, IsRr);
  }

  lemma {:induction false} BandwidthLinesAre(st: State, k: Kind, bws: seq<Bandwidth>)
    ensures BandwidthLines(st, k, bws) == if BwsFit(k, bws) then Some(BwsRead(st, k, bws)) else None
    decreases |bws|
  {
    if bws != [] {
      var b, rest := bws[0], bws[1..];
      assert bws == [b] + rest;
      BandwidthLineIs(st, k, b);
      BandwidthLinesAre(BwsRead(st, k, [b]), k, rest);
      BwsReadAppend(st, k, [b], rest);
      assert BwsFit(k, bws) <==> BwFits(k, b) && BwsFit(k, rest);
    }
  }

  // ----- a section -----

  /** The m= and c= lines fit. */
  predicate MediaFits(k: Kind, m: Media) {
    && |m.payloadTypes| == 1 && PayloadTypeOk(m.payloadTypes[0]) && PortOk(m.port) && IsAddress(m.conn.addr)
    && if k == RtxKind then IsHost(m.conn.addr) else IsMulticast(m.conn)
  }

  /** Every line of the section fits its kind. */
  ghost predicate Readable(k: Kind, m: Media) {
    && (k == OrigKind ==> m.bandwidths != [])
    && BwsFit(k, m.bandwidths) && MediaFits(k, m) && AllFit(k, m, m.attrs)
  }

  /** The stream after its section: address, port, payload type and id are the section's own. */
  predicate StreamIs(s: Stream, s': Stream, k: Kind, m: Media) {
    && Some(s'.addr) == m.conn.addr && s'.rtpPort == m.port && m.payloadTypes == [s'.pt]
    && s'.mid == MidFrom(m.attrs, "")
    && s'.sndrBw == SndrFrom(m.bandwidths, s.sndrBw) && s'.rcvrBw == RcvrFrom(m.bandwidths, s.rcvrBw)
    && s'.status == StatusFrom(m.attrs, s.status) && s'.rtcpPort == RtcpFrom(m.attrs, s.rtcpPort)
    && Some(s'.srcAddr) ==
       if k == ReKind || k == RtxKind then Some(s.srcAddr) else SourceFrom(m.attrs, Some(s.srcAddr))
  }

  predicate RestIs(st: State, st': State, k: Kind, m: Media) {
    var proto := if k != OrigKind then st.proto else if m.transport == Udp then UdpStream else RtpStream;
    RestRead(st.(proto := proto, bitRate := RateFrom(m.bandwidths, st.bitRate)), st', k, m, m.attrs)
  }

  ghost predicate SectionIs(st: State, st': State, k: Kind, m: Media) {
    StreamIs(StreamAt(st, k), StreamAt(st', k), k, m) && OthersSame(st, st', k) && RestIs(st, st', k, m)
  }

  lemma {:induction false} MediaLineIs(st: State, k: Kind, m: Media)
    ensures MediaLine(st, k, m).Some? <==> MediaFits(k, m)
    ensures MediaFits(k, m) ==>
            MediaLine(st, k, m) == Some(WithStream(st, k, StreamAt(st, k).(
              addr := m.conn.addr.value, rtpPort := m.port, pt := m.payloadTypes[0], mid := "")))
  {
  }

  function WithProto(st: State, k: Kind, m: Media): State {
    if k == OrigKind then st.(proto := if m.transport == Udp then UdpStream else RtpStream) else st
  }

  /** The state after the bandwidths and the m= and c= lines. */
  function MediaRead(st: State, k: Kind, m: Media): State
    requires MediaFits(k, m)
  {
    var st2 := BwsRead(WithProto(st, k, m), k, m.bandwidths);
    WithStream(st2, k, StreamAt(st2, k).(
      addr := m.conn.addr.value, rtpPort := m.port, pt := m.payloadTypes[0], mid := ""))
  }

  lemma {:induction false} MediaThenAttrs(st: State, st': State, k: Kind, m: Media)
    requires MediaFits(k, m) && AttrsRead(MediaRead(st, k, m), st', k, m, m.attrs)
    ensures SectionIs(st, st', k, m)
  {
  }

  lemma {:induction false} ReadLinesSteps(st: State, k: Kind, m: Media)
    ensures ReadLines(st, k, m) ==
            if (k == OrigKind && m.bandwidths == []) || !BwsFit(k, m.bandwidths) || !MediaFits(k, m) then None
            else AttrLines(MediaRead(st, k, m), k, m, m.attrs)
  {
    BandwidthLinesAre(WithProto(st, k, m), k, m.bandwidths);
    MediaLineIs(BwsRead(WithProto(st, k, m), k, m.bandwidths), k, m);
  }

  /** A section can be read exactly when every line of it fits; then it leaves these values. */
  lemma {:induction false} ReadLinesAre(st: State, k: Kind, m: Media)
    ensures ReadLines(st, k, m).Some? <==> Readable(k, m)
    ensures Readable(k, m) ==> SectionIs(st, ReadLines(st, k, m).value, k, m)
  {
    ReadLinesSteps(st, k, m);
    if MediaFits(k, m) {
      AttrLinesAre(MediaRead(st, k, m), k, m, m.attrs);
      if Readable(k, m) {
        MediaThenAttrs(st, ReadLines(st, k, m).value, k, m);
      }
    }
  }
}
