/**
 Printing a channel as a description (cfg_db_create_SDP in cfg/cfg_database.c, whose templates are in
 cfg/cfg_database.h) and reading it back with the validation.
 */
module SdpPrinter {
  import opened Options
  import opened ChannelMap
  import opened Channels
  import opened SdpDescription
  import opened SdpValidation
  import opened SdpSound
  import SdpHandle

  // ----- printing -----

  function Opt<T>(b: bool, x: T): seq<T> { if b then [x] else [] }

  function Direction(s: Status): Attr {
    match s case SendOnly => SendOnlyAttr case RecvOnly => RecvOnlyAttr case Inactive => InactiveAttr
  }

  /** The status of the original, the re-sourced and the retransmission stream. */
  function Statuses(role: Role, mode: Mode): (Status, Status, Status) {
    match (role, mode)
    case (SsmDs, _) => (SendOnly, Inactive, Inactive)
    case (Vam, SourceMode) => (RecvOnly, SendOnly, SendOnly)
    case (Vam, LookasideMode) => (RecvOnly, Inactive, SendOnly)
    case (Stb, SourceMode) => (Inactive, RecvOnly, RecvOnly)
    case (Stb, LookasideMode) => (RecvOnly, Inactive, RecvOnly)
    case (Stb, RecvOnlyMode) => (RecvOnly, Inactive, Inactive)
    case _ => (Inactive, Inactive, Inactive)
  }

  function BwLines(sndr: nat, rcvr: nat): seq<Bandwidth> {
    Opt(sndr != BW_UNSPECIFIED, Bandwidth(RS, sndr)) + Opt(rcvr != BW_UNSPECIFIED, Bandwidth(RR, rcvr))
  }

  /** The a=rtcp line of a stream with the feedback target, and the kinds of repair as a=rtcp-fb lines. */
  function Control(c: ChannelCfg, rtcpPort: Port, pt: nat): seq<Attr> {
    [Rtcp(rtcpPort, Target(Some(c.fbtAddr)))]
    + (Opt(c.erEnable, RtcpFb(pt, Some(""))) + Opt(c.fccEnable, RtcpFb(pt, Some("pli"))))
  }

  function OrigControl(c: ChannelCfg): seq<Attr> {
    match c.mode
    case SourceMode => Opt(c.role == SsmDs, Rtcp(c.orig.rtcpPort, NoTarget))
    case LookasideMode => Control(c, c.orig.rtcpPort, c.orig.payloadType)
    case _ =>
      [Rtcp(c.orig.rtcpPort, if c.fbtAddr == 0 then NoTarget else Target(Some(c.fbtAddr)))]
  }

  function Filter(dest: Addr, src: Addr): Attr { SourceFilter(true, Some(dest), [Some(src)]) }

  function OrigMedia(c: ChannelCfg): Media {
    var o := c.orig;
    Media(true,
          if o.proto == UdpStream then Udp else if c.mode == LookasideMode then RtpAvpf else RtpAvp,
          o.port, [o.payloadType], Connection(Some(o.addr), false),
          [Bandwidth(AS, o.bitRate / 1000)] + BwLines(o.sndrBw, o.rcvrBw), OrigAttrs(c))
  }

  function OrigAttrs(c: ChannelCfg): seq<Attr> {
    var o := c.orig;
    Opt(o.perRcvrBw != BW_UNSPECIFIED, Fmtp(o.payloadType, false, 0, 0, o.perRcvrBw))
    + ([Direction(Statuses(c.role, c.mode).0)]
       + ([Filter(o.addr, o.srcAddr)]
          + ([RtpMap(o.payloadType, EncMp2t, 90000)]
             + (OrigControl(c) + [Mid("1")]))))
  }

  function ReMedia(c: ChannelCfg): Media {
    var r := c.reSourced;
    Media(true, RtpAvpf, r.rtpPort, [r.payloadType], Connection(Some(r.addr), false), BwLines(r.sndrBw, r.rcvrBw),
          [Direction(Statuses(c.role, c.mode).1)]
          + ([Filter(r.addr, c.fbtAddr)] + ([RtpMap(r.payloadType, EncMp2t, 90000)] + ReTail(c))))
  }

  function ReTail(c: ChannelCfg): seq<Attr> {
    (if c.mode == SourceMode && c.role != SsmDs then Control(c, c.reSourced.rtcpPort, c.reSourced.payloadType) else [])
    + [Mid("2")]
  }

  /** The retransmission stream is printed with the address of the feedback target. */
  function RtxMedia(c: ChannelCfg): Media {
    var x := c.rtx;
    Media(true, RtpAvpf, x.rtpPort, [x.payloadType], Connection(Some(c.fbtAddr), false), BwLines(x.sndrBw, x.rcvrBw),
          RtxAttrs(x, Statuses(c.role, c.mode).2))
  }

  function RtxAttrs(x: Rtx, status: Status): seq<Attr> {
    [Direction(status)] + ([RtpMap(x.payloadType, EncRtx, 90000)] + ([Rtcp(x.rtcpPort, NoTarget)] + RtxTail(x)))
  }

  function RtxTail(x: Rtx): seq<Attr> {
    [Fmtp(x.payloadType, true, x.apt, 0, BW_UNSPECIFIED)]
    + ([Fmtp(x.payloadType, true, 0, x.time, BW_UNSPECIFIED)] + [Mid("3")])
  }

  function FecMedia(f: FecStream, status: Status, encoding: Encoding, mid: string, bw: nat): Media {
    Media(true, RtpAvp, f.rtpPort, [f.payloadType], Connection(Some(f.addr), false),
          BwLines(bw, bw),
          [Direction(status)]
          + ([Filter(f.addr, f.srcAddr)]
             + ([RtpMap(f.payloadType, encoding, 90000)]
                + ([Rtcp(f.rtcpPort, NoTarget)] + [Mid(mid)]))))
  }

  /** Only an STB prints its FEC streams as received. */
  function FecStatus(c: ChannelCfg): Status { if c.role == Stb then RecvOnly else SendOnly }

  /** The bandwidths of FEC streams are printed as zero. */
  function FecSections(c: ChannelCfg): seq<Media> {
    var status := FecStatus(c);
    if !c.fecEnable then []
    else if c.fecMode == Fec1D then
      [FecMedia(c.fec1, status, EncParity, "4", 0), FecMedia(c.fec2, Inactive, Enc2dParity, "5", 0)]
    else
      [FecMedia(c.fec1, status, Enc2dParity, "4", 0), FecMedia(c.fec2, status, Enc2dParity, "5", 0)]
  }

  function GroupLines(c: ChannelCfg): seq<Group> {
    (match c.mode
     case SourceMode => Opt(c.role != SsmDs, Group(Fid, ["2", "3"]))
     case LookasideMode => Opt(c.role != SsmDs, Group(Fid, ["1", "3"]))
     case _ => [])
    + (match c.mode
       case SourceMode => Opt(c.fecEnable, Group(Fec, if c.fecMode == Fec1D then ["2", "4"] else ["2", "4", "5"]))
       case LookasideMode | RecvOnlyMode =>
         Opt(c.fecEnable, Group(Fec, if c.fecMode == Fec1D then ["1", "4"] else ["1", "4", "5"]))
       case _ => [])
  }

  /** cfg_db_create_SDP. */
  function Print(c: ChannelCfg): Description {
    var o := SdpHandle.OriginOf(c.sessionKey);
    Description(o.username, o.sessionId, SdpHandle.Decimal(c.version), o.creator, true, c.name, "0", "0",
                GroupLines(c), Rsi, [OrigMedia(c), ReMedia(c), RtxMedia(c)] + FecSections(c))
  }

  // ----- reading folds one line at a time -----

  lemma {:induction false} AttrsCons(st: State, k: Kind, m: Media, x: Attr, rest: seq<Attr>)
    ensures AttrLines(st, k, m, [x] + rest) ==
            var r := AttrLine(st, k, m, x); if r.None? then None else AttrLines(r.value, k, m, rest)
  {
    assert ([x] + rest)[0] == x && ([x] + rest)[1..] == rest;
  }

  lemma {:induction false} AttrsOpt(st: State, k: Kind, m: Media, b: bool, x: Attr, rest: seq<Attr>)
    ensures AttrLines(st, k, m, Opt(b, x) + rest) ==
            var r := if b then AttrLine(st, k, m, x) else Some(st);
            if r.None? then None else AttrLines(r.value, k, m, rest)
  {
    AttrsCons(st, k, m, x, rest);
    assert [] + rest == rest;
  }

  lemma {:induction false} BwCons(st: State, k: Kind, x: Bandwidth, rest: seq<Bandwidth>)
    ensures BandwidthLines(st, k, [x] + rest) ==
            var r := BandwidthLine(st, k, x); if r.None? then None else BandwidthLines(r.value, k, rest)
  {
    assert ([x] + rest)[0] == x && ([x] + rest)[1..] == rest;
  }

  /** Bandwidths that a channel may have are printed if specified, and read back. */
  lemma {:induction false} BwLinesRead(st: State, k: Kind, sndr: nat, rcvr: nat)
    requires BwOk(sndr) && BwOk(rcvr)
    requires StreamAt(st, k).sndrBw == BW_UNSPECIFIED && StreamAt(st, k).rcvrBw == BW_UNSPECIFIED
    ensures BandwidthLines(st, k, BwLines(sndr, rcvr)) ==
            Some(WithStream(st, k, StreamAt(st, k).(sndrBw := sndr, rcvrBw := rcvr)))
  {
    var rs, rr := Bandwidth(RS, sndr), Bandwidth(RR, rcvr);
    var st1 := if sndr != BW_UNSPECIFIED then BandwidthLine(st, k, rs).value else st;
    assert st1 == WithStream(st, k, StreamAt(st, k).(sndrBw := sndr));
    BwCons(st, k, rs, Opt(rcvr != BW_UNSPECIFIED, rr));
    BwCons(st1, k, rr, []);
    assert [rr] + [] == [rr];
    assert [] + Opt(rcvr != BW_UNSPECIFIED, rr) == Opt(rcvr != BW_UNSPECIFIED, rr);
  }

  // ----- reading a printed channel -----

  /** The channels the round trip is about: those that validation accepts outside source mode. */
  predicate Plain(c: ChannelCfg) { Sound(c) && c.mode != SourceMode }

  /** The original section is printed as active. */
  predicate Shown(c: ChannelCfg) { Sound(c) && (c.mode != SourceMode || c.role == Vam) }

  function OrigBase(c: ChannelCfg): Stream {
    var o := c.orig;
    Blank(DEFAULT_MULTICAST, 0).(
      addr := o.addr, rtpPort := o.port, pt := o.payloadType, sndrBw := o.sndrBw, rcvrBw := o.rcvrBw)
  }

  /** After the bandwidths and the m= and c= lines of the original section. */
  function OrigOpened(c: ChannelCfg): State {
    START.(orig := OrigBase(c), proto := c.orig.proto, bitRate := c.orig.bitRate)
  }

  /** After the whole original section. */
  function AfterOrig(c: ChannelCfg): State {
    OrigOpened(c).(
      orig := OrigBase(c).(status := Statuses(c.role, c.mode).0, mid := "1", srcAddr := c.orig.srcAddr,
                           rtcpPort := c.orig.rtcpPort),
      perRcvrBw := c.orig.perRcvrBw, fbt := c.fbtAddr, er := c.erEnable, fcc := c.fccEnable)
  }

  lemma {:induction false} RtpMapSkip(b: bool, x: Attr, rest: seq<Attr>)
    requires !x.RtpMap?
    ensures FirstRtpMap(Opt(b, x) + rest) == FirstRtpMap(rest)
  {
    assert b ==> ([x] + rest)[1..] == rest;
    assert [] + rest == rest;
  }

  lemma {:induction false} RtpMapFirst(x: Attr, rest: seq<Attr>)
    requires x.RtpMap?
    ensures FirstRtpMap([x] + rest) == Some(x)
  {
  }

  /** The printed original section is active and is taken for one. */
  lemma {:induction false} OrigIsOriginal(c: ChannelCfg, st: State)
    requires Shown(c)
    ensures Active(OrigMedia(c)) && KindOf(st, OrigMedia(c)) == Some(OrigKind)
  {
    var o, m, dir := c.orig, OrigMedia(c), Direction(Statuses(c.role, c.mode).0);
    var f, map_ := Fmtp(o.payloadType, false, 0, 0, o.perRcvrBw), RtpMap(o.payloadType, EncMp2t, 90000);
    var t3 := [map_] + (OrigControl(c) + [Mid("1")]);
    var t2 := [Filter(o.addr, o.srcAddr)] + t3;
    var t1 := [dir] + t2;
    RtpMapSkip(o.perRcvrBw != BW_UNSPECIFIED, f, t1);
    RtpMapSkip(true, dir, t2);
    RtpMapSkip(true, Filter(o.addr, o.srcAddr), t3);
    RtpMapFirst(map_, OrigControl(c) + [Mid("1")]);
    assert m.attrs == Opt(o.perRcvrBw != BW_UNSPECIFIED, f) + t1;
    assert m.attrs[if o.perRcvrBw != BW_UNSPECIFIED then 1 else 0] == dir;
    assert m.bandwidths[0].modifier == AS;
  }

  /** The state in which the lines of the original section are read; over UDP address, port and rate are known. */
  function OrigStart(c: ChannelCfg): State {
    if c.orig.proto == RtpStream then START
    else START.(orig := START.orig.(addr := c.orig.addr, rtpPort := c.orig.port), bitRate := c.orig.bitRate)
  }

  lemma {:induction false} OrigUdp(c: ChannelCfg)
    requires Shown(c)
    ensures UdpOriginal(START, OrigMedia(c)) ==
            if c.orig.proto == UdpStream && c.orig.bitRate == 0 then None else Some(OrigStart(c))
  {
    assert OrigMedia(c).bandwidths[0] == Bandwidth(AS, c.orig.bitRate / 1000);
  }

  lemma {:induction false} OrigBandwidths(c: ChannelCfg)
    requires Shown(c)
    ensures var st := OrigStart(c).(proto := c.orig.proto);
            var r := BandwidthLines(st, OrigKind, OrigMedia(c).bandwidths);
            && (c.orig.bitRate == 0 ==> r == None)
            && (c.orig.bitRate != 0 ==> r.Some? && MediaLine(r.value, OrigKind, OrigMedia(c)) == Some(OrigOpened(c)))
  {
    var o := c.orig;
    var st := OrigStart(c).(proto := c.orig.proto);
    BwCons(st, OrigKind, Bandwidth(AS, o.bitRate / 1000), BwLines(o.sndrBw, o.rcvrBw));
    if o.bitRate != 0 {
      BwLinesRead(st.(bitRate := o.bitRate), OrigKind, o.sndrBw, o.rcvrBw);
    }
  }

  lemma {:induction false} OrigControlRead(c: ChannelCfg, m: Media, st: State)
    requires Plain(c) && st.fbt == 0 && !st.er && !st.fcc && st.orig.pt == c.orig.payloadType
    ensures AttrLines(st, OrigKind, m, OrigControl(c) + [Mid("1")]) ==
            if c.orig.rtcpPort == 0 then None
            else Some(st.(orig := st.orig.(rtcpPort := c.orig.rtcpPort, mid := "1"), fbt := c.fbtAddr,
                          er := c.erEnable, fcc := c.fccEnable))
  {
    var st1 := st.(orig := st.orig.(rtcpPort := c.orig.rtcpPort), fbt := c.fbtAddr);
    if c.mode == LookasideMode {
      ControlRead(c, m, st);
    } else {
      AttrsCons(st, OrigKind, m, OrigControl(c)[0], [Mid("1")]);
      MidRead(st1, OrigKind, m, "1");
    }
  }

  lemma {:induction false} ControlRead(c: ChannelCfg, m: Media, st: State)
    requires Plain(c) && c.mode == LookasideMode && !st.er && !st.fcc && st.orig.pt == c.orig.payloadType
    ensures AttrLines(st, OrigKind, m, Control(c, c.orig.rtcpPort, c.orig.payloadType) + [Mid("1")]) ==
            if c.orig.rtcpPort == 0 then None
            else Some(st.(orig := st.orig.(rtcpPort := c.orig.rtcpPort, mid := "1"), fbt := c.fbtAddr,
                          er := c.erEnable, fcc := c.fccEnable))
  {
    var pt, rtcp := c.orig.payloadType, Rtcp(c.orig.rtcpPort, Target(Some(c.fbtAddr)));
    var t := Opt(c.erEnable, RtcpFb(pt, Some(""))) + (Opt(c.fccEnable, RtcpFb(pt, Some("pli"))) + [Mid("1")]);
    assert Control(c, c.orig.rtcpPort, pt) + [Mid("1")] == [rtcp] + t;
    AttrsCons(st, OrigKind, m, rtcp, t);
    if c.orig.rtcpPort != 0 {
      var st1 := st.(orig := st.orig.(rtcpPort := c.orig.rtcpPort), fbt := c.fbtAddr);
      FeedbackRead(st1, OrigKind, m, pt, c.erEnable, c.fccEnable, "1");
    }
  }

  /** The feedback lines of the stream that is repaired. */
  lemma {:induction false} FeedbackRead(st: State, k: Kind, m: Media, pt: nat, er: bool, fcc: bool, mid: string)
    requires !st.er && !st.fcc && StreamAt(st, k).pt == pt
    ensures var nack, pli := Opt(er, RtcpFb(pt, Some(""))), Opt(fcc, RtcpFb(pt, Some("pli")));
            AttrLines(st, k, m, nack + (pli + [Mid(mid)])) ==
            Some(WithStream(st.(er := er, fcc := fcc), k, StreamAt(st, k).(mid := mid)))
  {
    var nack, pli := RtcpFb(pt, Some("")), RtcpFb(pt, Some("pli"));
    AttrsOpt(st, k, m, er, nack, Opt(fcc, pli) + [Mid(mid)]);
    AttrsOpt(st.(er := er), k, m, fcc, pli, [Mid(mid)]);
    MidRead(st.(er := er, fcc := fcc), k, m, mid);
  }

  lemma {:induction false} MidRead(st: State, k: Kind, m: Media, id: string)
    ensures AttrLines(st, k, m, [Mid(id)]) == Some(WithStream(st, k, StreamAt(st, k).(mid := id)))
  {
    AttrsCons(st, k, m, Mid(id), []);
    assert [Mid(id)] + [] == [Mid(id)];
  }

  lemma {:induction false} OrigAttrsRead(c: ChannelCfg)
    requires Plain(c)
    ensures AttrLines(OrigOpened(c), OrigKind, OrigMedia(c), OrigAttrs(c)) ==
            if c.orig.srcAddr != 0 && c.orig.rtcpPort != 0 then Some(AfterOrig(c)) else None
  {
    OrigHeadRead(c);
    OrigTailRead(c, OrigMedia(c), AfterHead(c));
  }

  /** After the attributes of the original section up to the direction. */
  function AfterHead(c: ChannelCfg): State {
    OrigOpened(c).(orig := OrigBase(c).(status := Statuses(c.role, c.mode).0), perRcvrBw := c.orig.perRcvrBw)
  }

  lemma {:induction false} OrigHeadRead(c: ChannelCfg)
    requires Shown(c)
    ensures AttrLines(OrigOpened(c), OrigKind, OrigMedia(c), OrigAttrs(c)) ==
            AttrLines(AfterHead(c), OrigKind, OrigMedia(c), OrigTail(c))
  {
    var o, m, st, dir := c.orig, OrigMedia(c), OrigOpened(c), Direction(Statuses(c.role, c.mode).0);
    var f := Fmtp(o.payloadType, false, 0, 0, o.perRcvrBw);
    var t1 := [dir] + OrigTail(c);
    FmtpFirst(o.perRcvrBw != BW_UNSPECIFIED, f, t1);
    AttrsOpt(st, OrigKind, m, o.perRcvrBw != BW_UNSPECIFIED, f, t1);
    AttrsCons(st.(perRcvrBw := o.perRcvrBw), OrigKind, m, dir, OrigTail(c));
  }

  /** The attributes of the original section from the source filter on. */
  function OrigTail(c: ChannelCfg): seq<Attr> {
    [Filter(c.orig.addr, c.orig.srcAddr)] + ([RtpMap(c.orig.payloadType, EncMp2t, 90000)] +
                                             (OrigControl(c) + [Mid("1")]))
  }

  lemma {:induction false} OrigTailRead(c: ChannelCfg, m: Media, st: State)
    requires Plain(c) && m.conn == Connection(Some(c.orig.addr), false)
    requires st.fbt == 0 && !st.er && !st.fcc && st.orig.pt == c.orig.payloadType
    ensures AttrLines(st, OrigKind, m, OrigTail(c)) ==
            if c.orig.srcAddr == 0 || c.orig.rtcpPort == 0 then None
            else Some(st.(orig := st.orig.(srcAddr := c.orig.srcAddr, rtcpPort := c.orig.rtcpPort, mid := "1"),
                          fbt := c.fbtAddr, er := c.erEnable, fcc := c.fccEnable))
  {
    var filter, map_ := Filter(c.orig.addr, c.orig.srcAddr), RtpMap(c.orig.payloadType, EncMp2t, 90000);
    var t := OrigControl(c) + [Mid("1")];
    AttrsCons(st, OrigKind, m, filter, [map_] + t);
    if c.orig.srcAddr != 0 {
      var st1 := st.(orig := st.orig.(srcAddr := c.orig.srcAddr));
      AttrsCons(st1, OrigKind, m, map_, t);
      OrigControlRead(c, m, st1);
    }
  }

  lemma {:induction false} FmtpFirst(b: bool, x: Attr, rest: seq<Attr>)
    requires x.Fmtp?
    ensures b ==> FirstFmtp(Opt(b, x) + rest) == Some(x)
  {
  }

  predicate OrigPrintable(o: Original) { o.srcAddr != 0 && o.bitRate != 0 && o.rtcpPort != 0 }

  /** Reading the original section back needs a source filter, a bit rate and an RTCP port. */
  lemma {:induction false} OrigRead(c: ChannelCfg)
    requires Plain(c)
    ensures Section(START, OrigMedia(c)) == if OrigPrintable(c.orig) then Some(AfterOrig(c)) else None
  {
    OrigUdp(c);
    OrigIsOriginal(c, OrigStart(c));
    OrigBandwidths(c);
    OrigAttrsRead(c);
  }

  /** An inactive section that is not over UDP is passed over. */
  lemma {:induction false} InactiveSkipped(st: State, m: Media)
    requires m.transport != Udp
             && forall i :: 0 <= i < |m.attrs| ==> !m.attrs[i].SendOnlyAttr? && !m.attrs[i].RecvOnlyAttr?
    ensures Section(st, m) == Some(st)
  {
  }

  lemma {:induction false} ReSkipped(c: ChannelCfg, st: State)
    requires Plain(c)
    ensures Section(st, ReMedia(c)) == Some(st)
  {
    InactiveSkipped(st, ReMedia(c));
  }

  function RtxBase(c: ChannelCfg): Stream {
    var x := c.rtx;
    Blank(c.fbtAddr, 0).(rtpPort := x.rtpPort, pt := x.payloadType, sndrBw := x.sndrBw, rcvrBw := x.rcvrBw)
  }

  /** After the retransmission section. */
  function WithRtx(c: ChannelCfg, st: State): State {
    st.(rtx := RtxBase(c).(status := Statuses(c.role, c.mode).2, mid := "3", rtcpPort := c.rtx.rtcpPort),
        apt := c.rtx.apt, time := c.rtx.time)
  }

  function AfterRtx(c: ChannelCfg): State {
    if c.mode == LookasideMode then WithRtx(c, AfterOrig(c)) else AfterOrig(c)
  }

  lemma {:induction false} RtxBandwidths(c: ChannelCfg, st: State)
    requires Sound(c) && UsesRtx(c.mode) && st.rtx == START.rtx
    ensures var r := BandwidthLines(st, RtxKind, RtxMedia(c).bandwidths);
            r.Some? && MediaLine(r.value, RtxKind, RtxMedia(c)) == Some(st.(rtx := RtxBase(c)))
  {
    BwLinesRead(st, RtxKind, c.rtx.sndrBw, c.rtx.rcvrBw);
  }

  lemma {:induction false} RtxAttrsRead(st: State, m: Media, x: Rtx, status: Status)
    requires PayloadTypeOk(x.payloadType) && PortOk(x.rtcpPort) && 0 < x.apt < 256
    requires st.rtx.pt == x.payloadType && st.time == 0
    ensures AttrLines(st, RtxKind, m, RtxAttrs(x, status)) ==
            Some(st.(rtx := st.rtx.(status := status, rtcpPort := x.rtcpPort, mid := "3"),
                 apt := x.apt, time := x.time))
  {
    var dir, map_, rtcp := Direction(status), RtpMap(x.payloadType, EncRtx, 90000), Rtcp(x.rtcpPort, NoTarget);
    AttrsCons(st, RtxKind, m, dir, [map_] + ([rtcp] + RtxTail(x)));
    var st1 := st.(rtx := st.rtx.(status := status));
    AttrsCons(st1, RtxKind, m, map_, [rtcp] + RtxTail(x));
    AttrsCons(st1, RtxKind, m, rtcp, RtxTail(x));
    RtxTailRead(st1.(rtx := st1.rtx.(rtcpPort := x.rtcpPort)), m, x);
  }

  lemma {:induction false} RtxTailRead(st: State, m: Media, x: Rtx)
    requires 0 < x.apt < 256 && st.rtx.pt == x.payloadType && st.time == 0
    ensures AttrLines(st, RtxKind, m, RtxTail(x)) == Some(st.(rtx := st.rtx.(mid := "3"), apt := x.apt, time := x.time))
  {
    var apt := Fmtp(x.payloadType, true, x.apt, 0, BW_UNSPECIFIED);
    var time := Fmtp(x.payloadType, true, 0, x.time, BW_UNSPECIFIED);
    AttrsCons(st, RtxKind, m, apt, [time] + [Mid("3")]);
    var st1 := st.(apt := x.apt);
    AttrsCons(st1, RtxKind, m, time, [Mid("3")]);
    MidRead(st1.(time := x.time), RtxKind, m, "3");
  }

  lemma {:induction false} RtxMapFound(c: ChannelCfg, status: Status)
    requires status != Inactive
    ensures FirstRtpMap(RtxAttrs(c.rtx, status)) == Some(RtpMap(c.rtx.payloadType, EncRtx, 90000))
  {
    var map_, t := RtpMap(c.rtx.payloadType, EncRtx, 90000), [Rtcp(c.rtx.rtcpPort, NoTarget)] + RtxTail(c.rtx);
    RtpMapSkip(true, Direction(status), [map_] + t);
    RtpMapFirst(map_, t);
  }

  lemma {:induction false} RtxRead(c: ChannelCfg, st: State)
    requires Sound(c) && UsesRtx(c.mode) && st.rtx == START.rtx && st.time == 0
    ensures Section(st, RtxMedia(c)) == Some(WithRtx(c, st))
  {
    var m, status := RtxMedia(c), Statuses(c.role, c.mode).2;
    assert UdpOriginal(st, m) == Some(st) && Active(m) && KindOf(st, m) == Some(RtxKind) by {
      RtxMapFound(c, status);
      assert m.attrs[0] == Direction(status);
    }
    assert ReadLines(st, RtxKind, m) == Some(WithRtx(c, st)) by {
      RtxBandwidths(c, st);
      RtxAttrsRead(st.(rtx := RtxBase(c)), m, c.rtx, status);
    }
  }

  lemma {:induction false} PlainRtxRead(c: ChannelCfg)
    requires Plain(c)
    ensures Section(AfterOrig(c), RtxMedia(c)) == Some(AfterRtx(c))
  {
    if c.mode == LookasideMode {
      RtxRead(c, AfterOrig(c));
    } else {
      InactiveSkipped(AfterOrig(c), RtxMedia(c));
    }
  }

  // ----- FEC sections -----

  function FecBase(f: FecStream, bw: nat): Stream {
    Blank(f.addr, f.rtpPort).(pt := f.payloadType, sndrBw := bw, rcvrBw := bw)
  }

  function FecAsRead(f: FecStream, status: Status, mid: string, bw: nat): Stream {
    FecBase(f, bw).(status := status, mid := mid, srcAddr := f.srcAddr, rtcpPort := f.rtcpPort)
  }

  predicate FecPrintable(f: FecStream) { f.srcAddr != 0 && f.rtcpPort != 0 }

  lemma {:induction false} WithTwice(st: State, k: Kind, s: Stream, t: Stream)
    ensures WithStream(WithStream(st, k, s), k, t) == WithStream(st, k, t) && StreamAt(WithStream(st, k, s), k) == s
  {
  }

  lemma {:induction false} FecBandwidths(st: State, k: Kind, f: FecStream, m: Media, bw: nat)
    requires FecStreamSound(f) && k != RtxKind && m.port == f.rtpPort && m.payloadTypes == [f.payloadType]
    requires m.conn == Connection(Some(f.addr), false) && bw <= MAX_BW && m.bandwidths == BwLines(bw, bw)
    requires StreamAt(st, k) == Blank(DEFAULT_MULTICAST, 0)
    ensures var r := BandwidthLines(st, k, m.bandwidths);
            r.Some? && MediaLine(r.value, k, m) == Some(WithStream(st, k, FecBase(f, bw)))
  {
    BwLinesRead(st, k, bw, bw);
    var s0 := StreamAt(st, k).(sndrBw := bw, rcvrBw := bw);
    WithTwice(st, k, s0, FecBase(f, bw));
    FecMediaLine(WithStream(st, k, s0), k, f, m, bw);
  }

  lemma {:induction false} FecMediaLine(st: State, k: Kind, f: FecStream, m: Media, bw: nat)
    requires FecStreamSound(f) && k != RtxKind && m.port == f.rtpPort && m.payloadTypes == [f.payloadType]
    requires m.conn == Connection(Some(f.addr), false)
    requires StreamAt(st, k) == Blank(DEFAULT_MULTICAST, 0).(sndrBw := bw, rcvrBw := bw)
    ensures MediaLine(st, k, m) == Some(WithStream(st, k, FecBase(f, bw)))
  {
  }

  lemma {:induction false} FecAttrsRead(st: State, k: Kind, f: FecStream, status: Status, encoding: Encoding,
                                        mid: string, bw: nat)
    requires FecStreamSound(f) && (k == Fec1Kind || k == Fec2Kind) && StreamAt(st, k) == FecBase(f, bw)
    ensures var m := FecMedia(f, status, encoding, mid, bw);
            AttrLines(st, k, m, m.attrs) ==
              if FecPrintable(f) then Some(WithStream(st, k, FecAsRead(f, status, mid, bw))) else None
  {
    var m, filter := FecMedia(f, status, encoding, mid, bw), Filter(f.addr, f.srcAddr);
    var map_, rtcp := RtpMap(f.payloadType, encoding, 90000), Rtcp(f.rtcpPort, NoTarget);
    var t2 := [map_] + ([rtcp] + [Mid(mid)]);
    var t1 := [filter] + t2;
    assert m.attrs == [Direction(status)] + t1;
    var s1 := FecBase(f, bw).(status := status);
    AttrsCons(st, k, m, Direction(status), t1);
    var st1 := WithStream(st, k, s1);
    AttrsCons(st1, k, m, filter, t2);
    if f.srcAddr != 0 {
      var s2 := s1.(srcAddr := f.srcAddr);
      WithTwice(st, k, s1, s2);
      FecTailRead(st, k, m, s2, map_, f.rtcpPort, mid);
    }
  }

  lemma {:induction false} FecTailRead(
    st: State, k: Kind, m: Media, s: Stream, map_: Attr, rtcpPort: Port, mid: string)
    requires (k == Fec1Kind || k == Fec2Kind) && (rtcpPort == 0 || PortOk(rtcpPort))
    requires map_.RtpMap? && map_.pt == s.pt && PayloadTypeOk(s.pt)
    ensures AttrLines(WithStream(st, k, s), k, m, [map_] + ([Rtcp(rtcpPort, NoTarget)] + [Mid(mid)])) ==
            if rtcpPort == 0 then None else Some(WithStream(st, k, s.(rtcpPort := rtcpPort, mid := mid)))
  {
    var st2, rtcp := WithStream(st, k, s), Rtcp(rtcpPort, NoTarget);
    WithTwice(st, k, s, s);
    AttrsCons(st2, k, m, map_, [rtcp] + [Mid(mid)]);
    AttrsCons(st2, k, m, rtcp, [Mid(mid)]);
    if rtcpPort != 0 {
      var s3 := s.(rtcpPort := rtcpPort);
      WithTwice(st, k, s, s3);
      MidRead(WithStream(st, k, s3), k, m, mid);
      WithTwice(st, k, s3, s3.(mid := mid));
    }
  }

  /** Reading an FEC section back needs a source filter and an RTCP port. */
  lemma {:induction false} FecRead(st: State, k: Kind, f: FecStream, status: Status, encoding: Encoding, mid: string,
                                   bw: nat)
    requires status != Inactive && bw <= MAX_BW && FecStreamSound(f) && StreamAt(st, k) == Blank(DEFAULT_MULTICAST, 0)
    requires if k == Fec1Kind then encoding == EncParity || (encoding == Enc2dParity && st.fec1.pt == 0)
             else k == Fec2Kind && encoding == Enc2dParity && st.fec1.pt != 0
    ensures Section(st, FecMedia(f, status, encoding, mid, bw)) ==
            if FecPrintable(f) then Some(WithStream(st, k, FecAsRead(f, status, mid, bw))) else None
  {
    FecKindOf(st, k, f, status, encoding, mid, bw);
    FecBandwidths(st, k, f, FecMedia(f, status, encoding, mid, bw), bw);
    WithTwice(st, k, FecBase(f, bw), FecAsRead(f, status, mid, bw));
    FecAttrsRead(WithStream(st, k, FecBase(f, bw)), k, f, status, encoding, mid, bw);
  }

  lemma {:induction false} FecKindOf(st: State, k: Kind, f: FecStream, status: Status, encoding: Encoding,
                                     mid: string, bw: nat)
    requires status != Inactive && FecStreamSound(f)
    requires if k == Fec1Kind then encoding == EncParity || (encoding == Enc2dParity && st.fec1.pt == 0)
             else k == Fec2Kind && encoding == Enc2dParity && st.fec1.pt != 0
    ensures var m := FecMedia(f, status, encoding, mid, bw); Active(m) && KindOf(st, m) == Some(k)
  {
    var m := FecMedia(f, status, encoding, mid, bw);
    var filter, map_ := Filter(f.addr, f.srcAddr), RtpMap(f.payloadType, encoding, 90000);
    var t3 := [Rtcp(f.rtcpPort, NoTarget)] + [Mid(mid)];
    RtpMapSkip(true, Direction(status), [filter] + ([map_] + t3));
    RtpMapSkip(true, filter, [map_] + t3);
    RtpMapFirst(map_, t3);
    assert m.attrs[0] == Direction(status);
  }

  // ----- all sections -----

  lemma {:induction false} SectionsCons(st: State, m: Media, rest: seq<Media>)
    ensures Sections(st, [m] + rest) == var r := Section(st, m); if r.None? then None else Sections(r.value, rest)
  {
    assert ([m] + rest)[0] == m && ([m] + rest)[1..] == rest;
  }

  predicate FecBack(c: ChannelCfg) {
    c.fecEnable ==> FecPrintable(c.fec1) && (c.fecMode == Fec2D ==> FecPrintable(c.fec2))
  }

  /** Source filters set, bit rate present, RTCP ports on the original stream and the FEC streams in use. */
  predicate PlainPrintable(c: ChannelCfg) { OrigPrintable(c.orig) && FecBack(c) }

  function AfterFec(c: ChannelCfg, st: State): State {
    if !c.fecEnable then st
    else if c.fecMode == Fec1D then st.(fec1 := FecAsRead(c.fec1, FecStatus(c), "4", 0))
    else st.(fec1 := FecAsRead(c.fec1, FecStatus(c), "4", 0), fec2 := FecAsRead(c.fec2, FecStatus(c), "5", 0))
  }

  lemma {:induction false} TwoSections(st: State, m1: Media, m2: Media, ok1: bool, st1: State, ok2: bool, st2: State)
    requires Section(st, m1) == (if ok1 then Some(st1) else None)
             && Section(st1, m2) == (if ok2 then Some(st2) else None)
    ensures Sections(st, [m1, m2]) == if ok1 && ok2 then Some(st2) else None
  {
    SectionsCons(st, m1, [m2]);
    SectionsCons(st1, m2, []);
    assert [m1, m2] == [m1] + [m2] && [m2] == [m2] + [];
  }

  lemma {:induction false} FecOneRead(
    st: State, f1: FecStream, status: Status, encoding: Encoding, mid: string, bw: nat, m2: Media)
    requires status != Inactive && bw <= MAX_BW && FecStreamSound(f1)
    requires st.fec1 == Blank(DEFAULT_MULTICAST, 0) && encoding == EncParity
    requires var st1 := st.(fec1 := FecAsRead(f1, status, mid, bw)); Section(st1, m2) == Some(st1)
    ensures Sections(st, [FecMedia(f1, status, encoding, mid, bw), m2]) ==
            if FecPrintable(f1) then Some(st.(fec1 := FecAsRead(f1, status, mid, bw))) else None
  {
    var st1 := st.(fec1 := FecAsRead(f1, status, mid, bw));
    FecRead(st, Fec1Kind, f1, status, encoding, mid, bw);
    TwoSections(st, FecMedia(f1, status, encoding, mid, bw), m2, FecPrintable(f1), st1, true, st1);
  }

  lemma {:induction false} FecTwoRead(
    st: State, f1: FecStream, f2: FecStream, status: Status, encoding: Encoding, mid1: string, mid2: string, bw: nat)
    requires status != Inactive && bw <= MAX_BW && FecStreamSound(f1) && FecStreamSound(f2) && encoding == Enc2dParity
    requires st.fec1 == Blank(DEFAULT_MULTICAST, 0) && st.fec2 == Blank(DEFAULT_MULTICAST, 0)
    ensures Sections(st, [FecMedia(f1, status, encoding, mid1, bw), FecMedia(f2, status, encoding, mid2, bw)]) ==
            if FecPrintable(f1) && FecPrintable(f2) then
              Some(st.(fec1 := FecAsRead(f1, status, mid1, bw), fec2 := FecAsRead(f2, status, mid2, bw)))
            else None
  {
    var st1 := st.(fec1 := FecAsRead(f1, status, mid1, bw));
    FecRead(st, Fec1Kind, f1, status, encoding, mid1, bw);
    FecRead(st1, Fec2Kind, f2, status, encoding, mid2, bw);
    TwoSections(st, FecMedia(f1, status, encoding, mid1, bw), FecMedia(f2, status, encoding, mid2, bw),
                FecPrintable(f1), st1, FecPrintable(f2), st1.(fec2 := FecAsRead(f2, status, mid2, bw)));
  }

  lemma {:induction false} FecSkipped(f: FecStream, st: State, mid: string, bw: nat)
    ensures Section(st, FecMedia(f, Inactive, Enc2dParity, mid, bw)) == Some(st)
  {
    InactiveSkipped(st, FecMedia(f, Inactive, Enc2dParity, mid, bw));
  }

  lemma {:induction false} FecSectionsRead(c: ChannelCfg, st: State)
    requires FecSound(c)
    requires st.fec1 == Blank(DEFAULT_MULTICAST, 0) && st.fec2 == Blank(DEFAULT_MULTICAST, 0)
    ensures Sections(st, FecSections(c)) == if FecBack(c) then Some(AfterFec(c, st)) else None
  {
    var status := FecStatus(c);
    if c.fecEnable {
      if c.fecMode == Fec2D {
        FecTwoRead(st, c.fec1, c.fec2, status, Enc2dParity, "4", "5", 0);
      } else {
        FecSkipped(c.fec2, st.(fec1 := FecAsRead(c.fec1, status, "4", 0)), "5", 0);
        FecOneRead(st, c.fec1, status, EncParity, "4", 0, FecMedia(c.fec2, Inactive, Enc2dParity, "5", 0));
      }
    }
  }

  lemma {:induction false} ThreeSections(
    st: State, m1: Media, m2: Media, m3: Media, rest: seq<Media>, ok: bool, st1: State, st2: State, st3: State)
    requires Section(st, m1) == (if ok then Some(st1) else None)
    requires Section(st1, m2) == Some(st2) && Section(st2, m3) == Some(st3)
    ensures Sections(st, [m1, m2, m3] + rest) == if ok then Sections(st3, rest) else None
  {
    var t2 := [m3] + rest;
    var t1 := [m2] + t2;
    assert [m1, m2, m3] + rest == [m1] + t1;
    SectionsCons(st, m1, t1);
    SectionsCons(st1, m2, t2);
    SectionsCons(st2, m3, rest);
  }

  lemma {:induction false} SectionsRead(c: ChannelCfg)
    requires Plain(c)
    ensures Sections(START, Print(c).media) == if PlainPrintable(c) then Some(AfterFec(c, AfterRtx(c))) else None
  {
    OrigRead(c);
    ReSkipped(c, AfterOrig(c));
    PlainRtxRead(c);
    ThreeSections(START, OrigMedia(c), ReMedia(c), RtxMedia(c), FecSections(c),
                  OrigPrintable(c.orig), AfterOrig(c), AfterOrig(c), AfterRtx(c));
    FecSectionsRead(c, AfterRtx(c));
  }

  // ----- settling what was read -----

  lemma {:induction false} Labels()
    ensures Label(["1", "3"]) == "1 3 " && Label(["1", "4"]) == "1 4 " && Label(["1", "4", "5"]) == "1 4 5 "
    ensures Substring("1", "1 3 ") && Substring("3", "1 3 ") && Substring("1", "1 4 ") && Substring("4", "1 4 ")
    ensures Substring("1", "1 4 5 ") && Substring("4", "1 4 5 ") && Substring("5", "1 4 5 ")
  {
    assert ["1", "3"][1..] == ["3"] && ["3"][1..] == [] && ["1", "4"][1..] == ["4"] && ["4"][1..] == [];
    assert ["1", "4", "5"][1..] == ["4", "5"] && ["4", "5"][1..] == ["5"] && ["5"][1..] == [];
    assert OccursAt("1", "1 3 ", 0) && OccursAt("3", "1 3 ", 2) && OccursAt("1", "1 4 ", 0) && OccursAt("4", "1 4 ", 2);
    assert OccursAt("1", "1 4 5 ", 0) && OccursAt("4", "1 4 5 ", 2) && OccursAt("5", "1 4 5 ", 4);
  }

  /** FEC is read back as received by an STB only. */
  predicate KeepsFec(c: ChannelCfg) { c.role == Stb && c.fecEnable }

  /** The ids of the streams as they are printed. */
  predicate Mids(st: State, c: ChannelCfg) {
    && st.orig.mid == "1" && (c.mode == LookasideMode ==> st.rtx.mid == "3")
    && (FecOn(st) <==> KeepsFec(c)) && (FecTwo(st) <==> KeepsFec(c) && c.fecMode == Fec2D)
    && (c.fecEnable ==> st.fec1.mid == "4" && (c.fecMode == Fec2D ==> st.fec2.mid == "5"))
  }

  lemma {:induction false} FidRead(c: ChannelCfg, st: State)
    requires c.mode == LookasideMode && Mids(st, c)
    ensures FidOk(st, c.mode, Group(Fid, ["1", "3"]))
  {
    Labels();
  }

  lemma {:induction false} FecGroupRead(c: ChannelCfg, st: State)
    requires (c.mode == LookasideMode || c.mode == RecvOnlyMode) && Mids(st, c) && KeepsFec(c)
    ensures FecGroupOk(st, c.mode, Group(Fec, if c.fecMode == Fec1D then ["1", "4"] else ["1", "4", "5"]))
  {
    Labels();
  }

  lemma {:induction false} GroupsRead(c: ChannelCfg, st: State)
    requires RoleFits(c.role, c.mode) && c.mode != SourceMode && Mids(st, c)
    ensures FecMidsOk(st, c.mode) && GroupsOk(st, c.mode, GroupLines(c))
  {
    var fid, fec := Group(Fid, ["1", "3"]), Group(Fec, if c.fecMode == Fec1D then ["1", "4"] else ["1", "4", "5"]);
    GroupsAre(c, fid, fec);
    if c.mode == LookasideMode {
      FidRead(c, st);
    }
    if KeepsFec(c) {
      FecGroupRead(c, st);
    }
    TwoGroups(st, c.mode, c.mode == LookasideMode, fid, c.fecEnable && c.mode != DistributionMode, fec);
  }

  lemma {:induction false} GroupsAre(c: ChannelCfg, fid: Group, fec: Group)
    requires RoleFits(c.role, c.mode) && c.mode != SourceMode
    requires fid == Group(Fid, ["1", "3"])
             && fec == Group(Fec, if c.fecMode == Fec1D then ["1", "4"] else ["1", "4", "5"])
    ensures GroupLines(c) == Opt(c.mode == LookasideMode, fid) + Opt(c.fecEnable && c.mode != DistributionMode, fec)
  {
  }

  lemma {:induction false} TwoGroups(st: State, mode: Mode, b: bool, fid: Group, e: bool, fec: Group)
    requires fid.kind == Fid && fec.kind == Fec && (UsesRtx(mode) ==> b) && (FecOn(st) ==> e)
    requires (UsesRtx(mode) ==> FidOk(st, mode, fid)) && (FecOn(st) ==> FecGroupOk(st, mode, fec))
    ensures GroupsOk(st, mode, Opt(b, fid) + Opt(e, fec))
  {
    var gs := Opt(b, fid) + Opt(e, fec);
    assert b ==> gs[0] == fid;
    assert e ==> gs[|gs| - 1] == fec;
    assert forall i :: 0 <= i < |gs| ==> (gs[i] == fid && b) || (gs[i] == fec && e);
  }

  // ----- the round trip -----

  /**
   The channel as it comes back: what its mode does not use is not kept, nor is FEC unless the channel is an
   STB's.
   */
  function PlainBack(c: ChannelCfg, chksum: nat): ChannelCfg {
    var st := AfterFec(c, AfterRtx(c));
    c.(active := true, chksum := chksum,
       reSourced := ReSourced(st.re.addr, st.re.rtpPort, 0, 0, BW_UNSPECIFIED, BW_UNSPECIFIED),
       rtx := if c.mode == LookasideMode then c.rtx.(addr := c.fbtAddr)
              else Rtx(st.rtx.addr, st.rtx.rtpPort, 0, 0, 0, 0, BW_UNSPECIFIED, BW_UNSPECIFIED),
       fecEnable := KeepsFec(c), fecMode := if KeepsFec(c) then c.fecMode else Fec1D,
       fec1 := FecOf(st.fec1), fec2 := FecOf(st.fec2))
  }

  lemma {:induction false} MidsRead(c: ChannelCfg)
    ensures Mids(AfterFec(c, AfterRtx(c)), c)
  {
  }

  /** What was read passes the final checks, and gives the channel back. */
  lemma {:induction false} SettlesBack(d: Description, c: ChannelCfg, chksum: nat)
    requires Plain(c) && PlainPrintable(c) && d.groups == GroupLines(c) && d.rtcpUnicast == Rsi && d.stopTime == "0"
    requires NameOf(d) == c.name && SessionKeyOf(d) == c.sessionKey && Number(d.version) == c.version
    ensures Settle(d, AfterFec(c, AfterRtx(c)), chksum) == Some(PlainBack(c, chksum))
  {
    var st := AfterFec(c, AfterRtx(c));
    assert FecMidsOk(st, c.mode) && GroupsOk(st, c.mode, d.groups) by {
      MidsRead(c);
      GroupsRead(c, st);
    }
    RoleBack(c);
    ChecksBack(c);
    PortsBack(d, c, chksum);
    SettledTo(d, st, c.role, c.mode, chksum, Some(PlainBack(c, chksum)));
  }

  lemma {:induction false} RoleBack(c: ChannelCfg)
    requires RoleFits(c.role, c.mode) && c.mode != SourceMode
    ensures RoleAndMode(AfterFec(c, AfterRtx(c))) == Some((c.role, c.mode))
  {
  }

  lemma {:induction false} SettledTo(d: Description, st: State, role: Role, mode: Mode, chksum: nat,
                                     r: Option<ChannelCfg>)
    requires RoleAndMode(st) == Some((role, mode)) && FecMidsOk(st, mode) && GroupsOk(st, mode, d.groups)
    requires d.rtcpUnicast != OtherMode && (role == Vam ==> VamOk(st)) && ModeOk(st, mode)
    requires SettlePorts(d, st, role, mode, chksum) == r
    ensures Settle(d, st, chksum) == r
  {
  }

  lemma {:induction false} PortsBack(d: Description, c: ChannelCfg, chksum: nat)
    requires Plain(c) && PlainPrintable(c) && d.stopTime == "0"
    requires NameOf(d) == c.name && SessionKeyOf(d) == c.sessionKey && Number(d.version) == c.version
    ensures SettlePorts(d, AfterFec(c, AfterRtx(c)), c.role, c.mode, chksum) == Some(PlainBack(c, chksum))
  {
    ChecksBack(c);
    FecChecksBack(c, chksum);
    ChannelBack(d, c, chksum);
  }

  function RtxRtcpBack(c: ChannelCfg): Port { if c.mode == LookasideMode then c.rtx.rtcpPort else 0 }

  lemma {:induction false} ChecksBack(c: ChannelCfg)
    requires Plain(c) && PlainPrintable(c)
    ensures var st := AfterFec(c, AfterRtx(c));
            && (c.role == Vam ==> VamOk(st)) && ModeOk(st, c.mode)
            && OrigRtcpOf(st, c.role, c.mode) == Some(c.orig.rtcpPort) && ReRtcpOf(st, c.mode) == Some(0)
            && RtxRtcpOf(st, c.mode) == Some(RtxRtcpBack(c)) && RtxOk(st, c.mode, c.orig.rtcpPort, RtxRtcpBack(c))
  {
  }

  lemma {:induction false} FecChecksBack(c: ChannelCfg, chksum: nat)
    requires FecSound(c)
    ensures FecOk(PlainBack(c, chksum))
  {
    var r := PlainBack(c, chksum);
    assert KeepsFec(c) ==> SamePorts(c.fec1, r.fec1) && (c.fecMode == Fec2D ==> SamePorts(c.fec2, r.fec2));
  }

  predicate SamePorts(f: FecStream, g: FecStream) {
    f.addr == g.addr && f.rtpPort == g.rtpPort && f.rtcpPort == g.rtcpPort
  }

  lemma {:induction false} ChannelBack(d: Description, c: ChannelCfg, chksum: nat)
    requires RoleFits(c.role, c.mode) && c.mode != SourceMode && !c.used && d.stopTime == "0"
    requires c.erEnable || c.fccEnable ==> c.mode == LookasideMode && !NoReports(c.orig)
    requires NameOf(d) == c.name && SessionKeyOf(d) == c.sessionKey && Number(d.version) == c.version
    ensures ChannelOf(d, AfterFec(c, AfterRtx(c)), c.role, c.mode, c.orig.rtcpPort, 0, RtxRtcpBack(c), chksum)
            == PlainBack(c, chksum)
  {
    MidsRead(c);
  }

  /** Decimal digits are read back. */
  lemma {:induction false} NumberOfDecimal(n: nat)
    ensures Number(SdpHandle.Decimal(n)) == n
  {
    var d := SdpHandle.Decimal(n);
    if n >= 10 {
      NumberOfDecimal(n / 10);
      assert d[..|d| - 1] == SdpHandle.Decimal(n / 10);
    } else {
      assert d[..0] == [];
    }
  }

  lemma {:induction false} VersionDigits(v: nat)
    requires v <= MAX_VERSION
    ensures |SdpHandle.Decimal(v)| < 20
  {
    assert SdpHandle.Pow10(4) == 10_000;
    assert SdpHandle.Pow10(9) == 1_000_000_000;
    assert SdpHandle.Pow10(14) == 100_000_000_000_000;
    assert SdpHandle.Pow10(19) == 10_000_000_000_000_000_000;
    SdpHandle.DecimalLength(v, 19);
  }

  /**
   Printing an accepted channel outside source mode and validating the result gives the channel back as
   PlainBack describes it: with the same session key, version, name, role, mode, original stream, feedback
   target and repair flags, and for an STB with the same FEC. It does so exactly when the source filters are
   set, the bit rate is present and the original stream and the FEC streams in use have RTCP ports;
   otherwise the printed description is rejected.
   */
  lemma {:induction false} PlainRoundTrip(c: ChannelCfg, chksum: nat)
    requires Plain(c) && SdpHandle.WellFormed(c.sessionKey)
    ensures Validate(Print(c), chksum) == if PlainPrintable(c) then Some(PlainBack(c, chksum)) else None
  {
    SessionRead(c);
    SectionsRead(c);
    if PlainPrintable(c) {
      SettlesBack(Print(c), c, chksum);
    }
  }

  lemma {:induction false} SessionRead(c: ChannelCfg)
    requires Sound(c) && SdpHandle.WellFormed(c.sessionKey)
    ensures var d := Print(c);
            SessionOk(d) && NameOf(d) == c.name && SessionKeyOf(d) == c.sessionKey && Number(d.version) == c.version
  {
    NumberOfDecimal(c.version);
    VersionDigits(c.version);
    SdpHandle.HandleOrigin(c.sessionKey, 0);
  }

  /** What comes back is registered under the same keys, unless FEC is lost. */
  lemma {:induction false} PlainKeys(c: ChannelCfg, chksum: nat)
    requires Plain(c)
    ensures Attempted(PlainBack(c, chksum)) ==
            if KeepsFec(c) || !c.fecEnable then Attempted(c) else OrigSlots(c) + FbtSlots(c)
  {
    KeysRead(c, PlainBack(c, chksum));
  }

  lemma {:induction false} KeysRead(c: ChannelCfg, r: ChannelCfg)
    requires r.orig == c.orig && r.fbtAddr == c.fbtAddr && r.mode == c.mode && c.mode != SourceMode
    requires c.mode == LookasideMode ==> r.rtx.rtpPort == c.rtx.rtpPort && r.rtx.rtcpPort == c.rtx.rtcpPort
    requires r.fecEnable == KeepsFec(c) && (KeepsFec(c) ==> r.fecMode == c.fecMode && SamePorts(c.fec1, r.fec1))
    requires KeepsFec(c) && c.fecMode == Fec2D ==> SamePorts(c.fec2, r.fec2)
    ensures Attempted(r) == if KeepsFec(c) || !c.fecEnable then Attempted(c) else OrigSlots(c) + FbtSlots(c)
  {
    assert OrigSlots(r) == OrigSlots(c) && FbtSlots(r) == FbtSlots(c);
    assert FecSlots(r) == if KeepsFec(c) then FecSlots(c) else [];
    assert OrigSlots(c) + FbtSlots(c) + [] == OrigSlots(c) + FbtSlots(c);
  }
}
