/** What a printed description says, section by section, whether or not it is read back. */
module PrintedFields {
  import opened Options
  import opened ChannelMap
  import opened Channels
  import opened SdpDescription
  import opened SdpValidation
  import opened SdpSound
  import opened SdpPrinter
  import opened DescribedSections
  import opened AcceptedChannels

  /** One video section with this address, port and payload type. */
  predicate Shows(m: Media, addr: Addr, port: Port, pt: nat) {
    m.video && m.conn.addr == Some(addr) && m.port == port && m.payloadTypes == [pt]
  }

  function StatusIn(m: Media): Status { StatusFrom(m.attrs, Inactive) }

  function RtcpIn(m: Media): nat { RtcpFrom(m.attrs, 0) }

  lemma {:induction false} ValuesCons(a: Attr, rest: seq<Attr>, s: Status, port: nat)
    ensures StatusFrom([a] + rest, s) ==
            StatusFrom(rest, if a.SendOnlyAttr? then SendOnly
                             else if a.RecvOnlyAttr? then RecvOnly
                             else if a.InactiveAttr? then Inactive
                             else s)
    ensures RtcpFrom([a] + rest, port) == RtcpFrom(rest, if a.Rtcp? then a.port else port)
  {
    StreamValuesAppend([a], rest, s, "", port, None);
    OfOne(a, IsDirection);
    OfOne(a, IsRtcp);
  }

  /** A line without a direction or an RTCP port. */
  lemma {:induction false} SkipLine(b: bool, a: Attr, rest: seq<Attr>, s: Status, port: nat)
    requires !IsDirection(a) && !IsRtcp(a)
    ensures StatusFrom(Opt(b, a) + rest, s) == StatusFrom(rest, s)
    ensures RtcpFrom(Opt(b, a) + rest, port) == RtcpFrom(rest, port)
  {
    if b {
      ValuesCons(a, rest, s, port);
    } else {
      assert Opt(b, a) + rest == rest;
    }
  }

  lemma {:induction false} DirectionFirst(s: Status, rest: seq<Attr>)
    ensures StatusFrom([Direction(s)] + rest, Inactive) == StatusFrom(rest, s)
    ensures RtcpFrom([Direction(s)] + rest, 0) == RtcpFrom(rest, 0)
  {
    ValuesCons(Direction(s), rest, Inactive, 0);
  }

  /** A source filter and an a=rtpmap line. */
  lemma {:induction false} FilterAndMap(dest: Addr, src: Addr, pt: nat, encoding: Encoding, rest: seq<Attr>, s: Status)
    ensures var t := [Filter(dest, src)] + ([RtpMap(pt, encoding, 90000)] + rest);
            StatusFrom(t, s) == StatusFrom(rest, s) && RtcpFrom(t, 0) == RtcpFrom(rest, 0)
  {
    SkipLine(true, Filter(dest, src), [RtpMap(pt, encoding, 90000)] + rest, s, 0);
    SkipLine(true, RtpMap(pt, encoding, 90000), rest, s, 0);
  }

  lemma {:induction false} RtcpFirst(port: Port, rest: seq<Attr>, s: Status)
    requires StatusFrom(rest, s) == s && RtcpFrom(rest, port) == port
    ensures var t := [Rtcp(port, NoTarget)] + rest; StatusFrom(t, s) == s && RtcpFrom(t, 0) == port
  {
    ValuesCons(Rtcp(port, NoTarget), rest, s, 0);
  }

  lemma {:induction false} MidOnly(id: string, s: Status, port: nat)
    ensures StatusFrom([Mid(id)], s) == s && RtcpFrom([Mid(id)], port) == port
  {
    OfOne(Mid(id), IsDirection);
    OfOne(Mid(id), IsRtcp);
  }

  /** The feedback lines and the id at the end of a section. */
  lemma {:induction false} ControlShows(c: ChannelCfg, rtcpPort: Port, pt: nat, id: string, s: Status)
    ensures var t := Control(c, rtcpPort, pt) + [Mid(id)]; StatusFrom(t, s) == s && RtcpFrom(t, 0) == rtcpPort
  {
    var rtcp := Rtcp(rtcpPort, Target(Some(c.fbtAddr)));
    var nack, pli := RtcpFb(pt, Some("")), RtcpFb(pt, Some("pli"));
    var t := Opt(c.erEnable, nack) + (Opt(c.fccEnable, pli) + [Mid(id)]);
    assert Control(c, rtcpPort, pt) + [Mid(id)] == [rtcp] + t;
    ValuesCons(rtcp, t, s, 0);
    SkipLine(c.erEnable, nack, Opt(c.fccEnable, pli) + [Mid(id)], s, rtcpPort);
    SkipLine(c.fccEnable, pli, [Mid(id)], s, rtcpPort);
    MidOnly(id, s, rtcpPort);
  }

  lemma {:induction false} OrigShows(c: ChannelCfg)
    ensures var m := OrigMedia(c);
            && Shows(m, c.orig.addr, c.orig.port, c.orig.payloadType) && StatusIn(m) == Statuses(c.role, c.mode).0
            && RtcpIn(m) == if c.mode == SourceMode && c.role != SsmDs then 0 else c.orig.rtcpPort
  {
    var o, s := c.orig, Statuses(c.role, c.mode).0;
    var f := Fmtp(o.payloadType, false, 0, 0, o.perRcvrBw);
    SkipLine(o.perRcvrBw != BW_UNSPECIFIED, f, [Direction(s)] + OrigTail(c), Inactive, 0);
    DirectionFirst(s, OrigTail(c));
    OrigTailShows(c, s);
  }

  lemma {:induction false} OrigTailShows(c: ChannelCfg, s: Status)
    ensures StatusFrom(OrigTail(c), s) == s
    ensures RtcpFrom(OrigTail(c), 0) == if c.mode == SourceMode && c.role != SsmDs then 0 else c.orig.rtcpPort
  {
    FilterAndMap(c.orig.addr, c.orig.srcAddr, c.orig.payloadType, EncMp2t, OrigControl(c) + [Mid("1")], s);
    OrigControlShows(c, s);
  }

  lemma {:induction false} OrigControlShows(c: ChannelCfg, s: Status)
    ensures var t := OrigControl(c) + [Mid("1")];
            && StatusFrom(t, s) == s
            && RtcpFrom(t, 0) == if c.mode == SourceMode && c.role != SsmDs then 0 else c.orig.rtcpPort
  {
    var port := c.orig.rtcpPort;
    if c.mode == LookasideMode {
      ControlShows(c, port, c.orig.payloadType, "1", s);
    } else if c.mode == SourceMode && c.role != SsmDs {
      assert OrigControl(c) + [Mid("1")] == [Mid("1")];
      MidOnly("1", s, 0);
    } else {
      ValuesCons(OrigControl(c)[0], [Mid("1")], s, 0);
      assert OrigControl(c) == [OrigControl(c)[0]];
      MidOnly("1", s, port);
    }
  }

  lemma {:induction false} ReShows(c: ChannelCfg)
    ensures var m, r := ReMedia(c), c.reSourced;
            && Shows(m, r.addr, r.rtpPort, r.payloadType) && StatusIn(m) == Statuses(c.role, c.mode).1
            && RtcpIn(m) == if c.mode == SourceMode && c.role != SsmDs then r.rtcpPort else 0
  {
    var r, s, t := c.reSourced, Statuses(c.role, c.mode).1, ReTail(c);
    DirectionFirst(s, [Filter(r.addr, c.fbtAddr)] + ([RtpMap(r.payloadType, EncMp2t, 90000)] + t));
    FilterAndMap(r.addr, c.fbtAddr, r.payloadType, EncMp2t, t, s);
    if c.mode == SourceMode && c.role != SsmDs {
      ControlShows(c, r.rtcpPort, r.payloadType, "2", s);
    } else {
      assert t == [Mid("2")];
      MidOnly("2", s, 0);
    }
  }

  /** The retransmission section carries the address of the feedback target. */
  lemma {:induction false} RtxShows(c: ChannelCfg)
    ensures var m, x := RtxMedia(c), c.rtx;
            && Shows(m, c.fbtAddr, x.rtpPort, x.payloadType) && StatusIn(m) == Statuses(c.role, c.mode).2
            && RtcpIn(m) == x.rtcpPort
  {
    var x, s := c.rtx, Statuses(c.role, c.mode).2;
    var map_, rtcp := RtpMap(x.payloadType, EncRtx, 90000), Rtcp(x.rtcpPort, NoTarget);
    DirectionFirst(s, [map_] + ([rtcp] + RtxTail(x)));
    SkipLine(true, map_, [rtcp] + RtxTail(x), s, 0);
    RtxTailShows(x, s);
    RtcpFirst(x.rtcpPort, RtxTail(x), s);
  }

  lemma {:induction false} RtxTailShows(x: Rtx, s: Status)
    ensures StatusFrom(RtxTail(x), s) == s && RtcpFrom(RtxTail(x), x.rtcpPort) == x.rtcpPort
  {
    var apt := Fmtp(x.payloadType, true, x.apt, 0, BW_UNSPECIFIED);
    var time := Fmtp(x.payloadType, true, 0, x.time, BW_UNSPECIFIED);
    SkipLine(true, apt, [time] + [Mid("3")], s, x.rtcpPort);
    SkipLine(true, time, [Mid("3")], s, x.rtcpPort);
    MidOnly("3", s, x.rtcpPort);
  }

  lemma {:induction false} FecShows(f: FecStream, status: Status, encoding: Encoding, mid: string, bw: nat)
    ensures var m := FecMedia(f, status, encoding, mid, bw);
            Shows(m, f.addr, f.rtpPort, f.payloadType) && StatusIn(m) == status && RtcpIn(m) == f.rtcpPort
  {
    var map_, t := RtpMap(f.payloadType, encoding, 90000), [Rtcp(f.rtcpPort, NoTarget)] + [Mid(mid)];
    DirectionFirst(status, [Filter(f.addr, f.srcAddr)] + ([map_] + t));
    FilterAndMap(f.addr, f.srcAddr, f.payloadType, encoding, t, status);
    MidOnly(mid, status, f.rtcpPort);
    RtcpFirst(f.rtcpPort, [Mid(mid)], status);
  }

  /**
   A printed description has a section for each stream with its address, port and payload type, and the
   retransmission stream under the feedback target. Their directions are those of the role and mode, and the
   RTCP ports are there but for the original stream in source mode and the re-sourced one outside it.
   */
  lemma {:induction false} PrintedByField(c: ChannelCfg)
    requires RoleFits(c.role, c.mode)
    ensures var d, ms := Print(c), Print(c).media;
            && d.name == c.name && d.startTime == "0" == d.stopTime && d.internet && Number(d.version) == c.version
            && |ms| == (if c.fecEnable then 5 else 3)
            && Shows(ms[0], c.orig.addr, c.orig.port, c.orig.payloadType)
            && Shows(ms[1], c.reSourced.addr, c.reSourced.rtpPort, c.reSourced.payloadType)
            && Shows(ms[2], c.fbtAddr, c.rtx.rtpPort, c.rtx.payloadType)
            && (StatusIn(ms[0]), StatusIn(ms[1]), StatusIn(ms[2]), c.role, c.mode) in ROLES
            && RtcpIn(ms[0]) == (if c.mode == SourceMode then 0 else c.orig.rtcpPort)
            && RtcpIn(ms[1]) == (if c.mode == SourceMode then c.reSourced.rtcpPort else 0)
            && RtcpIn(ms[2]) == c.rtx.rtcpPort
            && (c.fecEnable ==> FecShown(c, ms[3], ms[4]))
  {
    NumberOfDecimal(c.version);
    MediaIs(c);
    OrigShows(c);
    ReShows(c);
    RtxShows(c);
    StatusesFit(c);
    if c.fecEnable {
      FecSectionsShow(c);
    }
  }

  lemma {:induction false} MediaIs(c: ChannelCfg)
    ensures var ms := Print(c).media;
            && |ms| == 3 + |FecSections(c)| && |FecSections(c)| == (if c.fecEnable then 2 else 0)
            && ms[0] == OrigMedia(c) && ms[1] == ReMedia(c) && ms[2] == RtxMedia(c)
            && (c.fecEnable ==> ms[3] == FecSections(c)[0] && ms[4] == FecSections(c)[1])
  {
  }

  lemma {:induction false} StatusesFit(c: ChannelCfg)
    requires RoleFits(c.role, c.mode)
    ensures var (o, r, x) := Statuses(c.role, c.mode); (o, r, x, c.role, c.mode) in ROLES
    ensures c.role == SsmDs ==> c.mode != SourceMode
  {
  }

  /** Both FEC streams are printed; a second one that is not in use is inactive. */
  predicate FecShown(c: ChannelCfg, m: Media, n: Media) {
    var status := if c.role == Stb then RecvOnly else SendOnly;
    && Shows(m, c.fec1.addr, c.fec1.rtpPort, c.fec1.payloadType) && RtcpIn(m) == c.fec1.rtcpPort
    && Shows(n, c.fec2.addr, c.fec2.rtpPort, c.fec2.payloadType) && RtcpIn(n) == c.fec2.rtcpPort
    && StatusIn(m) == status && StatusIn(n) == if c.fecMode == Fec2D then status else Inactive
  }

  lemma {:induction false} FecSectionsShow(c: ChannelCfg)
    requires c.fecEnable
    ensures |FecSections(c)| == 2 && FecShown(c, FecSections(c)[0], FecSections(c)[1])
  {
    var status := FecStatus(c);
    if c.fecMode == Fec1D {
      FecShows(c.fec1, status, EncParity, "4", 0);
      FecShows(c.fec2, Inactive, Enc2dParity, "5", 0);
    } else {
      FecShows(c.fec1, status, Enc2dParity, "4", 0);
      FecShows(c.fec2, status, Enc2dParity, "5", 0);
    }
  }
}
