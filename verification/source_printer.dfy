/**
 Printing a source-mode channel and reading it back. The printer leaves out the RTCP port of the original
 stream, and for an STB it marks the section of that stream as inactive.
 */
module SourcePrinter {
  import opened Options
  import opened ChannelMap
  import opened Channels
  import opened SdpDescription
  import opened SdpValidation
  import opened SdpSound
  import opened SdpPrinter

  /** The channels this is about: those that validation accepts in source mode. */
  predicate Sourced(c: ChannelCfg) { Sound(c) && c.mode == SourceMode }

  // ----- the original section -----

  /** After the original section of a VAM. */
  function AfterVamOrig(c: ChannelCfg): State {
    AfterHead(c).(orig := OrigBase(c).(status := RecvOnly, mid := "1", srcAddr := c.orig.srcAddr))
  }

  lemma {:induction false} VamTailRead(c: ChannelCfg)
    requires Sourced(c) && c.role == Vam
    ensures AttrLines(AfterHead(c), OrigKind, OrigMedia(c), OrigTail(c)) ==
            if c.orig.srcAddr == 0 then None else Some(AfterVamOrig(c))
  {
    var filter, map_ := Filter(c.orig.addr, c.orig.srcAddr), RtpMap(c.orig.payloadType, EncMp2t, 90000);
    var m, st := OrigMedia(c), AfterHead(c);
    assert OrigControl(c) + [Mid("1")] == [Mid("1")];
    AttrsCons(st, OrigKind, m, filter, [map_] + [Mid("1")]);
    if c.orig.srcAddr != 0 {
      var st1 := st.(orig := st.orig.(srcAddr := c.orig.srcAddr));
      AttrsCons(st1, OrigKind, m, map_, [Mid("1")]);
      MidRead(st1, OrigKind, m, "1");
    }
  }

  /** A VAM prints its original section as active, an STB as inactive. */
  predicate SourceOrigPrintable(c: ChannelCfg) {
    if c.role == Vam then c.orig.srcAddr != 0 && c.orig.bitRate != 0
    else c.orig.proto == UdpStream ==> PortOk(c.orig.port) && c.orig.bitRate != 0
  }

  lemma {:induction false} VamOrigRead(c: ChannelCfg)
    requires Sourced(c) && c.role == Vam
    ensures Section(START, OrigMedia(c)) ==
            if SourceOrigPrintable(c) then Some(AfterVamOrig(c)) else None
  {
    OrigUdp(c);
    OrigIsOriginal(c, OrigStart(c));
    OrigBandwidths(c);
    OrigHeadRead(c);
    VamTailRead(c);
  }

  /** Of an inactive original section only address, port and rate are read, and only over UDP. */
  lemma {:induction false} StbOrigRead(c: ChannelCfg)
    requires Sourced(c) && c.role == Stb
    ensures Section(START, OrigMedia(c)) ==
            if SourceOrigPrintable(c) then Some(OrigStart(c)) else None
  {
    var m := OrigMedia(c);
    assert !Active(m);
    assert m.bandwidths[0] == Bandwidth(AS, c.orig.bitRate / 1000);
  }

  function AfterSourceOrig(c: ChannelCfg): State { if c.role == Vam then AfterVamOrig(c) else OrigStart(c) }

  // ----- the re-sourced section -----

  function ReBase(c: ChannelCfg): Stream {
    var r := c.reSourced;
    Blank(r.addr, r.rtpPort).(pt := r.payloadType, sndrBw := r.sndrBw, rcvrBw := r.rcvrBw)
  }

  function AfterRe(c: ChannelCfg, st: State): State {
    st.(re := ReBase(c).(status := Statuses(c.role, c.mode).1, mid := "2", rtcpPort := c.reSourced.rtcpPort),
        reFilter := Some(c.fbtAddr), fbt := c.fbtAddr, er := c.erEnable, fcc := c.fccEnable)
  }

  lemma {:induction false} ReIsResourced(c: ChannelCfg, st: State)
    requires Sourced(c)
    ensures UdpOriginal(st, ReMedia(c)) == Some(st) && Active(ReMedia(c)) && KindOf(st, ReMedia(c)) == Some(ReKind)
  {
    var r, m, dir := c.reSourced, ReMedia(c), Direction(Statuses(c.role, c.mode).1);
    var filter, map_ := Filter(r.addr, c.fbtAddr), RtpMap(r.payloadType, EncMp2t, 90000);
    RtpMapSkip(true, dir, [filter] + ([map_] + ReTail(c)));
    RtpMapSkip(true, filter, [map_] + ReTail(c));
    RtpMapFirst(map_, ReTail(c));
    assert m.attrs[0] == dir;
    assert BitRate(m.bandwidths) == None by {
      assert forall i :: 0 <= i < |m.bandwidths| ==> m.bandwidths[i].modifier != AS;
    }
  }

  lemma {:induction false} ReTailRead(c: ChannelCfg, st: State, m: Media)
    requires Sourced(c) && StreamAt(st, ReKind).pt == c.reSourced.payloadType && !st.er && !st.fcc
    ensures AttrLines(st, ReKind, m, ReTail(c)) ==
            Some(st.(re := st.re.(mid := "2", rtcpPort := c.reSourced.rtcpPort), fbt := c.fbtAddr,
                     er := c.erEnable, fcc := c.fccEnable))
  {
    var r, pt := c.reSourced, c.reSourced.payloadType;
    var rtcp := Rtcp(r.rtcpPort, Target(Some(c.fbtAddr)));
    var t := Opt(c.erEnable, RtcpFb(pt, Some(""))) + (Opt(c.fccEnable, RtcpFb(pt, Some("pli"))) + [Mid("2")]);
    assert ReTail(c) == [rtcp] + t;
    AttrsCons(st, ReKind, m, rtcp, t);
    var st1 := st.(re := st.re.(rtcpPort := r.rtcpPort), fbt := c.fbtAddr);
    FeedbackRead(st1, ReKind, m, pt, c.erEnable, c.fccEnable, "2");
  }

  lemma {:induction false} ReAttrsRead(c: ChannelCfg, st: State)
    requires Sourced(c) && st.re == ReBase(c) && !st.er && !st.fcc
    ensures AttrLines(st, ReKind, ReMedia(c), ReMedia(c).attrs) == Some(AfterRe(c, st))
  {
    var r, m, status := c.reSourced, ReMedia(c), Statuses(c.role, c.mode).1;
    var filter, map_ := Filter(r.addr, c.fbtAddr), RtpMap(r.payloadType, EncMp2t, 90000);
    AttrsCons(st, ReKind, m, Direction(status), [filter] + ([map_] + ReTail(c)));
    var st1 := st.(re := st.re.(status := status));
    AttrsCons(st1, ReKind, m, filter, [map_] + ReTail(c));
    var st2 := st1.(reFilter := Some(c.fbtAddr));
    AttrsCons(st2, ReKind, m, map_, ReTail(c));
    ReTailRead(c, st2, m);
  }

  lemma {:induction false} ReRead(c: ChannelCfg, st: State)
    requires Sourced(c) && st.re == START.re && !st.er && !st.fcc
    ensures Section(st, ReMedia(c)) == Some(AfterRe(c, st))
  {
    ReIsResourced(c, st);
    assert ReadLines(st, ReKind, ReMedia(c)) == Some(AfterRe(c, st)) by {
      BwLinesRead(st, ReKind, c.reSourced.sndrBw, c.reSourced.rcvrBw);
      ReAttrsRead(c, st.(re := ReBase(c)));
    }
  }

  // ----- all sections -----

  /** After all sections of a source-mode channel. */
  function SourceRead(c: ChannelCfg): State { AfterFec(c, WithRtx(c, AfterRe(c, AfterSourceOrig(c)))) }

  lemma {:induction false} SourceSectionsRead(c: ChannelCfg)
    requires Sourced(c)
    ensures Sections(START, Print(c).media) ==
            if SourceOrigPrintable(c) && FecBack(c) then Some(SourceRead(c)) else None
  {
    var st1 := AfterSourceOrig(c);
    var st2 := AfterRe(c, st1);
    if c.role == Vam {
      VamOrigRead(c);
    } else {
      StbOrigRead(c);
    }
    ReRead(c, st1);
    RtxRead(c, st2);
    ThreeSections(START, OrigMedia(c), ReMedia(c), RtxMedia(c), FecSections(c),
                  SourceOrigPrintable(c), st1, st2, WithRtx(c, st2));
    FecSectionsRead(c, WithRtx(c, st2));
  }

  // ----- settling what was read -----

  /** The RTCP port that the original stream gets: the default for a VAM over RTP, and none otherwise. */
  function OrigRtcpBack(c: ChannelCfg): Option<Port> {
    if c.role == Vam && c.orig.proto == RtpStream then CheckRtcpPort(c.orig.port, 0) else Some(0)
  }

  /** That port exists and is not the one of the retransmission stream. */
  predicate OrigRtcpFits(c: ChannelCfg) { OrigRtcpBack(c).Some? && OrigRtcpBack(c).value != c.rtx.rtcpPort }

  /** The original stream as it comes back. */
  function OrigBack(c: ChannelCfg): Original
    requires OrigRtcpBack(c).Some?
  {
    if c.role == Vam then c.orig.(rtcpPort := OrigRtcpBack(c).value)
    else
      var st := OrigStart(c);
      Original(UdpStream, st.orig.addr, 0, st.orig.rtpPort, 0, 0, st.bitRate, BW_UNSPECIFIED, BW_UNSPECIFIED,
               BW_UNSPECIFIED)
  }

  /** The re-sourced stream must not have the address of the original stream as that comes back. */
  predicate AddressFits(c: ChannelCfg) { c.role == Vam || OrigStart(c).orig.addr != c.reSourced.addr }

  predicate SourcePrintable(c: ChannelCfg) {
    SourceOrigPrintable(c) && FecBack(c) && OrigRtcpFits(c) && AddressFits(c)
  }

  /** The channel as it comes back. */
  function SourceBack(c: ChannelCfg, chksum: nat): ChannelCfg
    requires OrigRtcpBack(c).Some?
  {
    var st := SourceRead(c);
    c.(active := true, chksum := chksum, orig := OrigBack(c), rtx := c.rtx.(addr := c.fbtAddr),
       fecEnable := KeepsFec(c), fecMode := if KeepsFec(c) then c.fecMode else Fec1D,
       fec1 := FecOf(st.fec1), fec2 := FecOf(st.fec2))
  }

  lemma {:induction false} SourceLabels()
    ensures Label(["2", "3"]) == "2 3 " && Label(["2", "4"]) == "2 4 " && Label(["2", "4", "5"]) == "2 4 5 "
    ensures Substring("2", "2 3 ") && Substring("3", "2 3 ") && Substring("2", "2 4 ") && Substring("4", "2 4 ")
    ensures Substring("2", "2 4 5 ") && Substring("4", "2 4 5 ") && Substring("5", "2 4 5 ")
  {
    assert ["2", "3"][1..] == ["3"] && ["3"][1..] == [] && ["2", "4"][1..] == ["4"] && ["4"][1..] == [];
    assert ["2", "4", "5"][1..] == ["4", "5"] && ["4", "5"][1..] == ["5"] && ["5"][1..] == [];
    assert OccursAt("2", "2 3 ", 0) && OccursAt("3", "2 3 ", 2) && OccursAt("2", "2 4 ", 0) && OccursAt("4", "2 4 ", 2);
    assert OccursAt("2", "2 4 5 ", 0) && OccursAt("4", "2 4 5 ", 2) && OccursAt("5", "2 4 5 ", 4);
  }

  /** The ids of the streams as they are printed, and which FEC streams are received. */
  predicate SourceMids(st: State, c: ChannelCfg) {
    && st.re.mid == "2" && st.rtx.mid == "3"
    && (FecOn(st) <==> KeepsFec(c)) && (FecTwo(st) <==> KeepsFec(c) && c.fecMode == Fec2D)
    && (c.fecEnable ==> st.fec1.mid == "4" && (c.fecMode == Fec2D ==> st.fec2.mid == "5"))
  }

  lemma {:induction false} SourceMidsRead(c: ChannelCfg)
    requires RoleFits(c.role, SourceMode)
    ensures SourceMids(SourceRead(c), c)
  {
  }

  lemma {:induction false} SourceGroupsRead(c: ChannelCfg, st: State)
    requires RoleFits(c.role, SourceMode) && c.mode == SourceMode && SourceMids(st, c)
    ensures FecMidsOk(st, SourceMode) && GroupsOk(st, SourceMode, GroupLines(c))
  {
    var fid, fec := Group(Fid, ["2", "3"]), Group(Fec, if c.fecMode == Fec1D then ["2", "4"] else ["2", "4", "5"]);
    assert GroupLines(c) == Opt(true, fid) + Opt(c.fecEnable, fec);
    SourceLabels();
    TwoGroups(st, SourceMode, true, fid, c.fecEnable, fec);
  }

  /** The sections after the original one leave what was read of it. */
  lemma {:induction false} OrigRead(c: ChannelCfg)
    ensures var st, st1 := SourceRead(c), AfterSourceOrig(c);
            st.orig == st1.orig && st.proto == st1.proto && st.bitRate == st1.bitRate && st.perRcvrBw == st1.perRcvrBw
  {
  }

  /** The original stream before the default rule for its RTCP port. */
  lemma {:induction false} OrigReadBack(c: ChannelCfg)
    requires Sourced(c) && OrigRtcpBack(c).Some?
    ensures var st, o := AfterSourceOrig(c), OrigBack(c);
            o == Original(st.proto, st.orig.addr, st.orig.srcAddr, st.orig.rtpPort, OrigRtcpBack(c).value, st.orig.pt,
                          st.bitRate, st.orig.sndrBw, st.orig.rcvrBw, st.perRcvrBw)
  {
  }

  /** The other streams, the feedback target and the kinds of repair. */
  lemma {:induction false} StreamsRead(c: ChannelCfg)
    requires Sourced(c)
    ensures var st := SourceRead(c);
            && st.re ==
               ReBase(c).(status := Statuses(c.role, SourceMode).1, mid := "2", rtcpPort := c.reSourced.rtcpPort)
            && st.rtx == RtxBase(c).(status := Statuses(c.role, SourceMode).2, mid := "3", rtcpPort := c.rtx.rtcpPort)
            && st.apt == c.rtx.apt && st.time == c.rtx.time
            && st.reFilter == Some(c.fbtAddr) && st.fbt == c.fbtAddr && st.er == c.erEnable && st.fcc == c.fccEnable
  {
  }

  lemma {:induction false} SourceRole(c: ChannelCfg)
    requires Sourced(c)
    ensures RoleAndMode(SourceRead(c)) == Some((c.role, SourceMode))
  {
    OrigRead(c);
    StreamsRead(c);
  }

  /** The checks before the ports: those on the address and on the RTCP port of a VAM's original stream. */
  lemma {:induction false} SourceChecks(c: ChannelCfg)
    requires Sourced(c) && SourceOrigPrintable(c)
    ensures var st := SourceRead(c);
            && (c.role == Vam ==> (VamOk(st) <==> OrigRtcpBack(c).Some?))
            && (ModeOk(st, SourceMode) <==> AddressFits(c))
            && OrigRtcpOf(st, c.role, SourceMode) == OrigRtcpBack(c)
            && ReRtcpOf(st, SourceMode) == Some(c.reSourced.rtcpPort)
            && RtxRtcpOf(st, SourceMode) == Some(c.rtx.rtcpPort)
  {
    OrigRead(c);
    StreamsRead(c);
  }

  lemma {:induction false} SourceChannel(d: Description, c: ChannelCfg, chksum: nat)
    requires Sourced(c) && OrigRtcpBack(c).Some? && d.stopTime == "0"
    requires NameOf(d) == c.name && SessionKeyOf(d) == c.sessionKey && Number(d.version) == c.version
    ensures ChannelOf(d, SourceRead(c), c.role, SourceMode, OrigRtcpBack(c).value, c.reSourced.rtcpPort,
                      c.rtx.rtcpPort, chksum) == SourceBack(c, chksum)
  {
    var st := SourceRead(c);
    assert FecOn(st) == KeepsFec(c) && FecTwo(st) == (KeepsFec(c) && c.fecMode == Fec2D) by {
      SourceMidsRead(c);
    }
    OrigReadBack(c);
    OrigRead(c);
    StreamsRead(c);
  }

  lemma {:induction false} SourceFecChecks(c: ChannelCfg, chksum: nat)
    requires Sourced(c) && SourceOrigPrintable(c) && FecBack(c) && OrigRtcpBack(c).Some?
    ensures FecOk(SourceBack(c, chksum))
  {
    var r := SourceBack(c, chksum);
    assert KeepsFec(c) ==> SamePorts(c.fec1, r.fec1) && (c.fecMode == Fec2D ==> SamePorts(c.fec2, r.fec2));
  }

  lemma {:induction false} SourcePorts(d: Description, c: ChannelCfg, chksum: nat)
    requires Sourced(c) && SourceOrigPrintable(c) && FecBack(c) && OrigRtcpBack(c).Some? && d.stopTime == "0"
    requires NameOf(d) == c.name && SessionKeyOf(d) == c.sessionKey && Number(d.version) == c.version
    ensures SettlePorts(d, SourceRead(c), c.role, SourceMode, chksum) ==
            if OrigRtcpFits(c) then Some(SourceBack(c, chksum)) else None
  {
    SourceChecks(c);
    SourceChannel(d, c, chksum);
    SourceFecChecks(c, chksum);
  }

  lemma {:induction false} SourceSettles(d: Description, c: ChannelCfg, chksum: nat)
    requires Sourced(c) && SourceOrigPrintable(c) && FecBack(c)
    requires d.groups == GroupLines(c) && d.rtcpUnicast == Rsi && d.stopTime == "0"
    requires NameOf(d) == c.name && SessionKeyOf(d) == c.sessionKey && Number(d.version) == c.version
    ensures Settle(d, SourceRead(c), chksum) ==
            if OrigRtcpFits(c) && AddressFits(c) then Some(SourceBack(c, chksum)) else None
  {
    var st := SourceRead(c);
    assert FecMidsOk(st, SourceMode) && GroupsOk(st, SourceMode, d.groups) by {
      SourceMidsRead(c);
      SourceGroupsRead(c, st);
    }
    SourceRole(c);
    SourceChecks(c);
    if OrigRtcpBack(c).Some? {
      SourcePorts(d, c, chksum);
    }
  }
}
