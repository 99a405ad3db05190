/** Printing a channel of any mode and validating what was printed. */
module RoundTrip {
  import opened Options
  import opened ChannelMap
  import opened Channels
  import opened Registration
  import opened SdpValidation
  import opened SdpSound
  import opened SdpPrinter
  import opened SourcePrinter
  import SdpHandle

  /** What is printed for the channel passes validation. */
  predicate Printable(c: ChannelCfg) {
    if c.mode == SourceMode then SourcePrintable(c) else PlainPrintable(c)
  }

  /** The channel as it comes back. */
  function ReadBack(c: ChannelCfg, chksum: nat): ChannelCfg
    requires Printable(c)
  {
    if c.mode == SourceMode then SourceBack(c, chksum) else PlainBack(c, chksum)
  }

  /**
   Printing an accepted channel and validating the result gives the channel back as ReadBack describes it,
   exactly when the channel is printable; otherwise the printed description is rejected. Outside source mode
   that takes the source filters, the bit rate and RTCP ports on the original stream and on the FEC streams in
   use. In source mode a VAM needs the source filter and the bit rate, and over RTP a default RTCP port that
   is not the one of the retransmission stream; an STB needs the port and the bit rate of an original stream
   over UDP, and loses one over RTP.
   */
  lemma {:induction false} PrintThenValidate(c: ChannelCfg, chksum: nat)
    requires Sound(c) && SdpHandle.WellFormed(c.sessionKey)
    ensures Validate(Print(c), chksum) == if Printable(c) then Some(ReadBack(c, chksum)) else None
  {
    if c.mode == SourceMode {
      SessionRead(c);
      SourceSectionsRead(c);
      if SourceOrigPrintable(c) && FecBack(c) {
        SourceSettles(Print(c), c, chksum);
      }
    } else {
      PlainRoundTrip(c, chksum);
    }
  }

  /** An FEC stream comes back but for its bandwidths, which are printed as zero. */
  predicate FecKept(f: FecStream, g: FecStream) {
    && g.addr == f.addr && g.srcAddr == f.srcAddr && g.payloadType == f.payloadType
    && g.rtpPort == f.rtpPort && g.rtcpPort == f.rtcpPort && g.sndrBw == 0 && g.rcvrBw == 0
  }

  /** What is the same in every mode. */
  predicate Kept(c: ChannelCfg, r: ChannelCfg) {
    && r.name == c.name && r.sessionKey == c.sessionKey && r.version == c.version
    && r.role == c.role && r.mode == c.mode && r.fbtAddr == c.fbtAddr
    && r.erEnable == c.erEnable && r.fccEnable == c.fccEnable
    && (UsesRtx(c.mode) ==>
        && r.rtx.addr == c.fbtAddr && r.rtx.rtpPort == c.rtx.rtpPort && r.rtx.rtcpPort == c.rtx.rtcpPort
        && r.rtx.payloadType == c.rtx.payloadType && r.rtx.apt == c.rtx.apt && r.rtx.time == c.rtx.time
        && r.rtx.sndrBw == c.rtx.sndrBw && r.rtx.rcvrBw == c.rtx.rcvrBw)
    && (r.fecEnable <==> c.fecEnable && c.role == Stb)
    && (r.fecEnable ==> r.fecMode == c.fecMode && FecKept(c.fec1, r.fec1))
    && (r.fecEnable && c.fecMode == Fec2D ==> FecKept(c.fec2, r.fec2))
  }

  /** The original and the re-sourced stream. */
  predicate StreamsKept(c: ChannelCfg, r: ChannelCfg) {
    && (c.mode != SourceMode ==> r.orig == c.orig)
    && (c.mode == SourceMode ==> r.reSourced == c.reSourced)
    && (c.mode == SourceMode && c.role == Vam ==>
        && r.orig.addr == c.orig.addr && r.orig.port == c.orig.port && r.orig.payloadType == c.orig.payloadType
        && r.orig.srcAddr == c.orig.srcAddr && r.orig.proto == c.orig.proto && r.orig.bitRate == c.orig.bitRate
        && r.orig.sndrBw == c.orig.sndrBw && r.orig.rcvrBw == c.orig.rcvrBw && r.orig.perRcvrBw == c.orig.perRcvrBw)
    && (c.mode == SourceMode && c.role == Stb && c.orig.proto == UdpStream ==>
        r.orig.addr == c.orig.addr && r.orig.port == c.orig.port && r.orig.bitRate == c.orig.bitRate)
  }

  /**
   What comes back, field by field: active, with the name, key, version, role, mode, feedback, retransmission
   and, for an STB, FEC of the channel that was printed; outside source mode with the same original stream, in
   source mode with the same re-sourced one.
   */
  lemma {:induction false} PrintedComesBack(c: ChannelCfg, r: ChannelCfg, chksum: nat)
    requires Sound(c) && SdpHandle.WellFormed(c.sessionKey) && Validate(Print(c), chksum) == Some(r)
    ensures r.active && !r.used && r.chksum == chksum && Kept(c, r) && StreamsKept(c, r)
    ensures c.mode != SourceMode ==>
            Attempted(r) == if c.role == Stb || !c.fecEnable then Attempted(c) else OrigSlots(c) + FbtSlots(c)
  {
    PrintThenValidate(c, chksum);
    if c.mode == SourceMode {
      SourceKept(c, chksum);
    } else {
      PlainKept(c, chksum);
      PlainKeys(c, chksum);
    }
  }

  lemma {:induction false} PlainKept(c: ChannelCfg, chksum: nat)
    requires Plain(c)
    ensures var r := PlainBack(c, chksum);
            r.active && !r.used && r.chksum == chksum && Kept(c, r) && StreamsKept(c, r)
  {
  }

  lemma {:induction false} SourceKept(c: ChannelCfg, chksum: nat)
    requires Sourced(c) && SourcePrintable(c)
    ensures var r := SourceBack(c, chksum);
            r.active && !r.used && r.chksum == chksum && Kept(c, r) && StreamsKept(c, r)
  {
  }

  /** The original stream comes back with its address and ports. */
  predicate KeepsOriginal(c: ChannelCfg)
    requires OrigRtcpBack(c).Some?
  {
    var o := OrigBack(c);
    o.addr == c.orig.addr && o.port == c.orig.port && o.rtcpPort == c.orig.rtcpPort
  }

  /**
   In source mode what comes back is registered under the same keys exactly when the original stream comes
   back with its address and ports. The original stream of an STB over RTP does not, and the channel can then
   never be registered.
   */
  lemma {:induction false} SourceKeysKeptIff(c: ChannelCfg, chksum: nat)
    requires Sourced(c) && SourcePrintable(c) && (KeepsFec(c) || !c.fecEnable)
    ensures Attempted(SourceBack(c, chksum)) == Attempted(c) <==> KeepsOriginal(c)
    ensures c.role == Stb && c.orig.proto == RtpStream ==> !OwnKeysOk(SourceBack(c, chksum))
  {
    var r := SourceBack(c, chksum);
    assert FecSlots(r) == FecSlots(c);
    SameSlotsIff(r, c);
    assert Attempted(r)[0] == Chan(Key(r.orig.addr, r.orig.port));
  }

  /** Channels that differ in the original stream only. */
  lemma {:induction false} SameSlotsIff(r: ChannelCfg, c: ChannelCfg)
    requires r.mode == SourceMode == c.mode && r.fbtAddr == c.fbtAddr && r.reSourced == c.reSourced
    requires r.rtx.rtpPort == c.rtx.rtpPort && r.rtx.rtcpPort == c.rtx.rtcpPort && FecSlots(r) == FecSlots(c)
    ensures Attempted(r) == Attempted(c) <==>
            r.orig.addr == c.orig.addr && r.orig.port == c.orig.port && r.orig.rtcpPort == c.orig.rtcpPort
  {
    FirstSlots(r);
    FirstSlots(c);
  }

  lemma {:induction false} FirstSlots(c: ChannelCfg)
    requires c.mode == SourceMode
    ensures |Attempted(c)| >= 2 && Attempted(c)[0] == Chan(Key(c.orig.addr, c.orig.port))
    ensures Attempted(c)[1] == if c.orig.rtcpPort != 0 then Chan(Key(c.orig.addr, c.orig.rtcpPort))
                               else Fbt(Key(c.fbtAddr, c.reSourced.rtcpPort))
  {
  }
}
