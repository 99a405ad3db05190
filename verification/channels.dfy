/**
 The channel record of cfg/cfgapi.h, grouped by stream, and the index keys under which a channel is
 registered (cfg_channel_add_map) and removed (cfg_channel_del_map).
 */
module Channels {
  import opened ChannelMap

  datatype Mode = DistributionMode | SourceMode | LookasideMode | RecvOnlyMode | UnspecifiedMode
  datatype Role = SsmDs | Vam | Stb | UnspecifiedRole
  datatype Proto = UdpStream | RtpStream
  datatype FecMode = Fec1D | Fec2D

  /** Addresses are in network byte order; bandwidths are 0xffffffff when unspecified. */
  datatype Original = Original(
    proto: Proto, addr: Addr, srcAddr: Addr, port: Port, rtcpPort: Port, payloadType: nat,
    bitRate: nat, sndrBw: nat, rcvrBw: nat, perRcvrBw: nat)

  datatype ReSourced = ReSourced(
    addr: Addr, rtpPort: Port, rtcpPort: Port, payloadType: nat, sndrBw: nat, rcvrBw: nat)

  datatype Rtx = Rtx(
    addr: Addr, rtpPort: Port, rtcpPort: Port, payloadType: nat, apt: nat, time: nat, sndrBw: nat, rcvrBw: nat)

  datatype FecStream = FecStream(
    addr: Addr, srcAddr: Addr, rtpPort: Port, rtcpPort: Port, payloadType: nat, sndrBw: nat, rcvrBw: nat)

  /** channel_cfg_t, without the handle, which names it. */
  datatype ChannelCfg = ChannelCfg(
    name: string, sessionKey: string, version: nat, active: bool, used: bool, mode: Mode, role: Role,
    orig: Original, reSourced: ReSourced, fbtAddr: Addr, rtx: Rtx, erEnable: bool, fccEnable: bool,
    fecEnable: bool, fecMode: FecMode, fec1: FecStream, fec2: FecStream, chksum: nat)

  /** A place in one of the two maps of a channel manager. */
  datatype Slot = Chan(key: Key) | Fbt(key: Key)

  function When(b: bool, s: Slot): seq<Slot> { if b then [s] else [] }

  /** The port registered with the feedback target. */
  function FbtRtcpPort(c: ChannelCfg): Port {
    match c.mode
    case SourceMode => c.reSourced.rtcpPort
    case LookasideMode => c.orig.rtcpPort
    case _ => 0
  }

  /** The modes with retransmission, and so with a feedback target in the index. */
  predicate UsesRtx(mode: Mode) { mode == SourceMode || mode == LookasideMode }

  /** An RTP port always, an RTCP port if there is one. */
  function StreamSlots(addr: Addr, rtp: Port, rtcp: Port): seq<Slot> {
    [Chan(Key(addr, rtp))] + When(rtcp != 0, Chan(Key(addr, rtcp)))
  }

  function OrigSlots(c: ChannelCfg): seq<Slot> { StreamSlots(c.orig.addr, c.orig.port, c.orig.rtcpPort) }

  function FbtSlots(c: ChannelCfg): seq<Slot> {
    if UsesRtx(c.mode) then
      [Fbt(Key(c.fbtAddr, FbtRtcpPort(c)))]
      + When(c.rtx.rtpPort != c.orig.rtcpPort, Fbt(Key(c.fbtAddr, c.rtx.rtpPort)))
      + [Fbt(Key(c.fbtAddr, c.rtx.rtcpPort))]
    else []
  }

  function FecSlots(c: ChannelCfg): seq<Slot> {
    if c.fecEnable then
      StreamSlots(c.fec1.addr, c.fec1.rtpPort, c.fec1.rtcpPort)
      + (if c.fecMode == Fec2D then StreamSlots(c.fec2.addr, c.fec2.rtpPort, c.fec2.rtcpPort) else [])
    else []
  }

  /** The keys that registration tries to add, in order. */
  function Attempted(c: ChannelCfg): seq<Slot> { OrigSlots(c) + FbtSlots(c) + FecSlots(c) }

  /** The first key tried is the original address with the RTP port. */
  lemma {:induction false} OriginalFirst(c: ChannelCfg)
    ensures Attempted(c) != [] && Attempted(c)[0] == Chan(Key(c.orig.addr, c.orig.port))
    ensures Chan(Key(c.orig.addr, c.orig.port)) in Attempted(c)
  {
    assert Attempted(c)[0] in Attempted(c);
  }

  function SetOf(slots: seq<Slot>): set<Slot> { set s | s in slots }

  /** Removal always takes the retransmission RTP port out, though registration may have skipped it. */
  function FbtRemoved(c: ChannelCfg): set<Slot> {
    if UsesRtx(c.mode) then
      {Fbt(Key(c.fbtAddr, FbtRtcpPort(c))), Fbt(Key(c.fbtAddr, c.rtx.rtpPort)), Fbt(Key(c.fbtAddr, c.rtx.rtcpPort))}
    else {}
  }

  /** The keys that removal deletes. */
  function Removed(c: ChannelCfg): set<Slot> {
    SetOf(OrigSlots(c)) + FbtRemoved(c) + SetOf(FecSlots(c))
  }

  lemma {:induction false} FbtSlotsAreRemoved(c: ChannelCfg)
    ensures SetOf(FbtSlots(c)) <= FbtRemoved(c)
    ensures c.mode != SourceMode ==> SetOf(FbtSlots(c)) == FbtRemoved(c)
  {
    if UsesRtx(c.mode) {
      var t := FbtSlots(c);
      assert t[0] == Fbt(Key(c.fbtAddr, FbtRtcpPort(c))) && t[|t| - 1] == Fbt(Key(c.fbtAddr, c.rtx.rtcpPort));
      assert c.rtx.rtpPort != c.orig.rtcpPort ==> t[1] == Fbt(Key(c.fbtAddr, c.rtx.rtpPort));
    }
  }

  /** Every attempted key is among those a removal deletes, and they are the same outside source mode. */
  lemma {:induction false} AttemptedIsRemoved(c: ChannelCfg)
    ensures forall s :: s in Attempted(c) ==> s in Removed(c)
    ensures c.mode != SourceMode ==> Removed(c) == SetOf(Attempted(c))
  {
    FbtSlotsAreRemoved(c);
    assert SetOf(Attempted(c)) == SetOf(OrigSlots(c)) + SetOf(FbtSlots(c)) + SetOf(FecSlots(c));
  }
}
