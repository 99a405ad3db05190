/**
 What holds of every channel that validation accepts, and what that means for its registration.
 */
module SdpSound {
  import opened Options
  import opened ChannelMap
  import opened Channels
  import opened Registration
  import opened SlotLists
  import opened SdpDescription
  import opened SdpValidation

  predicate HostOrNone(a: Addr) { a == 0 || IsHost(Some(a)) }

  predicate BwOk(b: nat) { b <= MAX_BW || b == BW_UNSPECIFIED }

  predicate RateOk(r: nat) { r == 0 || (r % 1000 == 0 && BitRateOk(r / 1000)) }

  /** The port and payload type of a stream whose section has been read. */
  predicate Opened(s: Stream) { PortOk(s.rtpPort) && PayloadTypeOk(s.pt) }

  predicate StreamOk(s: Stream) {
    && (s.status != Inactive ==> Opened(s))
    && (s.rtcpPort == 0 || PortOk(s.rtcpPort))
    && HostOrNone(s.srcAddr) && BwOk(s.sndrBw) && BwOk(s.rcvrBw)
  }

  predicate StateOk(st: State) {
    && StreamOk(st.orig) && StreamOk(st.re) && StreamOk(st.rtx) && StreamOk(st.fec1) && StreamOk(st.fec2)
    && InMulticastRange(st.orig.addr) && InMulticastRange(st.re.addr) && IsHost(Some(st.rtx.addr))
    && InMulticastRange(st.fec1.addr) && InMulticastRange(st.fec2.addr)
    && RateOk(st.bitRate) && BwOk(st.perRcvrBw) && HostOrNone(st.fbt)
  }

  // ----- reading keeps the state sound -----

  lemma {:induction false} StartOk()
    ensures StateOk(START)
  {
  }

  lemma {:induction false} UdpOriginalOk(st: State, m: Media)
    requires StateOk(st) && UdpOriginal(st, m).Some?
    ensures StateOk(UdpOriginal(st, m).value)
  {
  }

  predicate AddrOk(k: Kind, a: Addr) { if k == RtxKind then IsHost(Some(a)) else InMulticastRange(a) }

  lemma {:induction false} StreamAtOk(st: State, k: Kind)
    requires StateOk(st)
    ensures StreamOk(StreamAt(st, k)) && AddrOk(k, StreamAt(st, k).addr)
  {
  }

  lemma {:induction false} WithStreamOk(st: State, k: Kind, s: Stream)
    requires StateOk(st) && StreamOk(s) && AddrOk(k, s.addr)
    ensures StateOk(WithStream(st, k, s)) && StreamAt(WithStream(st, k, s), k) == s
    ensures WithStream(st, k, s).fbt == st.fbt
  {
    match k
    case OrigKind =>
    case ReKind =>
    case RtxKind =>
    case Fec1Kind =>
    case Fec2Kind =>
  }

  lemma {:induction false} BandwidthLineOk(st: State, k: Kind, b: Bandwidth)
    requires StateOk(st) && BandwidthLine(st, k, b).Some?
    ensures StateOk(BandwidthLine(st, k, b).value)
  {
    if b.modifier == RS || b.modifier == RR {
      var s := StreamAt(st, k);
      var s' := if b.modifier == RS then s.(sndrBw := b.value) else s.(rcvrBw := b.value);
      assert BandwidthLine(st, k, b).value == WithStream(st, k, s');
      StreamAtOk(st, k);
      WithStreamOk(st, k, s');
    }
  }

  lemma {:induction false} BandwidthLinesOk(st: State, k: Kind, bws: seq<Bandwidth>)
    requires StateOk(st) && BandwidthLines(st, k, bws).Some?
    ensures StateOk(BandwidthLines(st, k, bws).value)
    decreases |bws|
  {
    if bws != [] {
      BandwidthLineOk(st, k, bws[0]);
      BandwidthLinesOk(BandwidthLine(st, k, bws[0]).value, k, bws[1..]);
    }
  }

  lemma {:induction false} MediaLineOk(st: State, k: Kind, m: Media)
    requires StateOk(st) && MediaLine(st, k, m).Some?
    ensures StateOk(MediaLine(st, k, m).value) && Opened(StreamAt(MediaLine(st, k, m).value, k))
  {
    StreamAtOk(st, k);
    WithStreamOk(st, k, StreamAt(st, k).(
      addr := m.conn.addr.value, rtpPort := m.port, pt := m.payloadTypes[0], mid := ""));
  }

  lemma {:induction false} AttrLineOk(st: State, k: Kind, m: Media, a: Attr)
    requires StateOk(st) && Opened(StreamAt(st, k)) && AttrLine(st, k, m, a).Some?
    ensures StateOk(AttrLine(st, k, m, a).value) && Opened(StreamAt(AttrLine(st, k, m, a).value, k))
  {
    StreamAtOk(st, k);
    var s := StreamAt(st, k);
    match a
    case SendOnlyAttr => WithStreamOk(st, k, s.(status := SendOnly));
    case RecvOnlyAttr => WithStreamOk(st, k, s.(status := RecvOnly));
    case InactiveAttr => WithStreamOk(st, k, s.(status := Inactive));
    case SourceFilter(_, _, sources) => WithStreamOk(st, k, s.(srcAddr := sources[0].value));
    case RtpMap(_, _, _) =>
    case Rtcp(port, target) => RtcpLineOk(st, k, port, target);
    case RtcpFb(_, _) => SameStreams(st, AttrLine(st, k, m, a).value, k);
    case Mid(id) => WithStreamOk(st, k, s.(mid := id));
    case Fmtp(_, _, _, _, _) => FmtpLineOk(st, k, m, a);
    case OtherAttr =>
  }

  lemma {:induction false} RtcpLineOk(st: State, k: Kind, port: nat, target: Target)
    requires StateOk(st) && Opened(StreamAt(st, k)) && RtcpLine(st, k, port, target).Some?
    ensures StateOk(RtcpLine(st, k, port, target).value) && Opened(StreamAt(RtcpLine(st, k, port, target).value, k))
  {
    StreamAtOk(st, k);
    var st1 := WithStream(st, k, StreamAt(st, k).(rtcpPort := port));
    WithStreamOk(st, k, StreamAt(st, k).(rtcpPort := port));
    SameStreams(st1, RtcpLine(st, k, port, target).value, k);
  }

  lemma {:induction false} FmtpLineOk(st: State, k: Kind, m: Media, a: Attr)
    requires StateOk(st) && Opened(StreamAt(st, k)) && a.Fmtp? && FmtpLine(st, k, m, a).Some?
    ensures StateOk(FmtpLine(st, k, m, a).value) && Opened(StreamAt(FmtpLine(st, k, m, a).value, k))
  {
    SameStreams(st, FmtpLine(st, k, m, a).value, k);
  }

  /** A state with the same streams and sound values otherwise. */
  lemma {:induction false} SameStreams(st: State, st': State, k: Kind)
    requires StateOk(st) && Opened(StreamAt(st, k))
    requires st'.orig == st.orig && st'.re == st.re && st'.rtx == st.rtx && st'.fec1 == st.fec1 && st'.fec2 == st.fec2
    requires RateOk(st'.bitRate) && BwOk(st'.perRcvrBw) && HostOrNone(st'.fbt)
    ensures StateOk(st') && Opened(StreamAt(st', k))
  {
  }

  lemma {:induction false} AttrLinesOk(st: State, k: Kind, m: Media, attrs: seq<Attr>)
    requires StateOk(st) && Opened(StreamAt(st, k)) && AttrLines(st, k, m, attrs).Some?
    ensures StateOk(AttrLines(st, k, m, attrs).value)
    decreases |attrs|
  {
    if attrs != [] {
      AttrLineOk(st, k, m, attrs[0]);
      AttrLinesOk(AttrLine(st, k, m, attrs[0]).value, k, m, attrs[1..]);
    }
  }

  lemma {:induction false} SectionOk(st: State, m: Media)
    requires StateOk(st) && Section(st, m).Some?
    ensures StateOk(Section(st, m).value)
  {
    UdpOriginalOk(st, m);
    var u := UdpOriginal(st, m).value;
    if Active(m) && KindOf(u, m).Some? {
      ReadLinesOk(u, KindOf(u, m).value, m);
    }
  }

  lemma {:induction false} ReadLinesOk(st: State, k: Kind, m: Media)
    requires StateOk(st) && ReadLines(st, k, m).Some?
    ensures StateOk(ReadLines(st, k, m).value)
  {
    var st1 := if k == OrigKind then st.(proto := if m.transport == Udp then UdpStream else RtpStream) else st;
    assert StateOk(st1);
    BandwidthLinesOk(st1, k, m.bandwidths);
    var b := BandwidthLines(st1, k, m.bandwidths).value;
    MediaLineOk(b, k, m);
    AttrLinesOk(MediaLine(b, k, m).value, k, m, m.attrs);
  }

  lemma {:induction false} SectionsOk(st: State, ms: seq<Media>)
    requires StateOk(st) && Sections(st, ms).Some?
    ensures StateOk(Sections(st, ms).value)
    decreases |ms|
  {
    if ms != [] {
      SectionOk(st, ms[0]);
      SectionsOk(Section(st, ms[0]).value, ms[1..]);
    }
  }

  // ----- the default RTCP port -----

  /**
   The RTCP port that the default rule fills in is the port after the RTP port, as section 11 of RFC 3550
   has it, exactly when the low octet of the RTP port is not 255; otherwise it is 255 ports below. It is
   always a port that may be named, and never the RTP port itself.
   */
  lemma {:induction false} DefaultRtcpPort(rtp: Port)
    requires PortOk(rtp) && CheckRtcpPort(rtp, 0).Some?
    ensures var r := CheckRtcpPort(rtp, 0).value;
            && (r == rtp + 1 <==> rtp % 256 != 255)
            && (rtp % 256 == 255 ==> r == rtp - 255)
            && PortOk(r) && r != rtp
  {
    NextInMemory(rtp / 256, rtp % 256);
    assert rtp == rtp / 256 * 256 + rtp % 256;
  }

  /** The low octet goes up by one, modulo 256. */
  lemma {:induction false} NextInMemory(hi: nat, lo: nat)
    requires hi < 256 && lo < 256 && hi * 256 + lo != MAX_PORT
    ensures CheckRtcpPort(hi * 256 + lo, 0) == Some(hi * 256 + if lo == 255 then 0 else lo + 1)
  {
    var lo' := if lo == 255 then 0 else lo + 1;
    SwapParts(hi, lo);
    SwapParts(0, 1);
    SwapParts(lo', hi);
    assert (lo * 256 + hi + 256) % 0x1_0000 == lo' * 256 + hi;
  }

  lemma {:induction false} SwapParts(hi: nat, lo: nat)
    requires hi < 256 && lo < 256
    ensures hi * 256 + lo < 0x1_0000 && ByteSwap(hi * 256 + lo) == lo * 256 + hi
  {
    assert (hi * 256 + lo) % 256 == lo && (hi * 256 + lo) / 256 == hi;
  }

  lemma {:induction false} CheckedRtcpPort(rtp: Port, rtcp: Port)
    requires PortOk(rtp) && (rtcp == 0 || PortOk(rtcp)) && rtp != rtcp && CheckRtcpPort(rtp, rtcp).Some?
    ensures PortOk(CheckRtcpPort(rtp, rtcp).value) && CheckRtcpPort(rtp, rtcp).value != rtp
  {
    if rtcp == 0 {
      DefaultRtcpPort(rtp);
    }
  }

  // ----- accepted channels -----

  /** The original stream. */
  predicate OrigSound(c: ChannelCfg) {
    && InMulticastRange(c.orig.addr) && HostOrNone(c.orig.srcAddr)
    && RateOk(c.orig.bitRate) && BwOk(c.orig.sndrBw) && BwOk(c.orig.rcvrBw) && BwOk(c.orig.perRcvrBw)
    && (c.orig.rtcpPort == 0 || PortOk(c.orig.rtcpPort))
    && (c.mode != SourceMode || c.role == Vam ==> PortOk(c.orig.port) && PayloadTypeOk(c.orig.payloadType))
    && (c.mode != SourceMode ==>
        c.orig.port != c.orig.rtcpPort && (c.orig.proto == RtpStream ==> c.orig.rtcpPort != 0))
  }

  /** Feedback, repair and the retransmission stream. */
  predicate RepairSound(c: ChannelCfg) {
    && HostOrNone(c.fbtAddr) && BwOk(c.rtx.sndrBw) && BwOk(c.rtx.rcvrBw)
    && (UsesRtx(c.mode) ==>
        && c.fbtAddr != 0 && PortOk(c.rtx.rtpPort) && PayloadTypeOk(c.rtx.payloadType) && PortOk(c.rtx.rtcpPort)
        && c.rtx.rtpPort != c.rtx.rtcpPort && c.rtx.rtcpPort != c.orig.rtcpPort)
    && (c.mode == SourceMode ==> ReSound(c))
    && (c.mode == LookasideMode ==> c.rtx.apt == c.orig.payloadType)
    && (c.mode == RecvOnlyMode && c.fbtAddr == 0 ==>
        c.orig.perRcvrBw == 0 && c.orig.sndrBw == 0 && c.orig.rcvrBw == 0)
    && (c.erEnable || c.fccEnable ==>
        && UsesRtx(c.mode) && (c.mode == LookasideMode ==> !NoReports(c.orig))
        && (c.mode == SourceMode ==> c.reSourced.sndrBw != 0 || c.reSourced.rcvrBw != 0))
  }

  /** The re-sourced stream in source mode. */
  predicate ReSound(c: ChannelCfg) {
    var r := c.reSourced;
    && InMulticastRange(r.addr) && r.addr != c.orig.addr
    && PortOk(r.rtpPort) && PortOk(r.rtcpPort) && r.rtpPort != r.rtcpPort
    && PayloadTypeOk(r.payloadType) && c.rtx.apt == r.payloadType && BwOk(r.sndrBw) && BwOk(r.rcvrBw)
  }

  /** RTCP from receivers of the original stream is turned off. */
  predicate NoReports(o: Original) {
    o.perRcvrBw == 0 || (o.perRcvrBw == BW_UNSPECIFIED && o.sndrBw == 0 && o.rcvrBw == 0)
  }

  predicate FecStreamSound(f: FecStream) {
    && InMulticastRange(f.addr) && HostOrNone(f.srcAddr) && PortOk(f.rtpPort) && PayloadTypeOk(f.payloadType)
    && (f.rtcpPort == 0 || PortOk(f.rtcpPort))
  }

  predicate FecSound(c: ChannelCfg) {
    && (c.fecEnable ==> FecStreamSound(c.fec1) && (c.fecMode == Fec2D ==> FecStreamSound(c.fec2)))
    && (!c.fecEnable ==> c.fecMode == Fec1D)
    && FecOk(c)
  }

  /** The pairs of the role and mode table. */
  predicate RoleFits(role: Role, mode: Mode) {
    match role
    case SsmDs => mode == DistributionMode
    case Vam => mode == SourceMode || mode == LookasideMode
    case Stb => mode == SourceMode || mode == LookasideMode || mode == RecvOnlyMode
    case UnspecifiedRole => false
  }

  predicate Sound(c: ChannelCfg) {
    && OrigSound(c) && RepairSound(c) && FecSound(c)
    && c.version <= MAX_VERSION && |c.name| <= 81 && |c.sessionKey| < 400 && !c.used
    && RoleFits(c.role, c.mode)
  }

  lemma {:induction false} OrigSettled(
    d: Description, st: State, role: Role, mode: Mode, c: ChannelCfg, chksum: nat)
    requires StateOk(st) && RoleAndMode(st) == Some((role, mode)) && ModeOk(st, mode)
    requires role == Vam ==> VamOk(st)
    requires SettlePorts(d, st, role, mode, chksum) == Some(c)
    ensures OrigSound(c)
  {
    if st.proto == RtpStream && (mode != SourceMode || role == Vam) && st.orig.status != Inactive {
      CheckedRtcpPort(st.orig.rtpPort, st.orig.rtcpPort);
    }
  }

  lemma {:induction false} RepairSettled(
    d: Description, st: State, role: Role, mode: Mode, c: ChannelCfg, chksum: nat)
    requires StateOk(st) && RoleAndMode(st) == Some((role, mode)) && ModeOk(st, mode)
    requires SettlePorts(d, st, role, mode, chksum) == Some(c)
    ensures RepairSound(c)
  {
    if UsesRtx(mode) {
      CheckedRtcpPort(st.rtx.rtpPort, st.rtx.rtcpPort);
    }
    if mode == SourceMode {
      CheckedRtcpPort(st.re.rtpPort, st.re.rtcpPort);
    }
  }

  lemma {:induction false} FecSettled(
    d: Description, st: State, role: Role, mode: Mode, c: ChannelCfg, chksum: nat)
    requires StateOk(st) && SettlePorts(d, st, role, mode, chksum) == Some(c)
    ensures FecSound(c)
  {
  }

  /** Whatever the description, a channel that validation accepts is sound. */
  lemma {:induction false} AcceptedIsSound(d: Description, chksum: nat)
    requires Validate(d, chksum).Some?
    ensures Sound(Validate(d, chksum).value)
  {
    StartOk();
    SectionsOk(START, d.media);
    SettledIsSound(d, Sections(START, d.media).value, chksum);
  }

  lemma {:induction false} SettledIsSound(d: Description, st: State, chksum: nat)
    requires StateOk(st) && SessionOk(d) && Settle(d, st, chksum).Some?
    ensures Sound(Settle(d, st, chksum).value)
  {
    var c := Settle(d, st, chksum).value;
    var (role, mode) := RoleAndMode(st).value;
    OrigSettled(d, st, role, mode, c, chksum);
    RepairSettled(d, st, role, mode, c, chksum);
    FecSettled(d, st, role, mode, c, chksum);
  }

  // ----- what acceptance means for registration -----

  lemma {:induction false} KeysUsableAppend(a: seq<Slot>, b: seq<Slot>)
    ensures KeysUsable(a + b) <==> KeysUsable(a) && KeysUsable(b) && Disjoint(a, b)
  {
    var t := a + b;
    assert forall i :: 0 <= i < |b| ==> t[|a| + i] == b[i];
    if KeysUsable(a) && KeysUsable(b) && Disjoint(a, b) {
      forall i, j | 0 <= i < j < |t| ensures t[i] != t[j] {
        if i < |a| <= j {
          assert a[i] in a && b[j - |a|] in b;
        }
      }
    }
    if KeysUsable(t) {
      forall i, j | 0 <= i < |a| && 0 <= j < |b| ensures a[i] != b[j] {
        assert t[i] != t[|a| + j];
      }
      assert forall s :: s in a ==> s in t;
      assert forall s :: s in b ==> s in t;
      forall i, j | 0 <= i < j < |b| ensures b[i] != b[j] {
        assert t[|a| + i] != t[|a| + j];
      }
      forall i, j | 0 <= i < j < |a| ensures a[i] != a[j] {
        assert t[i] != t[j];
      }
    }
  }

  /** An RTP port and, if there is one, an RTCP port. */
  lemma {:induction false} StreamKeys(a: Addr, rtp: Port, rtcp: Port)
    ensures KeysUsable(StreamSlots(a, rtp, rtcp)) <==> rtp != 0 && rtp != rtcp
  {
    var t := StreamSlots(a, rtp, rtcp);
    assert t[0] == Chan(Key(a, rtp)) && t[0] in t;
    assert rtcp != 0 ==> t[1] == Chan(Key(a, rtcp)) && t[1] in t;
  }

  lemma {:induction false} FbtKeys(c: ChannelCfg)
    requires UsesRtx(c.mode) && c.rtx.rtpPort != 0 && c.rtx.rtcpPort != 0 && c.rtx.rtpPort != c.rtx.rtcpPort
    ensures KeysUsable(FbtSlots(c)) <==>
            && FbtRtcpPort(c) != 0 && FbtRtcpPort(c) != c.rtx.rtcpPort
            && (c.rtx.rtpPort != c.orig.rtcpPort ==> FbtRtcpPort(c) != c.rtx.rtpPort)
  {
    var t := FbtSlots(c);
    var n := |t| - 1;
    assert t[0] == Fbt(Key(c.fbtAddr, FbtRtcpPort(c))) && t[0] in t;
    assert t[n] == Fbt(Key(c.fbtAddr, c.rtx.rtcpPort)) && t[n] in t;
    assert n == if c.rtx.rtpPort != c.orig.rtcpPort then 2 else 1;
    assert n == 2 ==> t[1] == Fbt(Key(c.fbtAddr, c.rtx.rtpPort)) && t[1] in t;
  }

  /** The keys of two streams do not meet. */
  lemma {:induction false} StreamsApart(a: Addr, rtp: Port, rtcp: Port, b: Addr, rtp2: Port, rtcp2: Port)
    requires a == b ==> rtp != rtp2 && rtp != rtcp2 && rtcp != rtp2 && (rtcp == rtcp2 ==> rtcp == 0)
    ensures Disjoint(StreamSlots(a, rtp, rtcp), StreamSlots(b, rtp2, rtcp2))
  {
  }

  lemma {:induction false} FecKeys(c: ChannelCfg)
    requires FecSound(c)
    ensures KeysUsable(FecSlots(c)) && Disjoint(OrigSlots(c), FecSlots(c))
  {
    if c.fecEnable {
      var s1 := StreamSlots(c.fec1.addr, c.fec1.rtpPort, c.fec1.rtcpPort);
      var s2 := StreamSlots(c.fec2.addr, c.fec2.rtpPort, c.fec2.rtcpPort);
      StreamKeys(c.fec1.addr, c.fec1.rtpPort, c.fec1.rtcpPort);
      StreamsApart(c.orig.addr, c.orig.port, c.orig.rtcpPort, c.fec1.addr, c.fec1.rtpPort, c.fec1.rtcpPort);
      if c.fecMode == Fec2D {
        StreamKeys(c.fec2.addr, c.fec2.rtpPort, c.fec2.rtcpPort);
        StreamsApart(c.orig.addr, c.orig.port, c.orig.rtcpPort, c.fec2.addr, c.fec2.rtpPort, c.fec2.rtcpPort);
        StreamsApart(c.fec1.addr, c.fec1.rtpPort, c.fec1.rtcpPort, c.fec2.addr, c.fec2.rtpPort, c.fec2.rtcpPort);
        KeysUsableAppend(s1, s2);
      } else {
        assert s1 + [] == s1;
      }
    }
  }

  /** What validation leaves open about a channel's own keys. */
  predicate Usable(c: ChannelCfg) {
    match c.mode
    case LookasideMode => c.orig.rtcpPort != 0
    case SourceMode =>
      && c.orig.port != 0 && c.orig.port != c.orig.rtcpPort && c.reSourced.rtcpPort != c.rtx.rtcpPort
      && (c.rtx.rtpPort != c.orig.rtcpPort ==> c.reSourced.rtcpPort != c.rtx.rtpPort)
    case _ => true
  }

  /**
   The own index keys of an accepted channel are nonzero and mutually distinct exactly when, in lookaside
   mode, there is an RTCP port for the original stream, and, in source mode, the ports that validation
   does not compare differ. Otherwise it can never be registered, whatever else is.
   */
  lemma {:induction false} SoundKeysIff(c: ChannelCfg)
    requires Sound(c)
    ensures OwnKeysOk(c) <==> Usable(c)
  {
    var o, f, e := OrigSlots(c), FbtSlots(c), FecSlots(c);
    KeysUsableAppend(o + f, e);
    KeysUsableAppend(o, f);
    StreamKeys(c.orig.addr, c.orig.port, c.orig.rtcpPort);
    FecKeys(c);
    if UsesRtx(c.mode) {
      FbtKeys(c);
    }
    OtherMap(c);
  }

  /** Feedback keys are in a map of their own. */
  lemma {:induction false} OtherMap(c: ChannelCfg)
    ensures Disjoint(OrigSlots(c), FbtSlots(c))
    ensures Disjoint(OrigSlots(c) + FbtSlots(c), FecSlots(c)) <==> Disjoint(OrigSlots(c), FecSlots(c))
  {
    assert forall s :: s in OrigSlots(c) ==> s.Chan?;
    assert forall s :: s in FbtSlots(c) ==> s.Fbt?;
    assert forall s :: s in FecSlots(c) ==> s.Chan?;
  }

  /** The registration of an accepted RTP channel outside source mode can fail only against another channel. */
  lemma {:induction false} AcceptedRtpKeys(d: Description, chksum: nat, ix: Index, h: Handle)
    requires Validate(d, chksum).Some?
    ensures var c := Validate(d, chksum).value;
            && (OwnKeysOk(c) <==> Usable(c))
            && (c.orig.proto == RtpStream && c.mode != SourceMode ==>
                (Register(ix, c, h).1 <==> KeysFree(ix, c) && c.sessionKey !in ix.keys))
  {
    var c := Validate(d, chksum).value;
    AcceptedIsSound(d, chksum);
    SoundKeysIff(c);
    RegisterSucceedsIff(ix, c, h);
  }
}
