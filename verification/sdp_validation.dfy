/**
 The semantic validation and extraction of a description (linear_validation_and_extraction and its
 helpers figure_out_session_type, get_bit_rate and check_rtcp_port in cfg/cfg_channel.c) on values.
 */
module SdpValidation {
  import opened Options
  import opened ChannelMap
  import opened Channels
  import opened SdpDescription
  import SdpHandle

  const MIN_LINEAR_SESSIONS := 3
  const MAX_GROUP_LINES := 3
  const MIN_PORT := 1024
  const MAX_PORT := 65535
  const MIN_PT := 96
  const MAX_PT := 127
  const STATIC_PT := 33
  const MIN_BIT_RATE := 1
  const MAX_BIT_RATE := 40000
  const MAX_BW := 0x7FFF_FFFF
  const BW_UNSPECIFIED := 0xFFFF_FFFF
  const MAX_VERSION := 9223372036854775806

  datatype Status = SendOnly | RecvOnly | Inactive
  datatype Kind = OrigKind | ReKind | RtxKind | Fec1Kind | Fec2Kind

  /** What is known of one stream so far. */
  datatype Stream = Stream(
    status: Status, mid: string, addr: Addr, srcAddr: Addr, rtpPort: Port, rtcpPort: Port, pt: nat,
    sndrBw: nat, rcvrBw: nat)

  /** What is known of the channel while its sections are read. */
  datatype State = State(
    orig: Stream, re: Stream, rtx: Stream, fec1: Stream, fec2: Stream,
    proto: Proto, bitRate: nat, perRcvrBw: nat, apt: nat, time: nat, fbt: Addr, er: bool, fcc: bool,
    reFilter: Option<Addr>)

  function StreamAt(st: State, k: Kind): Stream {
    match k
    case OrigKind => st.orig
    case ReKind => st.re
    case RtxKind => st.rtx
    case Fec1Kind => st.fec1
    case Fec2Kind => st.fec2
  }

  function WithStream(st: State, k: Kind, s: Stream): State {
    match k
    case OrigKind => st.(orig := s)
    case ReKind => st.(re := s)
    case RtxKind => st.(rtx := s)
    case Fec1Kind => st.(fec1 := s)
    case Fec2Kind => st.(fec2 := s)
  }

  /** 239.255.255.255 and 1.1.1.1. */
  const DEFAULT_MULTICAST: Addr := 0xFFFF_FFEF
  const DEFAULT_UNICAST: Addr := 0x0101_0101

  function Blank(addr: Addr, rtpPort: Port): Stream {
    Stream(Inactive, "", addr, 0, rtpPort, 0, 0, BW_UNSPECIFIED, BW_UNSPECIFIED)
  }

  const START := State(
    Blank(DEFAULT_MULTICAST, 0), Blank(DEFAULT_MULTICAST, ByteSwap(1)), Blank(DEFAULT_UNICAST, ByteSwap(1)),
    Blank(DEFAULT_MULTICAST, 0), Blank(DEFAULT_MULTICAST, 0),
    UdpStream, 0, BW_UNSPECIFIED, 0, 0, 0, false, false, None)

  predicate PortOk(p: nat) { MIN_PORT <= p <= MAX_PORT }

  predicate PayloadTypeOk(pt: nat) { (pt >= MIN_PT || pt == STATIC_PT) && pt <= MAX_PT }

  predicate BitRateOk(b: nat) { MIN_BIT_RATE <= b <= MAX_BIT_RATE }

  // ----- one section -----

  /** An original stream over UDP gives its address, port and rate even when its section is inactive. */
  function UdpOriginal(st: State, m: Media): Option<State> {
    if !(IsMulticast(m.conn) && m.transport == Udp) then Some(st)
    else
      var rate := BitRate(m.bandwidths);
      if IsAddress(m.conn.addr) && PortOk(m.port) && rate.Some? && BitRateOk(rate.value) then
        Some(st.(orig := st.orig.(addr := m.conn.addr.value, rtpPort := m.port), bitRate := rate.value * 1000))
      else None
  }

  /** figure_out_session_type: from the first a=rtpmap line, the transport and the address. */
  function KindOf(st: State, m: Media): Option<Kind> {
    var map_ := FirstRtpMap(m.attrs);
    if !m.video || map_.None? || map_.value.clockRate != 90000 then None
    else match map_.value.encoding
      case EncRtx => if !IsMulticast(m.conn) && m.transport == RtpAvpf then Some(RtxKind) else None
      case EncMp2t =>
        if m.transport == RtpAvp || m.transport == Udp || BitRate(m.bandwidths).Some? then Some(OrigKind)
        else Some(ReKind)
      case EncParity => if IsMulticast(m.conn) && m.transport == RtpAvp then Some(Fec1Kind) else None
      case Enc2dParity =>
        if IsMulticast(m.conn) && m.transport == RtpAvp then
          if st.fec1.pt == 0 then Some(Fec1Kind) else Some(Fec2Kind)
        else None
      case EncOther => None
  }

  function BandwidthLine(st: State, k: Kind, b: Bandwidth): Option<State> {
    if b.value > MAX_BW then None
    else match b.modifier
      case AS => if k == OrigKind && BitRateOk(b.value) then Some(st.(bitRate := b.value * 1000)) else None
      case RS => Some(WithStream(st, k, StreamAt(st, k).(sndrBw := b.value)))
      case RR => Some(WithStream(st, k, StreamAt(st, k).(rcvrBw := b.value)))
      case OtherBw => Some(st)
  }

  function BandwidthLines(st: State, k: Kind, bws: seq<Bandwidth>): Option<State>
    decreases |bws|
  {
    if bws == [] then Some(st)
    else
      var r := BandwidthLine(st, k, bws[0]);
      if r.None? then None else BandwidthLines(r.value, k, bws[1..])
  }

  /** The m= and c= lines. */
  function MediaLine(st: State, k: Kind, m: Media): Option<State> {
    if |m.payloadTypes| == 1 && PayloadTypeOk(m.payloadTypes[0]) && PortOk(m.port) && IsAddress(m.conn.addr) &&
       (if k == RtxKind then IsHost(m.conn.addr) else IsMulticast(m.conn)) then
      Some(WithStream(st, k, StreamAt(st, k).(
        addr := m.conn.addr.value, rtpPort := m.port, pt := m.payloadTypes[0], mid := "")))
    else None
  }

  function AttrLine(st: State, k: Kind, m: Media, a: Attr): Option<State> {
    var s := StreamAt(st, k);
    match a
    case SendOnlyAttr => Some(WithStream(st, k, s.(status := SendOnly)))
    case RecvOnlyAttr => Some(WithStream(st, k, s.(status := RecvOnly)))
    case InactiveAttr => Some(WithStream(st, k, s.(status := Inactive)))
    case SourceFilter(incl, dest, sources) =>
      if incl && IsAddress(dest) && dest == m.conn.addr && |sources| == 1 && IsHost(sources[0]) then
        Some(FilterSet(st, k, sources[0].value))
      else None
    case RtpMap(pt, _, _) => if PayloadTypeOk(pt) && pt == s.pt then Some(st) else None
    case Rtcp(port, target) => RtcpLine(st, k, port, target)
    case RtcpFb(pt, nack) =>
      if nack.None? || (k in {OrigKind, ReKind} && pt != s.pt) then None
      else Some(st.(er := st.er || nack.value == "", fcc := st.fcc || nack.value == "pli"))
    case Mid(id) => Some(WithStream(st, k, s.(mid := id)))
    case Fmtp(_, _, _, _, _) => FmtpLine(st, k, m, a)
    case OtherAttr => Some(st)
  }

  /** Where the source of an a=source-filter line goes. */
  function FilterSet(st: State, k: Kind, src: Addr): State {
    match k
    case ReKind => st.(reFilter := Some(src))
    case RtxKind => st
    case _ => WithStream(st, k, StreamAt(st, k).(srcAddr := src))
  }

  function RtcpLine(st: State, k: Kind, port: nat, target: Target): Option<State> {
    if PortOk(port) && (target.Target? ==> IsHost(target.addr)) then
      var st1 := WithStream(st, k, StreamAt(st, k).(rtcpPort := port));
      Some(if k in {OrigKind, ReKind} && target.Target? then st1.(fbt := target.addr.value) else st1)
    else None
  }

  /** In a retransmission section each line is read; in an original section the first one is. */
  function FmtpLine(st: State, k: Kind, m: Media, a: Attr): Option<State>
    requires a.Fmtp?
  {
    match k
    case RtxKind =>
      if a.retransmission && a.pt == st.rtx.pt then
        Some(st.(apt := if a.apt > 0 then a.apt % 256 else st.apt,
                 time := if a.rtxTime > 0 then a.rtxTime else st.time))
      else None
    case OrigKind =>
      var f := FirstFmtp(m.attrs);
      if f.Some? && f.value.pt == st.orig.pt && f.value.perRcvrBw <= MAX_BW
        then Some(st.(perRcvrBw := f.value.perRcvrBw))
      else None
    case _ => Some(st)
  }

  function AttrLines(st: State, k: Kind, m: Media, attrs: seq<Attr>): Option<State>
    decreases |attrs|
  {
    if attrs == [] then Some(st)
    else
      var r := AttrLine(st, k, m, attrs[0]);
      if r.None? then None else AttrLines(r.value, k, m, attrs[1..])
  }

  /** The lines of an active section of a known kind. */
  function ReadLines(st: State, k: Kind, m: Media): Option<State> {
    var st1 := if k == OrigKind then st.(proto := if m.transport == Udp then UdpStream else RtpStream) else st;
    if k == OrigKind && m.bandwidths == [] then None
    else
      var b := BandwidthLines(st1, k, m.bandwidths);
      if b.None? then None
      else
        var l := MediaLine(b.value, k, m);
        if l.None? then None else AttrLines(l.value, k, m, m.attrs)
  }

  function Section(st: State, m: Media): Option<State> {
    var u := UdpOriginal(st, m);
    if u.None? || !Active(m) then u
    else
      var k := KindOf(u.value, m);
      if k.None? then u else ReadLines(u.value, k.value, m)
  }

  function Sections(st: State, ms: seq<Media>): Option<State>
    decreases |ms|
  {
    if ms == [] then Some(st)
    else
      var r := Section(st, ms[0]);
      if r.None? then None else Sections(r.value, ms[1..])
  }

  // ----- role, mode and groups -----

  /** The table of roles and modes, with the media ids that must be there. */
  function RoleAndMode(st: State): Option<(Role, Mode)> {
    var o, r, u := st.orig.status, st.re.status, st.rtx.status;
    if o == SendOnly && r == Inactive && u == Inactive then Some((SsmDs, DistributionMode))
    else if o == RecvOnly && r == SendOnly && u == SendOnly then
      if st.re.mid != "" && st.rtx.mid != "" then Some((Vam, SourceMode)) else None
    else if o == RecvOnly && r == Inactive && u == SendOnly then
      if st.orig.mid != "" && st.rtx.mid != "" then Some((Vam, LookasideMode)) else None
    else if o == Inactive && r == RecvOnly && u == RecvOnly then
      if st.re.mid != "" && st.rtx.mid != "" then Some((Stb, SourceMode)) else None
    else if o == RecvOnly && r == Inactive && u == RecvOnly then
      if st.orig.mid != "" && st.rtx.mid != "" then Some((Stb, LookasideMode)) else None
    else if o == RecvOnly && r == Inactive && u == Inactive then Some((Stb, RecvOnlyMode))
    else None
  }

  /** The stream that FEC protects and that retransmissions repair. */
  function Protected(st: State, mode: Mode): Stream { if mode == SourceMode then st.re else st.orig }

  predicate FecOn(st: State) { st.fec1.status == RecvOnly && st.fec2.status != SendOnly }

  predicate FecTwo(st: State) { FecOn(st) && st.fec2.status == RecvOnly }

  /** The media ids that FEC needs. */
  predicate FecMidsOk(st: State, mode: Mode) {
    FecOn(st) && mode != DistributionMode ==>
      Protected(st, mode).mid != "" && st.fec1.mid != "" && (FecTwo(st) ==> st.fec2.mid != "")
  }

  predicate OccursAt(t: string, s: string, i: nat) { i + |t| <= |s| && s[i..i + |t|] == t }

  /** strstr. */
  predicate Substring(t: string, s: string) { exists i :: 0 <= i <= |s| && OccursAt(t, s, i) }

  /** The ids of a group line, each followed by a space. */
  function Label(ids: seq<string>): string { if ids == [] then "" else ids[0] + " " + Label(ids[1..]) }

  predicate FidOk(st: State, mode: Mode, g: Group) {
    |g.ids| == 2 && Substring(Protected(st, mode).mid, Label(g.ids)) && Substring(st.rtx.mid, Label(g.ids))
  }

  predicate FecGroupOk(st: State, mode: Mode, g: Group) {
    && |g.ids| == (if FecTwo(st) then 3 else 2)
    && (mode != DistributionMode ==>
        && Substring(Protected(st, mode).mid, Label(g.ids)) && Substring(st.fec1.mid, Label(g.ids))
        && (FecTwo(st) ==> Substring(st.fec2.mid, Label(g.ids))))
  }

  function FirstGroups(groups: seq<Group>): seq<Group> {
    if |groups| < MAX_GROUP_LINES then groups else groups[..MAX_GROUP_LINES - 1]
  }

  predicate FidsOk(st: State, mode: Mode, gs: seq<Group>) {
    && (exists i :: 0 <= i < |gs| && gs[i].kind == Fid)
    && (forall i :: 0 <= i < |gs| && gs[i].kind == Fid ==> FidOk(st, mode, gs[i]))
  }

  predicate FecsOk(st: State, mode: Mode, gs: seq<Group>) {
    && (exists i :: 0 <= i < |gs| && gs[i].kind == Fec)
    && (forall i :: 0 <= i < |gs| && gs[i].kind == Fec ==> FecGroupOk(st, mode, gs[i]))
  }

  /** The first two group lines count; a line that is needed must be there, and those there must be right. */
  predicate GroupsOk(st: State, mode: Mode, groups: seq<Group>) {
    (UsesRtx(mode) ==> FidsOk(st, mode, FirstGroups(groups))) && (FecOn(st) ==> FecsOk(st, mode, FirstGroups(groups)))
  }

  // ----- the final pass -----

  /**
   check_rtcp_port: a missing RTCP port becomes the port after the RTP port. The one is added to the value
   in network byte order, so on a little-endian machine the carry out of the low octet is lost.
   */
  function CheckRtcpPort(rtp: Port, rtcp: Port): Option<Port> {
    if rtcp != 0 then Some(rtcp)
    else if rtp == MAX_PORT then None
    else Some(ByteSwap((ByteSwap(rtp) + ByteSwap(1)) % 0x1_0000))
  }

  /** The original stream over RTP needs an RTCP port; over UDP it may lack one. */
  function OriginalRtcp(st: State): Option<Port> {
    if st.proto == RtpStream then CheckRtcpPort(st.orig.rtpPort, st.orig.rtcpPort) else Some(st.orig.rtcpPort)
  }

  /** What is asked of a VAM. */
  predicate VamOk(st: State) {
    && !(st.bitRate == 0 && st.orig.sndrBw == BW_UNSPECIFIED && st.orig.rcvrBw == BW_UNSPECIFIED &&
         st.perRcvrBw == BW_UNSPECIFIED)
    && (st.proto == RtpStream ==> st.orig.rtpPort != st.orig.rtcpPort && OriginalRtcp(st).Some?)
  }

  /** RTCP is turned off on the stream that is repaired. */
  predicate RtcpOff(st: State, mode: Mode) {
    if mode == SourceMode then st.re.sndrBw == 0 && st.re.rcvrBw == 0
    else
      mode == LookasideMode &&
      (st.perRcvrBw == 0 || (st.perRcvrBw == BW_UNSPECIFIED && st.orig.sndrBw == 0 && st.orig.rcvrBw == 0))
  }

  /** The feedback target defaults to the address of the retransmission stream. */
  function FeedbackTarget(st: State, mode: Mode): Addr {
    if UsesRtx(mode) && st.fbt == 0 then st.rtx.addr else st.fbt
  }

  /**
   The checks that depend on the mode, on the ports as they were read: a port that the default rule fills
   in never equals the RTP port, so it makes no difference that the code may compare after that. In source
   mode the source address of the re-sourced stream must be the feedback target; without a filter it
   cannot be.
   */
  predicate ModeOk(st: State, mode: Mode) {
    match mode
    case SourceMode =>
      && st.re.rtpPort != st.re.rtcpPort
      && st.orig.addr != st.re.addr
      && st.reFilter == Some(FeedbackTarget(st, mode))
      && st.re.pt == st.apt
    case LookasideMode => st.orig.pt == st.apt && FeedbackOk(st, mode) && st.orig.rtpPort != st.orig.rtcpPort
    case RecvOnlyMode => FeedbackOk(st, mode) && st.orig.rtpPort != st.orig.rtcpPort
    case DistributionMode => st.orig.rtpPort != st.orig.rtcpPort
    case UnspecifiedMode => true
  }

  predicate FeedbackOk(st: State, mode: Mode) {
    FeedbackTarget(st, mode) == 0 ==> st.perRcvrBw == 0 && st.orig.sndrBw == 0 && st.orig.rcvrBw == 0
  }

  /** Two streams on one address have four different ports. */
  predicate PortsApart(a: Addr, rtpA: Port, rtcpA: Port, b: FecStream) {
    a == b.addr ==> rtpA != b.rtpPort && rtpA != b.rtcpPort && rtcpA != b.rtcpPort && rtcpA != b.rtpPort
  }

  predicate FecOk(c: ChannelCfg) {
    c.fecEnable ==>
      && c.fec1.rtpPort != c.fec1.rtcpPort
      && PortsApart(c.orig.addr, c.orig.port, c.orig.rtcpPort, c.fec1)
      && (c.fecMode == Fec2D ==>
          && c.fec2.rtpPort != c.fec2.rtcpPort
          && PortsApart(c.orig.addr, c.orig.port, c.orig.rtcpPort, c.fec2)
          && (c.fec1.addr == c.fec2.addr ==>
              && c.fec1.rtpPort != c.fec2.rtpPort && c.fec1.rtpPort != c.fec2.rtcpPort
              && c.fec1.rtcpPort != c.fec2.rtpPort
              && (c.fec1.rtcpPort == c.fec2.rtcpPort ==> c.fec1.rtcpPort == 0)))
  }

  /** The RTCP ports after the default rule; in source mode the original one is filled in for a VAM only. */
  function OrigRtcpOf(st: State, role: Role, mode: Mode): Option<Port> {
    if mode == SourceMode && role != Vam then Some(st.orig.rtcpPort) else OriginalRtcp(st)
  }

  function ReRtcpOf(st: State, mode: Mode): Option<Port> {
    if mode == SourceMode then CheckRtcpPort(st.re.rtpPort, st.re.rtcpPort) else Some(st.re.rtcpPort)
  }

  function RtxRtcpOf(st: State, mode: Mode): Option<Port> {
    if UsesRtx(mode) then CheckRtcpPort(st.rtx.rtpPort, st.rtx.rtcpPort) else Some(st.rtx.rtcpPort)
  }

  /** The retransmission ports differ from each other and from the original RTCP port. */
  predicate RtxOk(st: State, mode: Mode, origRtcp: Port, rtxRtcp: Port) {
    UsesRtx(mode) ==>
      st.rtx.rtpPort != st.rtx.rtcpPort && rtxRtcp != origRtcp && FeedbackTarget(st, mode) != 0
  }

  function FecOf(s: Stream): FecStream { FecStream(s.addr, s.srcAddr, s.rtpPort, s.rtcpPort, s.pt, s.sndrBw, s.rcvrBw) }

  /** The channel record of a state whose role, mode and RTCP ports are settled. */
  function ChannelOf(
    d: Description, st: State, role: Role, mode: Mode, origRtcp: Port, reRtcp: Port, rtxRtcp: Port, chksum: nat)
    : ChannelCfg
  {
    var repair := st.rtx.status != Inactive && !RtcpOff(st, mode);
    ChannelCfg(
      NameOf(d), SessionKeyOf(d), Number(d.version), d.stopTime == "0", false, mode, role,
      Original(st.proto, st.orig.addr, st.orig.srcAddr, st.orig.rtpPort, origRtcp, st.orig.pt,
               st.bitRate, st.orig.sndrBw, st.orig.rcvrBw, st.perRcvrBw),
      ReSourced(st.re.addr, st.re.rtpPort, reRtcp, st.re.pt, st.re.sndrBw, st.re.rcvrBw),
      FeedbackTarget(st, mode),
      Rtx(st.rtx.addr, st.rtx.rtpPort, rtxRtcp, st.rtx.pt, st.apt, st.time, st.rtx.sndrBw, st.rtx.rcvrBw),
      repair && st.er, repair && st.fcc,
      FecOn(st), if FecTwo(st) then Fec2D else Fec1D, FecOf(st.fec1), FecOf(st.fec2), chksum)
  }

  /** Everything after the sections have been read. */
  function Settle(d: Description, st: State, chksum: nat): Option<ChannelCfg> {
    var rm := RoleAndMode(st);
    if rm.None? then None
    else
      var (role, mode) := rm.value;
      if !(FecMidsOk(st, mode) && GroupsOk(st, mode, d.groups) && d.rtcpUnicast != OtherMode) then None
      else if (role == Vam && !VamOk(st)) || !ModeOk(st, mode) then None
      else SettlePorts(d, st, role, mode, chksum)
  }

  function SettlePorts(d: Description, st: State, role: Role, mode: Mode, chksum: nat): Option<ChannelCfg> {
    var o, r, x := OrigRtcpOf(st, role, mode), ReRtcpOf(st, mode), RtxRtcpOf(st, mode);
    if o.None? || r.None? || x.None? || !RtxOk(st, mode, o.value, x.value) then None
    else
      var c := ChannelOf(d, st, role, mode, o.value, r.value, x.value, chksum);
      if FecOk(c) then Some(c) else None
  }

  // ----- the session level -----

  /** atoll on a string of digits. */
  function Number(s: string): nat {
    if s == [] || !('0' <= s[|s| - 1] <= '9') then 0
    else 10 * Number(s[..|s| - 1]) + (s[|s| - 1] as int - '0' as int)
  }

  function SessionKeyOf(d: Description): string {
    SdpHandle.Clip(SdpHandle.KeyOf(SdpHandle.Internet(d.username, d.sessionId, d.creator)), SdpHandle.MAX_KEY_LENGTH)
  }

  /** strncpy into a field of SDP_MAX_STRING_LEN bytes. */
  function NameOf(d: Description): string {
    if |d.name| <= SdpHandle.SDP_MAX_STRING_LEN then d.name else d.name[..SdpHandle.SDP_MAX_STRING_LEN]
  }

  predicate SessionOk(d: Description) {
    |d.version| < 20 && Number(d.version) <= MAX_VERSION && d.internet && d.startTime == "0" &&
    |d.media| >= MIN_LINEAR_SESSIONS
  }

  /** linear_validation_and_extraction. */
  function Validate(d: Description, chksum: nat): Option<ChannelCfg> {
    if !SessionOk(d) then None
    else
      var st := Sections(START, d.media);
      if st.None? then None else Settle(d, st.value, chksum)
  }
}
