/**
 The loops of linear_validation_and_extraction and its helpers: over sections, bandwidth lines,
 attributes and group lines. They are proved to compute SdpValidation.
 */
module SdpValidator {
  import opened Options
  import opened ChannelMap
  import opened Channels
  import opened SdpDescription
  import opened SdpValidation
  import opened SdpSound
  import opened AcceptedChannels
  import opened Registration

  /** get_bit_rate. */
  method GetBitRate(bws: seq<Bandwidth>) returns (rate: Option<nat>)
    ensures rate == BitRate(bws)
  {
    var i := 0;
    while i < |bws|
      invariant 0 <= i <= |bws| && BitRate(bws) == BitRate(bws[i..])
    {
      if bws[i].modifier == AS {
        return Some(bws[i].value);
      }
      assert bws[i..][1..] == bws[i + 1..];
      i := i + 1;
    }
    rate := None;
  }

  /** The check for a=sendonly and a=recvonly before a section is read. */
  method IsSessionActive(m: Media) returns (active: bool)
    ensures active <==> Active(m)
  {
    active := false;
    var j := 0;
    while j < |m.attrs|
      invariant 0 <= j <= |m.attrs|
      invariant active <==> exists i :: 0 <= i < j && (m.attrs[i].SendOnlyAttr? || m.attrs[i].RecvOnlyAttr?)
    {
      if m.attrs[j].SendOnlyAttr? || m.attrs[j].RecvOnlyAttr? {
        active := true;
      }
      j := j + 1;
    }
  }

  /** figure_out_session_type: the first a=rtpmap line decides. */
  method FigureOutSessionType(st: State, m: Media) returns (k: Option<Kind>)
    ensures k == KindOf(st, m)
  {
    if !m.video {
      return None;
    }
    var i := 0;
    while i < |m.attrs|
      invariant 0 <= i <= |m.attrs| && FirstRtpMap(m.attrs) == FirstRtpMap(m.attrs[i..])
    {
      match m.attrs[i] {
        case RtpMap(_, encoding, clockRate) =>
          if clockRate != 90000 {
            return None;
          }
          match encoding {
            case EncRtx => return if !IsMulticast(m.conn) && m.transport == RtpAvpf then Some(RtxKind) else None;
            case EncMp2t =>
              if m.transport == RtpAvp || m.transport == Udp {
                return Some(OrigKind);
              }
              var rate := GetBitRate(m.bandwidths);
              return Some(if rate.Some? then OrigKind else ReKind);
            case EncParity => return if IsMulticast(m.conn) && m.transport == RtpAvp then Some(Fec1Kind) else None;
            case Enc2dParity =>
              if IsMulticast(m.conn) && m.transport == RtpAvp {
                return Some(if st.fec1.pt == 0 then Fec1Kind else Fec2Kind);
              }
              return None;
            case EncOther => return None;
          }
        case _ =>
      }
      assert m.attrs[i..][1..] == m.attrs[i + 1..];
      i := i + 1;
    }
    k := None;
  }

  method ReadBandwidths(st: State, k: Kind, bws: seq<Bandwidth>) returns (r: Option<State>)
    ensures r == BandwidthLines(st, k, bws)
  {
    var now := st;
    var j := 0;
    while j < |bws|
      invariant 0 <= j <= |bws| && BandwidthLines(st, k, bws) == BandwidthLines(now, k, bws[j..])
    {
      var next := BandwidthLine(now, k, bws[j]);
      if next.None? {
        return None;
      }
      assert bws[j..][1..] == bws[j + 1..];
      now := next.value;
      j := j + 1;
    }
    r := Some(now);
  }

  method ReadAttributes(st: State, k: Kind, m: Media) returns (r: Option<State>)
    ensures r == AttrLines(st, k, m, m.attrs)
  {
    var now := st;
    var j := 0;
    while j < |m.attrs|
      invariant 0 <= j <= |m.attrs| && AttrLines(st, k, m, m.attrs) == AttrLines(now, k, m, m.attrs[j..])
    {
      var next := AttrLine(now, k, m, m.attrs[j]);
      if next.None? {
        return None;
      }
      assert m.attrs[j..][1..] == m.attrs[j + 1..];
      now := next.value;
      j := j + 1;
    }
    r := Some(now);
  }

  /** One round of the loop over media sections. */
  method ReadSection(st: State, m: Media) returns (r: Option<State>)
    ensures r == Section(st, m)
  {
    var active := IsSessionActive(m);
    var now := st;
    if IsMulticast(m.conn) && m.transport == Udp {
      var rate := GetBitRate(m.bandwidths);
      if !IsAddress(m.conn.addr) || !PortOk(m.port) || rate.None? || !BitRateOk(rate.value) {
        return None;
      }
      now := now.(orig := now.orig.(addr := m.conn.addr.value, rtpPort := m.port), bitRate := rate.value * 1000);
    }
    if !active {
      return Some(now);
    }
    var k := FigureOutSessionType(now, m);
    if k.None? {
      return Some(now);
    }
    if k.value == OrigKind {
      now := now.(proto := if m.transport == Udp then UdpStream else RtpStream);
      if m.bandwidths == [] {
        return None;
      }
    }
    r := ReadBandwidths(now, k.value, m.bandwidths);
    if r.Some? {
      r := MediaLine(r.value, k.value, m);
      if r.Some? {
        r := ReadAttributes(r.value, k.value, m);
      }
    }
  }

  method ReadSections(ms: seq<Media>) returns (r: Option<State>)
    ensures r == Sections(START, ms)
  {
    var now := START;
    var i := 0;
    while i < |ms|
      invariant 0 <= i <= |ms| && Sections(START, ms) == Sections(now, ms[i..])
    {
      var next := ReadSection(now, ms[i]);
      if next.None? {
        return None;
      }
      assert ms[i..][1..] == ms[i + 1..];
      now := next.value;
      i := i + 1;
    }
    r := Some(now);
  }

  /** The loop over a=group lines. */
  method CheckGroups(st: State, mode: Mode, groups: seq<Group>) returns (ok: bool)
    ensures ok <==> GroupsOk(st, mode, groups)
  {
    ghost var gs := FirstGroups(groups);
    var foundFid, foundFec := false, false;
    var j := 1;
    while j < MAX_GROUP_LINES && j <= |groups|
      invariant 1 <= j <= |gs| + 1
      invariant foundFid <==> UsesRtx(mode) && exists i :: 0 <= i < j - 1 && gs[i].kind == Fid
      invariant foundFec <==> FecOn(st) && exists i :: 0 <= i < j - 1 && gs[i].kind == Fec
      invariant UsesRtx(mode) ==> forall i :: 0 <= i < j - 1 && gs[i].kind == Fid ==> FidOk(st, mode, gs[i])
      invariant FecOn(st) ==> forall i :: 0 <= i < j - 1 && gs[i].kind == Fec ==> FecGroupOk(st, mode, gs[i])
    {
      var g := groups[j - 1];
      assert g == gs[j - 1];
      if g.kind == Fid && UsesRtx(mode) {
        foundFid := true;
        if !FidOk(st, mode, g) {
          return false;
        }
      }
      if g.kind == Fec && FecOn(st) {
        foundFec := true;
        if !FecGroupOk(st, mode, g) {
          assert !FecsOk(st, mode, gs);
          return false;
        }
      }
      j := j + 1;
    }
    ok := (UsesRtx(mode) ==> foundFid) && (FecOn(st) ==> foundFec);
  }

  // ----- the final pass, in the order of the source -----

  /** The checks on FEC ports, one after the other. */
  method FecPass(c: ChannelCfg) returns (ok: bool)
    ensures ok <==> FecOk(c)
  {
    if !c.fecEnable {
      return true;
    }
    var o, f, g := c.orig, c.fec1, c.fec2;
    if f.rtpPort == f.rtcpPort {
      return false;
    }
    if o.addr == f.addr {
      if o.port == f.rtpPort || o.port == f.rtcpPort || o.rtcpPort == f.rtcpPort || o.rtcpPort == f.rtpPort {
        return false;
      }
    }
    if c.fecMode == Fec2D {
      if g.rtpPort == g.rtcpPort {
        return false;
      }
      if o.addr == g.addr {
        if o.port == g.rtpPort || o.port == g.rtcpPort || o.rtcpPort == g.rtcpPort || o.rtcpPort == g.rtpPort {
          return false;
        }
      }
      if f.addr == g.addr {
        if f.rtpPort == g.rtpPort || f.rtpPort == g.rtcpPort || f.rtcpPort == g.rtpPort {
          return false;
        }
        if f.rtcpPort == g.rtcpPort && f.rtcpPort != 0 {
          return false;
        }
      }
    }
    ok := true;
  }

  /** A filled-in RTCP port is not the RTP port, and filling in twice changes nothing. */
  lemma {:induction false} FilledPort(rtp: Port, rtcp: Port)
    requires CheckRtcpPort(rtp, rtcp).Some?
    ensures rtcp == 0 ==> CheckRtcpPort(rtp, rtcp).value != rtp
    ensures CheckRtcpPort(rtp, CheckRtcpPort(rtp, rtcp).value) == CheckRtcpPort(rtp, rtcp)
  {
    if rtcp == 0 {
      NextInMemory(rtp / 256, rtp % 256);
      assert rtp == rtp / 256 * 256 + rtp % 256;
    }
  }

  /** The original stream of a VAM: bandwidth, ports, default RTCP port. */
  method VamPass(st: State) returns (rtcp: Option<Port>)
    ensures rtcp == if VamOk(st) then OriginalRtcp(st) else None
  {
    if st.bitRate == 0 && st.orig.sndrBw == BW_UNSPECIFIED && st.orig.rcvrBw == BW_UNSPECIFIED &&
       st.perRcvrBw == BW_UNSPECIFIED {
      return None;
    }
    if st.orig.rtpPort == st.orig.rtcpPort && st.proto == RtpStream {
      return None;
    }
    rtcp := Some(st.orig.rtcpPort);
    if st.proto == RtpStream {
      rtcp := CheckRtcpPort(st.orig.rtpPort, st.orig.rtcpPort);
    }
  }

  /** What the final pass fills in or turns off. */
  datatype Final = Final(origRtcp: Port, reRtcp: Port, fbt: Addr, er: bool, fcc: bool)

  /** The switch over modes; lookaside falls through to receive-only, and that to distribution. */
  method ModePass(st: State, role: Role, mode: Mode, origRtcp: Port) returns (f: Option<Final>)
    requires mode != UnspecifiedMode && (role == Vam ==> VamOk(st))
    requires Some(origRtcp) == if role == Vam then OriginalRtcp(st) else Some(st.orig.rtcpPort)
    ensures f.Some? <==> ModeOk(st, mode) && OrigRtcpOf(st, role, mode).Some? && ReRtcpOf(st, mode).Some?
    ensures f.Some? ==>
              var repair := st.rtx.status != Inactive && !RtcpOff(st, mode);
              f == Some(Final(OrigRtcpOf(st, role, mode).value, ReRtcpOf(st, mode).value,
                              FeedbackTarget(st, mode), repair && st.er, repair && st.fcc))
  {
    var rtcp, reRtcp, fbt := origRtcp, st.re.rtcpPort, st.fbt;
    var er, fcc := st.rtx.status != Inactive && st.er, st.rtx.status != Inactive && st.fcc;
    if mode == SourceMode {
      if st.re.rtpPort == reRtcp {
        return None;
      }
      var p := CheckRtcpPort(st.re.rtpPort, reRtcp);
      if p.None? || st.orig.addr == st.re.addr {
        return None;
      }
      reRtcp := p.value;
      if fbt == 0 {
        fbt := st.rtx.addr;
      }
      if st.reFilter != Some(fbt) || st.re.pt != st.apt {
        return None;
      }
      if st.re.sndrBw == 0 && st.re.rcvrBw == 0 {
        er, fcc := false, false;
      }
      return Some(Final(rtcp, reRtcp, fbt, er, fcc));
    }
    if mode == LookasideMode {
      if st.orig.pt != st.apt {
        return None;
      }
      if fbt == 0 {
        fbt := st.rtx.addr;
      }
      if st.perRcvrBw == 0 || (st.perRcvrBw == BW_UNSPECIFIED && st.orig.sndrBw == 0 && st.orig.rcvrBw == 0) {
        er, fcc := false, false;
      }
    }
    if mode == LookasideMode || mode == RecvOnlyMode {
      if fbt == 0 && (st.perRcvrBw != 0 || st.orig.sndrBw != 0 || st.orig.rcvrBw != 0) {
        return None;
      }
    }
    if role == Vam && st.proto == RtpStream {
      FilledPort(st.orig.rtpPort, st.orig.rtcpPort);
    }
    if st.orig.rtpPort == rtcp {
      return None;
    }
    if st.proto == RtpStream {
      var p := CheckRtcpPort(st.orig.rtpPort, rtcp);
      if p.None? {
        return None;
      }
      rtcp := p.value;
    }
    f := Some(Final(rtcp, reRtcp, fbt, er, fcc));
  }

  /** The retransmission stream: ports, default RTCP port, feedback target. */
  method RtxPass(st: State, mode: Mode, origRtcp: Port, fbt: Addr) returns (rtcp: Option<Port>)
    requires fbt == FeedbackTarget(st, mode)
    ensures var x := RtxRtcpOf(st, mode);
            rtcp == if x.Some? && RtxOk(st, mode, origRtcp, x.value) then x else None
  {
    rtcp := Some(st.rtx.rtcpPort);
    if mode == SourceMode || mode == LookasideMode {
      if st.rtx.rtpPort == st.rtx.rtcpPort {
        return None;
      }
      rtcp := CheckRtcpPort(st.rtx.rtpPort, st.rtx.rtcpPort);
      if rtcp.None? || rtcp.value == origRtcp || fbt == 0 {
        return None;
      }
    }
  }

  /** The final pass: the ports that the default rule fills in are compared as the code compares them. */
  method FinalPass(d: Description, st: State, role: Role, mode: Mode, chksum: nat) returns (c: Option<ChannelCfg>)
    requires mode != UnspecifiedMode
    ensures c == if (role == Vam && !VamOk(st)) || !ModeOk(st, mode) then None
            else SettlePorts(d, st, role, mode, chksum)
  {
    var rtcp := Some(st.orig.rtcpPort);
    if role == Vam {
      rtcp := VamPass(st);
      if rtcp.None? {
        return None;
      }
    }
    var f := ModePass(st, role, mode, rtcp.value);
    if f.None? {
      return None;
    }
    var rtxRtcp := RtxPass(st, mode, f.value.origRtcp, f.value.fbt);
    if rtxRtcp.None? {
      return None;
    }
    c := Extract(d, st, role, mode, f.value, rtxRtcp.value, chksum);
  }

  /** The channel record, if its FEC ports pass. */
  method Extract(d: Description, st: State, role: Role, mode: Mode, f: Final, rtxRtcp: Port, chksum: nat)
    returns (c: Option<ChannelCfg>)
    requires var repair := st.rtx.status != Inactive && !RtcpOff(st, mode);
             f.fbt == FeedbackTarget(st, mode) && f.er == (repair && st.er) && f.fcc == (repair && st.fcc)
    ensures var channel := ChannelOf(d, st, role, mode, f.origRtcp, f.reRtcp, rtxRtcp, chksum);
            c == if FecOk(channel) then Some(channel) else None
  {
    var channel := ChannelCfg(
      NameOf(d), SessionKeyOf(d), Number(d.version), d.stopTime == "0", false, mode, role,
      Original(st.proto, st.orig.addr, st.orig.srcAddr, st.orig.rtpPort, f.origRtcp, st.orig.pt,
               st.bitRate, st.orig.sndrBw, st.orig.rcvrBw, st.perRcvrBw),
      ReSourced(st.re.addr, st.re.rtpPort, f.reRtcp, st.re.pt, st.re.sndrBw, st.re.rcvrBw), f.fbt,
      Rtx(st.rtx.addr, st.rtx.rtpPort, rtxRtcp, st.rtx.pt, st.apt, st.time, st.rtx.sndrBw, st.rtx.rcvrBw),
      f.er, f.fcc, FecOn(st), if FecTwo(st) then Fec2D else Fec1D, FecOf(st.fec1), FecOf(st.fec2), chksum);
    var ok := FecPass(channel);
    c := if ok then Some(channel) else None;
  }

  /**
   linear_validation_and_extraction. Besides computing Validate, it accepts only sound channels, and tells
   by their ports alone whether they can be registered.
   */
  method ValidateAndExtract(d: Description, chksum: nat) returns (c: Option<ChannelCfg>)
    ensures c == Validate(d, chksum)
    ensures c.Some? ==> Sound(c.value) && (OwnKeysOk(c.value) <==> Usable(c.value))
    ensures c.Some? ==> SessionGives(d, c.value, chksum) && FieldsFrom(d.media, c.value)
  {
    if !SessionOk(d) {
      return None;
    }
    var st := ReadSections(d.media);
    if st.None? {
      return None;
    }
    var rm := RoleAndMode(st.value);
    if rm.None? {
      return None;
    }
    var (role, mode) := rm.value;
    if !FecMidsOk(st.value, mode) {
      return None;
    }
    var ok := CheckGroups(st.value, mode, d.groups);
    if !ok || d.rtcpUnicast == OtherMode {
      return None;
    }
    c := FinalPass(d, st.value, role, mode, chksum);
    if c.Some? {
      AcceptedByField(d, chksum);
      AcceptedIsSound(d, chksum);
      SoundKeysIff(c.value);
    }
  }
}
