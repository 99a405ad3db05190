/**
 Which descriptions validation accepts, and what channel each accepted one gives: the role table, the group
 lines, the checks of each mode and every field of the record, in terms of what Described says was read.
 */
module AcceptedChannels {
  import opened Options
  import opened ChannelMap
  import opened Channels
  import opened SdpDescription
  import opened SdpValidation
  import opened SdpSound
  import opened DescribedSections
  import opened Described
  import SdpHandle

  // ----- the session level -----

  predicate SessionFits(d: Description) {
    && |d.version| < 20 && Number(d.version) <= MAX_VERSION
    && d.internet && d.startTime == "0" && |d.media| >= 3 && d.rtcpUnicast != OtherMode
  }

  /** The name is cut at 81 characters, and a stop time makes the channel inactive. */
  predicate SessionGives(d: Description, c: ChannelCfg, chksum: nat) {
    && c.name <= d.name && |c.name| == (if |d.name| < 81 then |d.name| else 81)
    && c.sessionKey ==
       SdpHandle.Clip("INIP4#" + d.username + "#" + d.sessionId + "#" + d.creator, SdpHandle.MAX_KEY_LENGTH)
    && c.version == Number(d.version) && c.chksum == chksum && !c.used
    && (c.active <==> d.stopTime == "0")
  }

  // ----- roles and groups -----

  /** The statuses of the original, re-sourced and retransmission streams that make each role and mode. */
  const ROLES := {
    (SendOnly, Inactive, Inactive, SsmDs, DistributionMode),
    (RecvOnly, SendOnly, SendOnly, Vam, SourceMode),
    (RecvOnly, Inactive, SendOnly, Vam, LookasideMode),
    (Inactive, RecvOnly, RecvOnly, Stb, SourceMode),
    (RecvOnly, Inactive, RecvOnly, Stb, LookasideMode),
    (RecvOnly, Inactive, Inactive, Stb, RecvOnlyMode)}

  /** The role, and the ids of the streams that are repaired and protected. */
  predicate RoleIs(st: State, role: Role, mode: Mode) {
    && (st.orig.status, st.re.status, st.rtx.status, role, mode) in ROLES
    && (mode == SourceMode ==> st.re.mid != "" && st.rtx.mid != "")
    && (mode == LookasideMode ==> st.orig.mid != "" && st.rtx.mid != "")
  }

  predicate Receives(st: State) { st.fec1.status == RecvOnly && st.fec2.status != SendOnly }

  /** The streams that FEC protects have ids. */
  predicate FecNamed(st: State, mode: Mode) {
    Receives(st) && mode != DistributionMode ==>
      && (if mode == SourceMode then st.re.mid else st.orig.mid) != ""
      && st.fec1.mid != "" && (st.fec2.status == RecvOnly ==> st.fec2.mid != "")
  }

  /** The group line has this many ids, and its text mentions these. */
  predicate Mentions(g: Group, n: nat, mids: seq<string>) {
    |g.ids| == n && forall i :: 0 <= i < |mids| ==> Substring(mids[i], Label(g.ids))
  }

  /** Of three or more group lines only the first two are looked at. */
  predicate Seen(groups: seq<Group>, i: nat) { i < |groups| && (|groups| < 3 || i < 2) }

  /** A retransmission line is there if the mode needs one, and each that is there is right. */
  ghost predicate FidsFit(groups: seq<Group>, st: State, mode: Mode) {
    mode == SourceMode || mode == LookasideMode ==>
      var mid := if mode == SourceMode then st.re.mid else st.orig.mid;
      && (exists i: nat :: Seen(groups, i) && groups[i].kind == Fid)
      && (forall i: nat :: Seen(groups, i) && groups[i].kind == Fid ==> Mentions(groups[i], 2, [mid, st.rtx.mid]))
  }

  /** The same for an FEC line, if FEC is received. */
  ghost predicate FecsFit(groups: seq<Group>, st: State, mode: Mode) {
    Receives(st) ==>
      var mid := if mode == SourceMode then st.re.mid else st.orig.mid;
      var two := st.fec2.status == RecvOnly;
      && (exists i: nat :: Seen(groups, i) && groups[i].kind == Fec)
      && (forall i: nat :: Seen(groups, i) && groups[i].kind == Fec ==>
            Mentions(groups[i], if two then 3 else 2,
                     if mode == DistributionMode then []
                     else [mid, st.fec1.mid] + if two then [st.fec2.mid] else []))
  }

  lemma {:induction false} RoleIsIff(st: State, role: Role, mode: Mode)
    ensures RoleAndMode(st) == Some((role, mode)) <==> RoleIs(st, role, mode)
  {
  }

  lemma {:induction false} FirstGroupsSeen(groups: seq<Group>, i: nat)
    ensures i < |FirstGroups(groups)| <==> Seen(groups, i)
    ensures Seen(groups, i) ==> FirstGroups(groups)[i] == groups[i]
  {
  }

  lemma {:induction false} FidOkIff(st: State, mode: Mode, g: Group)
    ensures FidOk(st, mode, g) <==>
            Mentions(g, 2, [if mode == SourceMode then st.re.mid else st.orig.mid, st.rtx.mid])
  {
    var mids := [if mode == SourceMode then st.re.mid else st.orig.mid, st.rtx.mid];
    assert mids[0] == Protected(st, mode).mid && mids[1] == st.rtx.mid;
  }

  lemma {:induction false} FecGroupOkIff(st: State, mode: Mode, g: Group)
    requires Receives(st)
    ensures var mid, two := if mode == SourceMode then st.re.mid else st.orig.mid, st.fec2.status == RecvOnly;
            FecGroupOk(st, mode, g) <==>
            Mentions(g, if two then 3 else 2,
                     if mode == DistributionMode then []
                     else [mid, st.fec1.mid] + if two then [st.fec2.mid] else [])
  {
    var two := st.fec2.status == RecvOnly;
    var mids := [Protected(st, mode).mid, st.fec1.mid] + if two then [st.fec2.mid] else [];
    assert mids[0] == Protected(st, mode).mid && mids[1] == st.fec1.mid;
    assert two ==> mids[2] == st.fec2.mid;
  }

  lemma {:induction false} FidsOkIff(st: State, mode: Mode, groups: seq<Group>)
    requires UsesRtx(mode)
    ensures FidsOk(st, mode, FirstGroups(groups)) <==> FidsFit(groups, st, mode)
  {
    var gs := FirstGroups(groups);
    forall i: nat
      ensures i < |gs| <==> Seen(groups, i)
      ensures i < |gs| ==> gs[i] == groups[i]
      ensures i < |gs| ==>
              (FidOk(st, mode, gs[i]) <==>
               Mentions(gs[i], 2, [if mode == SourceMode then st.re.mid else st.orig.mid, st.rtx.mid]))
    {
      FirstGroupsSeen(groups, i);
      if i < |gs| {
        FidOkIff(st, mode, gs[i]);
      }
    }
  }

  lemma {:induction false} FecsOkIff(st: State, mode: Mode, groups: seq<Group>)
    requires Receives(st)
    ensures FecsOk(st, mode, FirstGroups(groups)) <==> FecsFit(groups, st, mode)
  {
    var gs := FirstGroups(groups);
    forall i: nat
      ensures i < |gs| <==> Seen(groups, i)
      ensures i < |gs| ==> gs[i] == groups[i]
    {
      FirstGroupsSeen(groups, i);
    }
    forall i | 0 <= i < |gs| {
      FecGroupOkIff(st, mode, gs[i]);
    }
  }

  lemma {:induction false} GroupsOkIff(st: State, mode: Mode, groups: seq<Group>)
    ensures GroupsOk(st, mode, groups) <==> FidsFit(groups, st, mode) && FecsFit(groups, st, mode)
  {
    if UsesRtx(mode) {
      FidsOkIff(st, mode, groups);
    }
    if Receives(st) {
      FecsOkIff(st, mode, groups);
    }
  }

  // ----- the checks of each role and mode -----

  /** Where feedback goes. */
  function TargetOf(st: State, mode: Mode): Addr {
    if mode in {SourceMode, LookasideMode} && st.fbt == 0 then st.rtx.addr else st.fbt
  }

  predicate ChecksFit(st: State, role: Role, mode: Mode) {
    var o, fbt := st.orig, TargetOf(st, mode);
    && (role == Vam ==> st.bitRate != 0 || {o.sndrBw, o.rcvrBw, st.perRcvrBw} != {BW_UNSPECIFIED})
    && (mode != SourceMode || (role == Vam && st.proto == RtpStream) ==> o.rtpPort != o.rtcpPort)
    && (mode == SourceMode ==>
        && st.re.rtpPort != st.re.rtcpPort && st.re.addr != o.addr
        && st.reFilter == Some(fbt) && st.re.pt == st.apt)
    && (mode == LookasideMode ==> o.pt == st.apt)
    && (mode == RecvOnlyMode && fbt == 0 ==> {o.sndrBw, o.rcvrBw, st.perRcvrBw} == {0})
    && (mode in {SourceMode, LookasideMode} ==> st.rtx.rtpPort != st.rtx.rtcpPort && fbt != 0)
  }

  /** A port that is not given is the next one, or 255 below if the low octet of the RTP port is 255. */
  predicate PortSettles(rtp: Port, given: Port, settled: Port) {
    if given != 0 then settled == given
    else rtp != 65535 && settled == if rtp % 256 == 255 then rtp - 255 else rtp + 1
  }

  predicate PortsSettle(st: State, c: ChannelCfg) {
    && (if st.proto == RtpStream && (c.mode != SourceMode || c.role == Vam)
        then PortSettles(st.orig.rtpPort, st.orig.rtcpPort, c.orig.rtcpPort)
        else c.orig.rtcpPort == st.orig.rtcpPort)
    && (if c.mode == SourceMode then PortSettles(st.re.rtpPort, st.re.rtcpPort, c.reSourced.rtcpPort)
        else c.reSourced.rtcpPort == st.re.rtcpPort)
    && (if c.mode in {SourceMode, LookasideMode} then
          PortSettles(st.rtx.rtpPort, st.rtx.rtcpPort, c.rtx.rtcpPort) && c.rtx.rtcpPort != c.orig.rtcpPort
        else c.rtx.rtcpPort == st.rtx.rtcpPort)
  }

  /** FEC streams that are received have ports of their own on every address they share. */
  predicate FecApart(c: ChannelCfg) {
    var o, f, g := c.orig, c.fec1, c.fec2;
    && (c.fecEnable ==>
        f.rtpPort != f.rtcpPort && (f.addr == o.addr ==> {f.rtpPort, f.rtcpPort} !! {o.port, o.rtcpPort}))
    && (c.fecEnable && c.fecMode == Fec2D ==>
        && g.rtpPort != g.rtcpPort && (g.addr == o.addr ==> {g.rtpPort, g.rtcpPort} !! {o.port, o.rtcpPort})
        && (f.addr == g.addr ==>
            && f.rtpPort !in {g.rtpPort, g.rtcpPort} && f.rtcpPort != g.rtpPort
            && (f.rtcpPort == g.rtcpPort ==> f.rtcpPort == 0)))
  }

  // ----- the record -----

  /** Reports on the stream that is repaired are turned off. */
  predicate Silent(c: ChannelCfg) {
    match c.mode
    case SourceMode => c.reSourced.sndrBw == 0 && c.reSourced.rcvrBw == 0
    case LookasideMode =>
      c.orig.perRcvrBw == 0 ||
      (c.orig.perRcvrBw == BW_UNSPECIFIED && c.orig.sndrBw == 0 && c.orig.rcvrBw == 0)
    case _ => false
  }

  predicate FecGives(s: Stream, f: FecStream) {
    && f.addr == s.addr && f.srcAddr == s.srcAddr && f.rtpPort == s.rtpPort && f.rtcpPort == s.rtcpPort
    && f.payloadType == s.pt && f.sndrBw == s.sndrBw && f.rcvrBw == s.rcvrBw
  }

  /** All fields but those of the session level and the RTCP ports. */
  predicate StateGives(st: State, c: ChannelCfg) {
    var o, r, x := c.orig, c.reSourced, c.rtx;
    && o.proto == st.proto && o.addr == st.orig.addr && o.srcAddr == st.orig.srcAddr && o.port == st.orig.rtpPort
    && o.payloadType == st.orig.pt && o.bitRate == st.bitRate
    && o.sndrBw == st.orig.sndrBw && o.rcvrBw == st.orig.rcvrBw && o.perRcvrBw == st.perRcvrBw
    && r.addr == st.re.addr && r.rtpPort == st.re.rtpPort && r.payloadType == st.re.pt
    && r.sndrBw == st.re.sndrBw && r.rcvrBw == st.re.rcvrBw
    && x.addr == st.rtx.addr && x.rtpPort == st.rtx.rtpPort && x.payloadType == st.rtx.pt
    && x.apt == st.apt && x.time == st.time && x.sndrBw == st.rtx.sndrBw && x.rcvrBw == st.rtx.rcvrBw
    && c.fbtAddr == TargetOf(st, c.mode)
    && (c.erEnable <==> st.er && st.rtx.status != Inactive && !Silent(c))
    && (c.fccEnable <==> st.fcc && st.rtx.status != Inactive && !Silent(c))
    && (c.fecEnable <==> Receives(st))
    && (c.fecMode == Fec2D <==> Receives(st) && st.fec2.status == RecvOnly)
    && FecGives(st.fec1, c.fec1) && FecGives(st.fec2, c.fec2)
  }

  // ----- when a state that was read settles, and to what -----

  ghost predicate SettledAs(d: Description, st: State, c: ChannelCfg, chksum: nat) {
    && SessionGives(d, c, chksum) && StateGives(st, c) && PortsSettle(st, c) && FecApart(c)
    && RoleIs(st, c.role, c.mode) && FecNamed(st, c.mode) && ChecksFit(st, c.role, c.mode)
    && FidsFit(d.groups, st, c.mode) && FecsFit(d.groups, st, c.mode)
  }

  lemma {:induction false} PortSettlesIff(rtp: Port, given: Port, settled: Port)
    ensures CheckRtcpPort(rtp, given) == Some(settled) <==> PortSettles(rtp, given, settled)
  {
    if given == 0 && rtp != 65535 {
      var hi, lo := rtp / 256, rtp % 256;
      assert rtp == hi * 256 + lo;
      NextInMemory(hi, lo);
    }
  }

  lemma {:induction false} PortsSettleIff(st: State, c: ChannelCfg)
    ensures PortsSettle(st, c) <==>
            && OrigRtcpOf(st, c.role, c.mode) == Some(c.orig.rtcpPort)
            && ReRtcpOf(st, c.mode) == Some(c.reSourced.rtcpPort)
            && RtxRtcpOf(st, c.mode) == Some(c.rtx.rtcpPort)
            && (UsesRtx(c.mode) ==> c.rtx.rtcpPort != c.orig.rtcpPort)
  {
    PortSettlesIff(st.orig.rtpPort, st.orig.rtcpPort, c.orig.rtcpPort);
    PortSettlesIff(st.re.rtpPort, st.re.rtcpPort, c.reSourced.rtcpPort);
    PortSettlesIff(st.rtx.rtpPort, st.rtx.rtcpPort, c.rtx.rtcpPort);
  }

  lemma {:induction false} ChecksFitIff(st: State, c: ChannelCfg)
    requires RoleIs(st, c.role, c.mode) && PortsSettle(st, c)
    ensures ChecksFit(st, c.role, c.mode) <==>
            && (c.role == Vam ==> VamOk(st)) && ModeOk(st, c.mode)
            && RtxOk(st, c.mode, c.orig.rtcpPort, c.rtx.rtcpPort)
  {
    PortsSettleIff(st, c);
    var o := st.orig;
    assert {o.sndrBw, o.rcvrBw, st.perRcvrBw} == {BW_UNSPECIFIED} <==>
           o.sndrBw == BW_UNSPECIFIED && o.rcvrBw == BW_UNSPECIFIED && st.perRcvrBw == BW_UNSPECIFIED by {
      assert o.sndrBw in {o.sndrBw, o.rcvrBw, st.perRcvrBw} && o.rcvrBw in {o.sndrBw, o.rcvrBw, st.perRcvrBw};
      assert st.perRcvrBw in {o.sndrBw, o.rcvrBw, st.perRcvrBw};
    }
    assert {o.sndrBw, o.rcvrBw, st.perRcvrBw} == {0} <==> o.sndrBw == 0 && o.rcvrBw == 0 && st.perRcvrBw == 0 by {
      assert o.sndrBw in {o.sndrBw, o.rcvrBw, st.perRcvrBw} && o.rcvrBw in {o.sndrBw, o.rcvrBw, st.perRcvrBw};
      assert st.perRcvrBw in {o.sndrBw, o.rcvrBw, st.perRcvrBw};
    }
  }

  lemma {:induction false} FecApartIff(c: ChannelCfg)
    ensures FecApart(c) <==> FecOk(c)
  {
  }

  lemma {:induction false} SessionGivesIff(d: Description, c: ChannelCfg, chksum: nat)
    ensures SessionGives(d, c, chksum) <==>
            && c.name == NameOf(d) && c.sessionKey == SessionKeyOf(d) && c.version == Number(d.version)
            && (c.active <==> d.stopTime == "0") && !c.used && c.chksum == chksum
  {
    assert SdpHandle.KeyOf(SdpHandle.Internet(d.username, d.sessionId, d.creator)) ==
           "INIP4#" + d.username + "#" + d.sessionId + "#" + d.creator;
    assert c.name <= d.name ==> c.name == d.name[..|c.name|];
  }

  /** The record is the one that is extracted from the state. */
  lemma {:induction false} RecordIff(d: Description, st: State, c: ChannelCfg, chksum: nat)
    ensures SessionGives(d, c, chksum) && StateGives(st, c) <==>
            c == ChannelOf(d, st, c.role, c.mode, c.orig.rtcpPort, c.reSourced.rtcpPort, c.rtx.rtcpPort, chksum)
  {
    SessionGivesIff(d, c, chksum);
  }

  lemma {:induction false} FecNamedIff(st: State, mode: Mode)
    ensures FecMidsOk(st, mode) <==> FecNamed(st, mode)
  {
  }

  lemma {:induction false} SettleIff(d: Description, st: State, c: ChannelCfg, chksum: nat)
    requires d.rtcpUnicast != OtherMode
    ensures Settle(d, st, chksum) == Some(c) <==> SettledAs(d, st, c, chksum)
  {
    RoleIsIff(st, c.role, c.mode);
    if RoleIs(st, c.role, c.mode) {
      FecNamedIff(st, c.mode);
      GroupsOkIff(st, c.mode, d.groups);
      PortsSettleIff(st, c);
      if PortsSettle(st, c) {
        ChecksFitIff(st, c);
      }
      FecApartIff(c);
      RecordIff(d, st, c, chksum);
    }
    if Settle(d, st, chksum) == Some(c) {
      SettledRole(d, st, c, chksum);
    }
  }

  /** What settles has the role and mode of the table, and the ports that were settled. */
  lemma {:induction false} SettledRole(d: Description, st: State, c: ChannelCfg, chksum: nat)
    requires Settle(d, st, chksum) == Some(c)
    ensures RoleAndMode(st) == Some((c.role, c.mode))
    ensures c == ChannelOf(d, st, c.role, c.mode, c.orig.rtcpPort, c.reSourced.rtcpPort, c.rtx.rtcpPort, chksum)
  {
  }

  // ----- whole descriptions -----

  /** The lines of a description leave only one state. */
  lemma {:induction false} DescribedOnce(ms: seq<Media>, st: State, st': State)
    requires DescribedBy(ms, st) && DescribedBy(ms, st')
    ensures st == st'
  {
    forall k ensures StreamAt(st, k) == StreamAt(st', k) {
      StreamOnce(ms, st, st', k);
    }
    assert StreamAt(st, OrigKind) == StreamAt(st', OrigKind) && StreamAt(st, ReKind) == StreamAt(st', ReKind);
    assert StreamAt(st, RtxKind) == StreamAt(st', RtxKind);
    assert StreamAt(st, Fec1Kind) == StreamAt(st', Fec1Kind) && StreamAt(st, Fec2Kind) == StreamAt(st', Fec2Kind);
  }

  lemma {:induction false} StreamOnce(ms: seq<Media>, st: State, st': State, k: Kind)
    requires DescribedBy(ms, st) && DescribedBy(ms, st')
    ensures StreamAt(st, k) == StreamAt(st', k)
  {
    assert StreamDescribed(ms, k, StreamAt(st, k)) && StreamDescribed(ms, k, StreamAt(st', k));
    if k == OrigKind {
      assert PlaceDescribed(LastPlace(ms), st.orig, START.orig) && PlaceDescribed(LastPlace(ms), st'.orig, START.orig);
    } else {
      assert PlaceDescribed(LastOf(ms, k), StreamAt(st, k), StreamAt(START, k));
      assert PlaceDescribed(LastOf(ms, k), StreamAt(st', k), StreamAt(START, k));
    }
  }

  /**
   A description is accepted, and gives this channel, exactly when its session level fits, each section fits its
   kind, and what the lines say settles as this channel.
   */
  lemma {:induction false} ValidateIff(d: Description, c: ChannelCfg, chksum: nat)
    ensures Validate(d, chksum) == Some(c) <==>
            && SessionFits(d) && SectionsFit(d.media)
            && exists st :: DescribedBy(d.media, st) && SettledAs(d, st, c, chksum)
  {
    SectionsAre(d.media);
    if SessionFits(d) && SectionsFit(d.media) {
      var st := Sections(START, d.media).value;
      SettleIff(d, st, c, chksum);
      if st' :| DescribedBy(d.media, st') && SettledAs(d, st', c, chksum) {
        DescribedOnce(d.media, st, st');
      }
    }
  }

  // ----- where the fields of an accepted channel come from -----

  /** Address, port and payload type of a stream are those of a section, if there is one. */
  ghost predicate StreamFrom(m: Option<Media>, addr: Addr, port: Port, pt: nat) {
    m.Some? ==> Some(addr) == m.value.conn.addr && port == m.value.port && m.value.payloadTypes == [pt]
  }

  /** An RTCP port that is given in a section of this kind is kept. */
  ghost predicate RtcpFromLines(ms: seq<Media>, k: Kind, port: Port) {
    var given := RtcpFrom(Attrs(ms, {k}), 0);
    given != 0 ==> port == given
  }

  /**
   Address, port and payload type of each stream are those of the last section of its kind, except that a section
   over UDP may move the original stream. An RTCP port is that of the last a=rtcp line of the sections of the
   kind, if there is one.
   */
  ghost predicate FieldsFrom(ms: seq<Media>, c: ChannelCfg) {
    && (LastPlace(ms).Some? ==>
        Some(c.orig.addr) == LastPlace(ms).value.conn.addr && c.orig.port == LastPlace(ms).value.port)
    && (LastOf(ms, OrigKind).Some? ==> LastOf(ms, OrigKind).value.payloadTypes == [c.orig.payloadType])
    && StreamFrom(LastOf(ms, ReKind), c.reSourced.addr, c.reSourced.rtpPort, c.reSourced.payloadType)
    && StreamFrom(LastOf(ms, RtxKind), c.rtx.addr, c.rtx.rtpPort, c.rtx.payloadType)
    && StreamFrom(LastOf(ms, Fec1Kind), c.fec1.addr, c.fec1.rtpPort, c.fec1.payloadType)
    && StreamFrom(LastOf(ms, Fec2Kind), c.fec2.addr, c.fec2.rtpPort, c.fec2.payloadType)
    && RtcpFromLines(ms, OrigKind, c.orig.rtcpPort) && RtcpFromLines(ms, ReKind, c.reSourced.rtcpPort)
    && RtcpFromLines(ms, RtxKind, c.rtx.rtcpPort)
    && RtcpFromLines(ms, Fec1Kind, c.fec1.rtcpPort) && RtcpFromLines(ms, Fec2Kind, c.fec2.rtcpPort)
  }

  /** Every accepted description has a session level and sections that fit, and the channel's fields come from them. */
  lemma {:induction false} AcceptedByField(d: Description, chksum: nat)
    requires Validate(d, chksum).Some?
    ensures var c := Validate(d, chksum).value;
            SessionFits(d) && SectionsFit(d.media) && SessionGives(d, c, chksum) && FieldsFrom(d.media, c)
  {
    var c := Validate(d, chksum).value;
    ValidateIff(d, c, chksum);
    var st :| DescribedBy(d.media, st) && SettledAs(d, st, c, chksum);
    FieldsGiven(d.media, st, c);
  }

  lemma {:induction false} FieldsGiven(ms: seq<Media>, st: State, c: ChannelCfg)
    requires DescribedBy(ms, st) && PortsSettle(st, c) && StateGives(st, c)
    ensures FieldsFrom(ms, c)
  {
    OrigGiven(ms, st);
    StreamGiven(ms, st, ReKind);
    StreamGiven(ms, st, RtxKind);
    StreamGiven(ms, st, Fec1Kind);
    StreamGiven(ms, st, Fec2Kind);
    PortsGiven(ms, st, c);
  }

  lemma {:induction false} StreamGiven(ms: seq<Media>, st: State, k: Kind)
    requires DescribedBy(ms, st) && k != OrigKind
    ensures var s := StreamAt(st, k); StreamFrom(LastOf(ms, k), s.addr, s.rtpPort, s.pt)
  {
    assert StreamDescribed(ms, k, StreamAt(st, k));
    assert PlaceDescribed(LastOf(ms, k), StreamAt(st, k), StreamAt(START, k));
  }

  lemma {:induction false} OrigGiven(ms: seq<Media>, st: State)
    requires DescribedBy(ms, st)
    ensures LastPlace(ms).Some? ==>
            Some(st.orig.addr) == LastPlace(ms).value.conn.addr && st.orig.rtpPort == LastPlace(ms).value.port
    ensures var m := LastOf(ms, OrigKind); m.Some? ==> m.value.payloadTypes == [st.orig.pt]
  {
    assert StreamDescribed(ms, OrigKind, StreamAt(st, OrigKind));
  }

  lemma {:induction false} RtcpGiven(ms: seq<Media>, st: State, k: Kind)
    requires DescribedBy(ms, st)
    ensures StreamAt(st, k).rtcpPort == RtcpFrom(Attrs(ms, {k}), 0)
  {
    assert StreamDescribed(ms, k, StreamAt(st, k));
  }

  lemma {:induction false} PortsGiven(ms: seq<Media>, st: State, c: ChannelCfg)
    requires DescribedBy(ms, st) && PortsSettle(st, c) && StateGives(st, c)
    ensures RtcpFromLines(ms, OrigKind, c.orig.rtcpPort) && RtcpFromLines(ms, ReKind, c.reSourced.rtcpPort)
    ensures RtcpFromLines(ms, RtxKind, c.rtx.rtcpPort)
    ensures RtcpFromLines(ms, Fec1Kind, c.fec1.rtcpPort) && RtcpFromLines(ms, Fec2Kind, c.fec2.rtcpPort)
  {
    assert RtcpFromLines(ms, OrigKind, c.orig.rtcpPort) by {
      RtcpGiven(ms, st, OrigKind);
    }
    assert RtcpFromLines(ms, ReKind, c.reSourced.rtcpPort) by {
      RtcpGiven(ms, st, ReKind);
    }
    assert RtcpFromLines(ms, RtxKind, c.rtx.rtcpPort) by {
      RtcpGiven(ms, st, RtxKind);
    }
    RtcpGiven(ms, st, Fec1Kind);
    RtcpGiven(ms, st, Fec2Kind);
  }
}
