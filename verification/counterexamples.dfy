/**
 Inputs at which the code does not do what one might expect: one for each property that holds under a
 condition only, showing that the condition can fail.
 */
module Counterexamples {
  import opened Options
  import opened ChannelMap
  import opened Channels
  import opened Registration
  import opened ManagerSpec
  import opened LineupSpec
  import opened UpdateSpec
  import LineupRuns
  import opened Reload
  import opened SdpDescription
  import opened SdpValidation
  import opened SdpSound
  import opened SdpPrinter
  import opened RoundTrip
  import opened SourcePrinter
  import ManagerRuns
  import LineReader
  import R = RtpSource
  import RepairSpec
  import RepairTheorems
  import SdpHandle

  // ----- validation -----

  const GROUP_ADDR: Addr := 0x0101_01EF
  const HOST_ADDR: Addr := 0x0101_0101

  /** A media section that is marked inactive. */
  const IDLE := Media(true, RtpAvpf, 5004, [98], Connection(Some(GROUP_ADDR), false), [], [InactiveAttr])

  lemma {:induction false} IdleSkipped(st: State)
    ensures Section(st, IDLE) == Some(st)
  {
    InactiveSkipped(st, IDLE);
  }

  function Describe(id: string, groups: seq<Group>, media: seq<Media>): Description {
    Description("-", id, "1", "1.1.1.1", true, "example", "0", "0", groups, Rsi, media)
  }

  lemma {:induction false} KeyOfDescribed(id: string)
    requires SdpHandle.Good(id)
    ensures var origin := SdpHandle.Internet("-", id, "1.1.1.1");
            var key := SdpHandle.Clip(SdpHandle.KeyOf(origin), SdpHandle.MAX_KEY_LENGTH);
            SdpHandle.WellFormed(key) && SdpHandle.OriginOf(key).sessionId == id
  {
    assert SdpHandle.GoodFields("-", id, "1.1.1.1");
    SdpHandle.KeyComesApart(SdpHandle.Internet("-", id, "1.1.1.1"));
  }

  /** A retransmission section for payload type 96 that leaves its RTCP port to the default rule. */
  const REPAIR := Media(true, RtpAvpf, 5002, [97], Connection(Some(HOST_ADDR), false), [], REPAIR_ATTRS)
  const REPAIR_ATTRS := [RecvOnlyAttr, RtpMap(97, EncRtx, 90000), Fmtp(97, true, 96, 0, 0), Mid("3")]

  function Repaired(st: State): State {
    st.(rtx := Stream(RecvOnly, "3", HOST_ADDR, 0, 5002, 0, 97, BW_UNSPECIFIED, BW_UNSPECIFIED), apt := 96)
  }

  lemma {:induction false} RepairRead(st: State)
    requires st.rtx == START.rtx && st.time == 0
    ensures Section(st, REPAIR) == Some(Repaired(st))
  {
    var st0 := st.(rtx := Stream(Inactive, "", HOST_ADDR, 0, 5002, 0, 97, BW_UNSPECIFIED, BW_UNSPECIFIED));
    var map_, apt := RtpMap(97, EncRtx, 90000), Fmtp(97, true, 96, 0, 0);
    assert REPAIR.attrs == [RecvOnlyAttr] + ([map_] + ([apt] + [Mid("3")]));
    RtpMapSkip(true, RecvOnlyAttr, [map_] + ([apt] + [Mid("3")]));
    RtpMapFirst(map_, [apt] + [Mid("3")]);
    assert REPAIR.attrs[0] == RecvOnlyAttr;
    AttrsCons(st0, RtxKind, REPAIR, RecvOnlyAttr, [map_] + ([apt] + [Mid("3")]));
    var st1 := st0.(rtx := st0.rtx.(status := RecvOnly));
    AttrsCons(st1, RtxKind, REPAIR, map_, [apt] + [Mid("3")]);
    AttrsCons(st1, RtxKind, REPAIR, apt, [Mid("3")]);
    MidRead(st1.(apt := 96), RtxKind, REPAIR, "3");
    assert MediaLine(st, RtxKind, REPAIR) == Some(st0);
  }

  /** An original stream over UDP without an a=rtcp line. */
  const UDP_ORIGINAL :=
    Media(true, Udp, 5000, [96], Connection(Some(GROUP_ADDR), false), [Bandwidth(AS, 100)], UDP_ATTRS)
  const UDP_ATTRS := [RecvOnlyAttr, RtpMap(96, EncMp2t, 90000), Mid("1")]

  function UdpRead(): State {
    START.(orig := Stream(RecvOnly, "1", GROUP_ADDR, 0, 5000, 0, 96, BW_UNSPECIFIED, BW_UNSPECIFIED),
           bitRate := 100_000)
  }

  lemma {:induction false} UdpOriginalRead()
    ensures Section(START, UDP_ORIGINAL) == Some(UdpRead())
  {
    var m, map_, bw := UDP_ORIGINAL, RtpMap(96, EncMp2t, 90000), Bandwidth(AS, 100);
    var st0 := START.(orig := START.orig.(addr := GROUP_ADDR, rtpPort := 5000), bitRate := 100_000);
    assert m.bandwidths[0] == bw && m.bandwidths == [bw] + [];
    BwCons(st0, OrigKind, bw, []);
    assert m.attrs == [RecvOnlyAttr] + ([map_] + [Mid("1")]);
    RtpMapSkip(true, RecvOnlyAttr, [map_] + [Mid("1")]);
    RtpMapFirst(map_, [Mid("1")]);
    assert m.attrs[0] == RecvOnlyAttr;
    var st1 := st0.(orig := st0.orig.(pt := 96));
    assert MediaLine(st0, OrigKind, m) == Some(st1);
    AttrsCons(st1, OrigKind, m, RecvOnlyAttr, [map_] + [Mid("1")]);
    var st2 := st1.(orig := st1.orig.(status := RecvOnly));
    AttrsCons(st2, OrigKind, m, map_, [Mid("1")]);
    MidRead(st2, OrigKind, m, "1");
  }

  const UDP_LOOKASIDE := Describe("1", [Group(Fid, ["1", "3"])], [UDP_ORIGINAL, IDLE, REPAIR])

  lemma {:induction false} FidFound(st: State, mode: Mode, fid: Group)
    requires UsesRtx(mode) && !FecOn(st) && fid.kind == Fid && FidOk(st, mode, fid)
    ensures GroupsOk(st, mode, [fid])
  {
    assert [fid][0] == fid;
  }

  lemma {:induction false} UdpPorts(st: State)
    requires st == Repaired(UdpRead())
    ensures SettlePorts(UDP_LOOKASIDE, st, Stb, LookasideMode, 0) ==
            Some(ChannelOf(UDP_LOOKASIDE, st, Stb, LookasideMode, 0, 0, 5003, 0))
  {
    DefaultOf5002();
  }

  lemma {:induction false} UdpSettles(st: State)
    requires st == Repaired(UdpRead())
    ensures var c := Settle(UDP_LOOKASIDE, st, 0);
            c.Some? && c.value.mode == LookasideMode && c.value.orig.rtcpPort == 0
  {
    assert GroupsOk(st, LookasideMode, UDP_LOOKASIDE.groups) by {
      assert Label(["1", "3"]) == "1 3 " && Substring("1", "1 3 ") && Substring("3", "1 3 ") by {
        Labels();
      }
      FidFound(st, LookasideMode, Group(Fid, ["1", "3"]));
    }
    UdpPorts(st);
    var c := ChannelOf(UDP_LOOKASIDE, st, Stb, LookasideMode, 0, 0, 5003, 0);
    SettledTo(UDP_LOOKASIDE, st, Stb, LookasideMode, 0, Some(c));
  }

  lemma {:induction false} DefaultOf5002()
    ensures CheckRtcpPort(5002, 0) == Some(5003)
  {
    NextInMemory(19, 138);
  }

  /** A lookaside channel over UDP without an RTCP port passes validation, and can never be registered. */
  lemma {:induction false} UdpLookasideUnusable()
    ensures var c := Validate(UDP_LOOKASIDE, 0);
            c.Some? && c.value.mode == LookasideMode && c.value.orig.rtcpPort == 0 && !OwnKeysOk(c.value)
  {
    var st := Repaired(UdpRead());
    assert Sections(START, UDP_LOOKASIDE.media) == Some(st) by {
      UdpOriginalRead();
      IdleSkipped(UdpRead());
      RepairRead(UdpRead());
      ThreeSections(START, UDP_ORIGINAL, IDLE, REPAIR, [], true, UdpRead(), UdpRead(), st);
      assert UDP_LOOKASIDE.media == [UDP_ORIGINAL, IDLE, REPAIR] + [];
    }
    UdpSettles(st);
    assert Number("1") == 1;
    Unregistrable(UDP_LOOKASIDE);
  }

  lemma {:induction false} Unregistrable(d: Description)
    requires Validate(d, 0).Some? && !Usable(Validate(d, 0).value)
    ensures !OwnKeysOk(Validate(d, 0).value)
  {
    AcceptedIsSound(d, 0);
    SoundKeysIff(Validate(d, 0).value);
  }

  /** A re-sourced stream whose filter names the retransmission address; the original stream is not described. */
  const RESOURCED :=
    Media(true, RtpAvpf, 5000, [96], Connection(Some(GROUP_ADDR), false), [], RESOURCED_ATTRS)
  const RESOURCED_ATTRS := [RecvOnlyAttr, Filter(GROUP_ADDR, HOST_ADDR), RtpMap(96, EncMp2t, 90000), Mid("2")]

  function ResourcedRead(): State {
    START.(re := Stream(RecvOnly, "2", GROUP_ADDR, 0, 5000, 0, 96, BW_UNSPECIFIED, BW_UNSPECIFIED),
           reFilter := Some(HOST_ADDR))
  }

  lemma {:induction false} ResourcedIsRead()
    ensures Section(START, RESOURCED) == Some(ResourcedRead())
  {
    var m, filter, map_ := RESOURCED, Filter(GROUP_ADDR, HOST_ADDR), RtpMap(96, EncMp2t, 90000);
    assert m.attrs == [RecvOnlyAttr] + ([filter] + ([map_] + [Mid("2")]));
    RtpMapSkip(true, RecvOnlyAttr, [filter] + ([map_] + [Mid("2")]));
    RtpMapSkip(true, filter, [map_] + [Mid("2")]);
    RtpMapFirst(map_, [Mid("2")]);
    assert m.attrs[0] == RecvOnlyAttr;
    var st0 := START.(re := START.re.(addr := GROUP_ADDR, rtpPort := 5000, pt := 96));
    assert MediaLine(START, ReKind, m) == Some(st0);
    AttrsCons(st0, ReKind, m, RecvOnlyAttr, [filter] + ([map_] + [Mid("2")]));
    var st1 := st0.(re := st0.re.(status := RecvOnly));
    AttrsCons(st1, ReKind, m, filter, [map_] + [Mid("2")]);
    var st2 := st1.(reFilter := Some(HOST_ADDR));
    AttrsCons(st2, ReKind, m, map_, [Mid("2")]);
    MidRead(st2, ReKind, m, "2");
  }

  const SOURCE_MODE := Describe("1", [Group(Fid, ["2", "3"])], [RESOURCED, IDLE, REPAIR])

  lemma {:induction false} ResourcedPorts(st: State)
    requires st == Repaired(ResourcedRead())
    ensures SettlePorts(SOURCE_MODE, st, Stb, SourceMode, 0) ==
            Some(ChannelOf(SOURCE_MODE, st, Stb, SourceMode, 0, 5001, 5003, 0))
  {
    DefaultOf5002();
    NextInMemory(19, 136);
  }

  lemma {:induction false} ResourcedSettles(st: State)
    requires st == Repaired(ResourcedRead())
    ensures var c := Settle(SOURCE_MODE, st, 0);
            c.Some? && c.value == ChannelOf(SOURCE_MODE, st, Stb, SourceMode, 0, 5001, 5003, 0)
  {
    assert GroupsOk(st, SourceMode, SOURCE_MODE.groups) by {
      assert Label(["2", "3"]) == "2 3 " by {
        assert ["2", "3"][1..] == ["3"] && ["3"][1..] == [];
      }
      assert OccursAt("2", "2 3 ", 0) && OccursAt("3", "2 3 ", 2);
      FidFound(st, SourceMode, Group(Fid, ["2", "3"]));
    }
    ResourcedPorts(st);
    var c := ChannelOf(SOURCE_MODE, st, Stb, SourceMode, 0, 5001, 5003, 0);
    SettledTo(SOURCE_MODE, st, Stb, SourceMode, 0, Some(c));
  }

  lemma {:induction false} SourceModeIsRead()
    ensures Validate(SOURCE_MODE, 0) ==
            Some(ChannelOf(SOURCE_MODE, Repaired(ResourcedRead()), Stb, SourceMode, 0, 5001, 5003, 0))
  {
    var st := Repaired(ResourcedRead());
    assert Sections(START, SOURCE_MODE.media) == Some(st) by {
      ResourcedIsRead();
      IdleSkipped(ResourcedRead());
      RepairRead(ResourcedRead());
      ThreeSections(START, RESOURCED, IDLE, REPAIR, [], true, ResourcedRead(), ResourcedRead(), st);
      assert SOURCE_MODE.media == [RESOURCED, IDLE, REPAIR] + [];
    }
    ResourcedSettles(st);
    assert Number("1") == 1;
  }

  /**
   A source-mode channel whose original stream is nowhere described passes validation, and can never
   be registered; what is printed for it does not pass.
   */
  lemma {:induction false} SourceModeUnusable()
    ensures var c := Validate(SOURCE_MODE, 0);
            && c.Some? && c.value.mode == SourceMode && c.value.orig.port == 0
            && !OwnKeysOk(c.value) && Validate(Print(c.value), 0) == None
  {
    SourceModeIsRead();
    Unregistrable(SOURCE_MODE);
    var c := Validate(SOURCE_MODE, 0).value;
    AcceptedIsSound(SOURCE_MODE, 0);
    KeyOfDescribed("1");
    PrintThenValidate(c, 0);
  }

  const NO_FEC := FecStream(DEFAULT_MULTICAST, 0, 0, 0, 0, BW_UNSPECIFIED, BW_UNSPECIFIED)

  /** A source-mode channel over RTP whose original stream has an RTCP port that is not the default. */
  function Sourcing(role: Role): ChannelCfg {
    ChannelCfg(
      "example", "key", 1, true, false, SourceMode, role,
      Original(RtpStream, GROUP_ADDR, HOST_ADDR, 5000, 6000, 96, 100_000,
               BW_UNSPECIFIED, BW_UNSPECIFIED, BW_UNSPECIFIED),
      ReSourced(0x0201_01EF, 5000, 5001, 96, BW_UNSPECIFIED, BW_UNSPECIFIED), HOST_ADDR,
      Rtx(HOST_ADDR, 5002, 5003, 97, 96, 0, BW_UNSPECIFIED, BW_UNSPECIFIED), true, true,
      false, Fec1D, NO_FEC, NO_FEC, 0)
  }

  /** It is printable, and comes back with another RTCP port or, for an STB, without its original stream. */
  lemma {:induction false} OriginalChanges(role: Role)
    requires role == Vam || role == Stb
    ensures var c := Sourcing(role);
            Sourced(c) && SourcePrintable(c) && !KeepsOriginal(c)
  {
    NextInMemory(19, 136);
  }

  // ----- receive-only channels -----

  /** Feedback goes to a host, but the sources of the stream are not filtered. */
  function Unfiltered(port: Port, rtcpPort: Port): Media {
    Media(true, RtpAvp, port, [96], Connection(Some(GROUP_ADDR), false), [Bandwidth(AS, 100)],
          [RecvOnlyAttr] + ([RtpMap(96, EncMp2t, 90000)] + ([Rtcp(rtcpPort, Target(Some(HOST_ADDR)))] + [])))
  }

  function UnfilteredRead(port: Port, rtcpPort: Port): State {
    START.(orig := Stream(RecvOnly, "", GROUP_ADDR, 0, port, rtcpPort, 96, BW_UNSPECIFIED, BW_UNSPECIFIED),
           proto := RtpStream, bitRate := 100_000, fbt := HOST_ADDR)
  }

  lemma {:induction false} UnfilteredIsRead(port: Port, rtcpPort: Port)
    requires PortOk(port) && PortOk(rtcpPort)
    ensures Section(START, Unfiltered(port, rtcpPort)) == Some(UnfilteredRead(port, rtcpPort))
  {
    var m, map_, bw := Unfiltered(port, rtcpPort), RtpMap(96, EncMp2t, 90000), Bandwidth(AS, 100);
    var rtcp := Rtcp(rtcpPort, Target(Some(HOST_ADDR)));
    assert m.bandwidths == [bw] + [];
    BwCons(START.(proto := RtpStream), OrigKind, bw, []);
    RtpMapSkip(true, RecvOnlyAttr, [map_] + ([rtcp] + []));
    RtpMapFirst(map_, [rtcp] + []);
    assert m.attrs[0] == RecvOnlyAttr;
    var st0 := START.(proto := RtpStream, bitRate := 100_000);
    var st1 := st0.(orig := st0.orig.(addr := GROUP_ADDR, rtpPort := port, pt := 96));
    assert MediaLine(st0, OrigKind, m) == Some(st1);
    AttrsCons(st1, OrigKind, m, RecvOnlyAttr, [map_] + ([rtcp] + []));
    var st2 := st1.(orig := st1.orig.(status := RecvOnly));
    AttrsCons(st2, OrigKind, m, map_, [rtcp] + []);
    AttrsCons(st2, OrigKind, m, rtcp, []);
  }

  /** A description of a receive-only channel with this session id and these ports at one address. */
  function Listen(id: string, port: Port, rtcpPort: Port): Description {
    Describe(id, [], [Unfiltered(port, rtcpPort), IDLE, IDLE])
  }

  /** The channel that validation extracts from it. */
  function Heard(id: string, port: Port, rtcpPort: Port): ChannelCfg {
    ChannelOf(Listen(id, port, rtcpPort), UnfilteredRead(port, rtcpPort), Stb, RecvOnlyMode, rtcpPort, 0, 0, 0)
  }

  lemma {:induction false} ListenIsHeard(id: string, port: Port, rtcpPort: Port)
    requires PortOk(port) && PortOk(rtcpPort) && port != rtcpPort
    ensures Validate(Listen(id, port, rtcpPort), 0) == Some(Heard(id, port, rtcpPort))
  {
    var d, st := Listen(id, port, rtcpPort), UnfilteredRead(port, rtcpPort);
    assert Sections(START, d.media) == Some(st) by {
      UnfilteredIsRead(port, rtcpPort);
      IdleSkipped(st);
      ThreeSections(START, Unfiltered(port, rtcpPort), IDLE, IDLE, [], true, st, st, st);
      assert d.media == [Unfiltered(port, rtcpPort), IDLE, IDLE] + [];
    }
    assert Number("1") == 1;
    SettledTo(d, st, Stb, RecvOnlyMode, 0, Some(Heard(id, port, rtcpPort)));
  }

  /** The session key of these channels. */
  lemma {:induction false} HeardKey(id: string, port: Port, rtcpPort: Port)
    requires SdpHandle.Good(id)
    ensures SdpHandle.WellFormed(Heard(id, port, rtcpPort).sessionKey)
    ensures SdpHandle.OriginOf(Heard(id, port, rtcpPort).sessionKey).sessionId == id
  {
    KeyOfDescribed(id);
  }

  /** A channel without a source filter passes validation, and what is printed for it does not. */
  lemma {:induction false} PrintedIsRejected()
    ensures var c := Validate(Listen("1", 5000, 5001), 0);
            c.Some? && c.value.orig.srcAddr == 0 && Validate(Print(c.value), 0) == None
  {
    var d := Listen("1", 5000, 5001);
    ListenIsHeard("1", 5000, 5001);
    AcceptedIsSound(d, 0);
    HeardKey("1", 5000, 5001);
    PrintThenValidate(Heard("1", 5000, 5001), 0);
  }

  /** The port after 1279 would be 1280. */
  lemma {:induction false} CarryIsLost()
    ensures CheckRtcpPort(1279, 0) == Some(1024)
  {
    NextInMemory(4, 255);
  }

  // ----- text -----

  /** Two bytes of buffer are not enough for a line of three, and the reading loop never ends. */
  lemma {:induction false} LongLineHangs()
    ensures LineReader.Advance("abc\n", 2) == 0
    ensures forall n :: LineReader.Position("abc\n", 2, n) < 4
  {
    var s := "abc\n";
    assert forall i :: 0 <= i < 2 ==> !LineReader.EndsLine(s[i]);
    LineReader.StuckIff(s, 2);
    assert !LineReader.EndsLine(s[0]) && !LineReader.EndsLine(s[1]);
    LineReader.ReadsEndIff(s, 2);
  }

  /** A lone CR swallows the byte after it. */
  lemma {:induction false} LoneCrSwallows()
    ensures LineReader.AllText("\rx") == "\n" && LineReader.Normalized("\rx") == "\rx"
  {
    var s := "\rx";
    assert s[1..] == "x" && "x"[1..] == "";
    assert LineReader.Run(s) == 0 && LineReader.Rest(s) == "";
  }

  /** The creator's address may be missing from a key that resolves. */
  lemma {:induction false} EmptyCreatorResolves(v: nat)
    requires v < SdpHandle.VERSIONS
    ensures var key := SdpHandle.KeyOf(SdpHandle.Internet("u", "s", ""));
            SdpHandle.HandleKey(SdpHandle.HandleText(key, v)) == Some(key)
  {
    SdpHandle.HandleKeepsKey("u", "s", "", v);
  }

  // ----- registration -----

  function SlotAt(port: Port): Slot { Chan(Key(GROUP_ADDR, port)) }

  lemma {:induction false} HeardKeys(id: string, port: Port, rtcpPort: Port)
    requires port != 0 && rtcpPort != 0 && port != rtcpPort
    ensures Attempted(Heard(id, port, rtcpPort)) == [SlotAt(port), SlotAt(rtcpPort)]
            && OwnKeysOk(Heard(id, port, rtcpPort))
  {
    assert Attempted(Heard(id, port, rtcpPort)) == [SlotAt(port), SlotAt(rtcpPort)];
  }

  /** What cfg_channel_add is given for such a description. */
  function Tune(id: string, port: Port, rtcpPort: Port): Session { SessionOf(Listen(id, port, rtcpPort), 0) }

  lemma {:induction false} TuneIs(id: string, port: Port, rtcpPort: Port)
    requires PortOk(port) && PortOk(rtcpPort) && port != rtcpPort
    ensures var c := Heard(id, port, rtcpPort);
            Tune(id, port, rtcpPort) == Session(c.sessionKey, Some(c)) && ProperSession(Tune(id, port, rtcpPort))
  {
    ListenIsHeard(id, port, rtcpPort);
  }

  /** One channel, with ports 5000 and 5001, added to an empty manager. */
  function First(): ManagerRuns.State { ManagerRuns.Run([ManagerRuns.AddOp(Tune("a", 5000, 5001), 1)]) }

  /** A manager with one channel, under handle 1 and with two keys. */
  ghost predicate Alone(ids: Records, m: Mgr, a: ChannelCfg, p: Slot, q: Slot) {
    && m.table == [1] && ids == map[1 := a] && m.ix.keys == map[a.sessionKey := 1]
    && forall s :: Has(m.ix, s) <==> s == p || s == q
  }

  lemma {:induction false} AddedAlone(a: ChannelCfg, p: Slot, q: Slot)
    requires Attempted(a) == [p, q] && OwnKeysOk(a)
    ensures var o := Add(map[], EMPTY_MGR, Session(a.sessionKey, Some(a)), 1);
            o.code == Success && Alone(o.ids, o.mgr, a, p, q)
  {
    RegisterSucceedsIff(EMPTY_INDEX, a, 1);
  }

  /** A safe state with just that channel. */
  ghost predicate OneChannel(st: ManagerRuns.State, a: ChannelCfg) {
    && ManagerRuns.StateInv(st) && a == Heard("a", 5000, 5001)
    && Alone(st.ids, st.mgr, a, SlotAt(5000), SlotAt(5001))
  }

  lemma {:induction false} RunOfOne(op: ManagerRuns.Operation)
    requires ManagerRuns.Offered(ManagerRuns.Run([]), op) && op.AddOp?
    ensures ManagerRuns.Run([op]) == ManagerRuns.Step(ManagerRuns.State(map[], EMPTY_MGR), op)
    ensures ManagerRuns.StateInv(ManagerRuns.Run([op]))
  {
    assert [op][..0] == [];
    ManagerRuns.SafeRunIff([op]);
  }

  lemma {:induction false} FirstIs()
    ensures OneChannel(First(), Heard("a", 5000, 5001))
  {
    TuneIs("a", 5000, 5001);
    RunOfOne(ManagerRuns.AddOp(Tune("a", 5000, 5001), 1));
    HeardKeys("a", 5000, 5001);
    AddedAlone(Heard("a", 5000, 5001), SlotAt(5000), SlotAt(5001));
  }

  lemma {:induction false} OtherKey(port: Port, rtcpPort: Port)
    ensures Heard("b", port, rtcpPort).sessionKey != Heard("a", 5000, 5001).sessionKey
  {
    HeardKey("a", 5000, 5001);
    HeardKey("b", port, rtcpPort);
  }

  lemma {:induction false} Evicts(st: ManagerRuns.State, b: ChannelCfg, s: Slot)
    requires b.sessionKey !in st.mgr.ix.keys && |st.mgr.table| < MAX_CHANNELS
    requires Free(st.mgr.ix, Attempted(b)[0]) && s in Attempted(b) && Has(st.mgr.ix, s)
    ensures var st' := ManagerRuns.Step(st, ManagerRuns.AddOp(Session(b.sessionKey, Some(b)), 2));
            st'.ids == st.ids && st'.mgr.table == st.mgr.table && !Has(st'.mgr.ix, s)
  {
    ConflictEvictsOwner(st.mgr.ix, b, 2, s);
  }

  lemma {:induction false} NewcomerIsRefused(st: ManagerRuns.State, a: ChannelCfg)
    requires OneChannel(st, a)
    ensures var st' := ManagerRuns.Step(st, ManagerRuns.AddOp(Tune("b", 6000, 5001), 2));
            st'.ids == st.ids && st'.mgr.table == st.mgr.table && !Has(st'.mgr.ix, SlotAt(5001))
  {
    HeardKeys("b", 6000, 5001);
    OtherKey(6000, 5001);
    TuneIs("b", 6000, 5001);
    Evicts(st, Heard("b", 6000, 5001), SlotAt(5001));
  }

  /** A newcomer that shares only the RTCP port is refused, and takes the RTCP key of the live channel with it. */
  lemma {:induction false} NewcomerEvicts()
    ensures ManagerRuns.StateInv(First()) && First().mgr.table == [1] && First().ids == map[1 := Heard("a", 5000, 5001)]
    ensures SlotAt(5001) in Attempted(Heard("a", 5000, 5001)) && Has(First().mgr.ix, SlotAt(5001))
    ensures var st := ManagerRuns.Step(First(), ManagerRuns.AddOp(Tune("b", 6000, 5001), 2));
            st.ids == First().ids && st.mgr.table == [1] && !Has(st.mgr.ix, SlotAt(5001))
  {
    FirstIs();
    HeardKeys("a", 5000, 5001);
    NewcomerIsRefused(First(), Heard("a", 5000, 5001));
  }

  lemma {:induction false} Strands(st: ManagerRuns.State, a: ChannelCfg, c: ChannelCfg, op: ManagerRuns.Operation)
    requires OneChannel(st, a) && c == Heard("a", 6000, 6001) && op == ManagerRuns.InsertOp(c, 2)
    requires c.sessionKey == a.sessionKey
    ensures var st' := ManagerRuns.Step(st, op);
            && Has(st'.mgr.ix, SlotAt(6000)) && Owner(st'.mgr.ix, SlotAt(6000)) == 2 && 2 !in st'.ids
            && !ManagerRuns.StateInv(st')
  {
    HeardKeys("a", 6000, 6001);
    CopyClaims(c);
    assert SlotAt(6000) in Attempted(Copy(c));
    RegisterSucceedsIff(st.mgr.ix, Copy(c), 2);
    RejectionEffect(st.mgr.ix, Copy(c), 2);
    ManagerRuns.StepKeepsInvIff(st, op);
  }

  /** An insertion under a session key that is taken leaves an entry behind that resolves to nothing. */
  lemma {:induction false} TakenKeyStrands()
    ensures var st := ManagerRuns.Step(First(), ManagerRuns.InsertOp(Heard("a", 6000, 6001), 2));
            && Has(st.mgr.ix, SlotAt(6000)) && Owner(st.mgr.ix, SlotAt(6000)) == 2 && 2 !in st.ids
            && !ManagerRuns.StateInv(st)
  {
    FirstIs();
    var c := Heard("a", 6000, 6001);
    Strands(First(), Heard("a", 5000, 5001), c, ManagerRuns.InsertOp(c, 2));
  }

  lemma {:induction false} LosesKey(st: ManagerRuns.State, a: ChannelCfg, c: ChannelCfg, op: ManagerRuns.Operation)
    requires OneChannel(st, a) && c == Heard("a", 6000, 5001) && op == ManagerRuns.InsertOp(c, 2)
    requires c.sessionKey == a.sessionKey
    ensures var st' := ManagerRuns.Step(st, op);
            st'.ids == st.ids && a.sessionKey !in st'.mgr.ix.keys && !ManagerRuns.StateInv(st')
  {
    HeardKeys("a", 6000, 5001);
    CopyClaims(c);
    assert SlotAt(5001) in Attempted(Copy(c));
    RegisterSucceedsIff(st.mgr.ix, Copy(c), 2);
    RejectionEffect(st.mgr.ix, Copy(c), 2);
    ManagerRuns.StepKeepsInvIff(st, op);
  }

  /** When a later key is refused as well, the other channel loses its session key. */
  lemma {:induction false} TakenKeyIsLost()
    ensures var st := ManagerRuns.Step(First(), ManagerRuns.InsertOp(Heard("a", 6000, 5001), 2));
            && st.ids == First().ids && Heard("a", 5000, 5001).sessionKey !in st.mgr.ix.keys
            && !ManagerRuns.StateInv(st)
  {
    FirstIs();
    var c := Heard("a", 6000, 5001);
    LosesKey(First(), Heard("a", 5000, 5001), c, ManagerRuns.InsertOp(c, 2));
  }

  // ----- versions -----

  /** The lineup of the channel with ports 5000 and 5001 after cfg_init. */
  ghost function OnAir(): LineupRuns.System
    requires |[1]| == |[Parsed(Tune("a", 5000, 5001))]|
  {
    LineupRuns.Started(LoadAll(map[], [Parsed(Tune("a", 5000, 5001))], [1]))
  }

  lemma {:induction false} LoadOfOne(s: Session)
    requires ProperSession(s) && Add(map[], EMPTY_MGR, s, 1).code == Success
    ensures var o, sys := Add(map[], EMPTY_MGR, s, 1), LineupRuns.Started(LoadAll(map[], [Parsed(s)], [1]));
            LineupRuns.SystemInv(sys) && sys.cfg.ids == o.ids && sys.cfg.live == o.mgr
  {
    var items, hs := [Parsed(s)], [1];
    assert items[..0] == [] && hs[..0] == [];
    var none := LoadAll(map[], items[..0], hs[..0]);
    assert none.ids == map[] && Fresh(none.ids, hs[0]);
    assert ProperItem(items[0]);
    LoadInv(map[], items, hs);
    AcceptedIff(map[], items, hs);
    LineupRuns.StartedIs(LoadAll(map[], items, hs), items);
  }

  lemma {:induction false} OnAirIs(a: ChannelCfg)
    requires a == Heard("a", 5000, 5001)
    ensures LineupRuns.SystemInv(OnAir())
    ensures Alone(OnAir().cfg.ids, OnAir().cfg.live, a, SlotAt(5000), SlotAt(5001))
  {
    TuneIs("a", 5000, 5001);
    HeardKeys("a", 5000, 5001);
    AddedAlone(a, SlotAt(5000), SlotAt(5001));
    LoadOfOne(Tune("a", 5000, 5001));
  }

  lemma {:induction false} InsertEvicts(ids: Records, m: Mgr, b: ChannelCfg, s: Slot)
    requires Free(m.ix, Attempted(b)[0]) && s in Attempted(b) && Has(m.ix, s)
    ensures var o := Insert(ids, m, b, 2); o.ids == ids && o.mgr.table == m.table && !Has(o.mgr.ix, s)
  {
    CopyClaims(b);
    ConflictEvictsOwner(m.ix, Copy(b), 2, s);
  }

  /** A refused insertion with a later key that is the original key of a live channel hides that channel. */
  lemma {:induction false} Hides(s: LineupRuns.System, a: ChannelCfg, b: ChannelCfg, p: Slot, q: Slot)
    requires LineupRuns.SystemInv(s) && Alone(s.cfg.ids, s.cfg.live, a, p, q)
    requires a.active && p == Chan(Key(a.orig.addr, a.orig.port))
    requires Free(s.cfg.live.ix, Attempted(b)[0]) && p in Attempted(b) && b.sessionKey != a.sessionKey
    ensures LineupRuns.Allowed(s, LineupRuns.InsertEvent(b, 2))
    ensures var s' := LineupRuns.Step(s, LineupRuns.InsertEvent(b, 2));
            LineupRuns.LiveActive(s', a) && !LineupRuns.Found(s'.cfg, a)
  {
    InsertEvicts(s.cfg.ids, s.cfg.live, b, p);
    assert 1 in Live(Insert(s.cfg.ids, s.cfg.live, b, 2).mgr);
  }

  lemma {:induction false} RtcpPortHides(s: LineupRuns.System, a: ChannelCfg, b: ChannelCfg)
    requires LineupRuns.SystemInv(s) && Alone(s.cfg.ids, s.cfg.live, a, SlotAt(5000), SlotAt(5001))
    requires a == Heard("a", 5000, 5001) && b == Heard("b", 6000, 5000)
    ensures LineupRuns.Allowed(s, LineupRuns.InsertEvent(b, 2))
    ensures var s' := LineupRuns.Step(s, LineupRuns.InsertEvent(b, 2));
            LineupRuns.LiveActive(s', a) && !LineupRuns.Found(s'.cfg, a)
  {
    HeardKeys("b", 6000, 5000);
    OtherKey(6000, 5000);
    Hides(s, a, b, SlotAt(5000), SlotAt(5001));
  }

  /** After that an update is accepted that changes the content of the channel under the same version. */
  lemma {:induction false} HiddenVersionChanges()
    ensures LineupRuns.SystemInv(OnAir())
            && LineupRuns.Allowed(OnAir(), LineupRuns.InsertEvent(Heard("b", 6000, 5000), 2))
    ensures var s, a := LineupRuns.Step(OnAir(), LineupRuns.InsertEvent(Heard("b", 6000, 5000), 2)),
                    Heard("a", 5000, 5001);
            && LineupRuns.LiveActive(s, a)
            && exists items, hs, p :: LineupRuns.Replaces(s.cfg, items, hs, a, p) && !VersionRises(a, p)
  {
    var a, b := Heard("a", 5000, 5001), Heard("b", 6000, 5000);
    OnAirIs(a);
    RtcpPortHides(OnAir(), a, b);
    HeardKeys("a", 5000, 5001);
    LineupRuns.SafeIffFound(LineupRuns.Step(OnAir(), LineupRuns.InsertEvent(b, 2)), a);
  }

  // ----- the repair session -----

  function Install(ssrc: nat): RepairTheorems.RepairEvent {
    RepairTheorems.PktflowEvent(R.SourceId(ssrc, 1, 1), Some([R.SourceId(ssrc, 2, 2)]), _ => true)
  }

  /** A run in which each table has matching rows only, and the second filter install fails nevertheless. */
  lemma {:induction false} SecondFilterFails()
    ensures RepairTheorems.Honest(Install(7)) && RepairTheorems.Honest(Install(8))
    ensures RepairTheorems.Run([Install(7)]).state == R.Active && RepairTheorems.Run([Install(7)]).filter == 7
    ensures RepairTheorems.Run([Install(7), Install(8)]).state == R.Error
  {
    var e, f := Install(7), Install(8);
    var r0 := RepairSpec.Initial();
    var one, two := [e], [e, f];
    assert one[..0] == [] && two[..1] == one;
    RepairTheorems.PktflowSucceedsIff(r0, e.id, e.granted, e.accepts);
    assert RepairTheorems.Run(one[..0]) == r0;
    var r1 := RepairTheorems.Run(one);
    assert r1 == RepairTheorems.Step(r0, e);
    assert RepairTheorems.Run(two) == RepairTheorems.Step(r1, f);
    RepairTheorems.FilterSwitch(r1, f.id, f.granted.value, f.accepts);
  }
}
