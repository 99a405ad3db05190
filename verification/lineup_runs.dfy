/**
 Runs of cfg_init, cfg_update, cfg_commit_update, cfg_insert_channel and cfg_remove_channel: what every run
 keeps, and what happens to the version and checksum of a channel over it.
 */
module LineupRuns {
  import opened Options
  import opened ChannelMap
  import opened Channels
  import opened Registration
  import opened ManagerSpec
  import opened LineupSpec
  import opened UpdateSpec

  /** `ready`: the last update succeeded, and since then channels have at most been removed. */
  datatype System = System(cfg: Config, ready: bool)

  datatype Event =
    | UpdateEvent(items: seq<Item>, hs: seq<Handle>)
    | CommitEvent(hs: seq<Handle>)
    | InsertEvent(channel: ChannelCfg, h: Handle)
    | RemoveEvent(h: Handle)

  /** cfg_init: a rejected lineup is destroyed again, which leaves no live channel. */
  ghost function Started(l: Load): System {
    if Accepted(l) then System(Config(l.ids, l.mgr, EMPTY_MGR), false)
    else System(Config(l.ids - Live(l.mgr), EMPTY_MGR, EMPTY_MGR), false)
  }

  /** A load that passed, or did not, gives a sound start. */
  lemma {:induction false} StartedIs(l: Load, items: seq<Item>)
    requires LoadOk(map[], l, |items|) && AcceptedMeans(l, items)
    ensures SystemInv(Started(l))
    ensures if Acceptable(items) then
              Exact(Started(l).cfg.ids, Started(l).cfg.live)
              && Listed(Started(l).cfg.ids, Started(l).cfg.live) == ChannelsOf(items)
            else Started(l).cfg == Config(map[], EMPTY_MGR, EMPTY_MGR)
  {
    EmptyIsSound(l.ids);
    if Accepted(l) {
      CarriesMeansExact(l.ids, l.mgr, ChannelsOf(items));
    } else {
      EmptyIsSound(map[]);
      assert l.ids - Live(l.mgr) == map[];
    }
  }

  /** After cfg_init the live lineup is the input if that is acceptable, and empty otherwise. */
  lemma {:induction false} InitIs(items: seq<Item>, hs: seq<Handle>)
    requires |hs| == |items| && Supplied(map[], items, hs) && ProperItems(items)
    ensures var cfg := Init(items, hs).cfg;
            && cfg.cand == EMPTY_MGR
            && if Acceptable(items) then Exact(cfg.ids, cfg.live) && Listed(cfg.ids, cfg.live) == ChannelsOf(items)
               else cfg.live == EMPTY_MGR && cfg.ids == map[]
  {
    LoadInv(map[], items, hs);
    AcceptedIff(map[], items, hs);
    StartedIs(LoadAll(map[], items, hs), items);
  }

  ghost function Init(items: seq<Item>, hs: seq<Handle>): (s: System)
    requires |hs| == |items| && Supplied(map[], items, hs) && ProperItems(items)
    ensures SystemInv(s)
  {
    LoadInv(map[], items, hs);
    AcceptedIff(map[], items, hs);
    StartedIs(LoadAll(map[], items, hs), items);
    Started(LoadAll(map[], items, hs))
  }

  lemma {:induction false} EmptyIsSound(ids: Records)
    ensures Inv(ids, EMPTY_MGR) && Live(EMPTY_MGR) == {}
  {
  }

  /** The configuration is sound, and a candidate that is ready is compatible and suits the live versions. */
  ghost predicate SystemInv(s: System) {
    && ConfigInv(s.cfg)
    && (s.ready ==>
        && Compatible(Listed(s.cfg.ids, s.cfg.cand))
        && VersionsOk(s.cfg.ids, s.cfg.live, s.cfg.cand))
  }

  /**
   Updates and commits may come at any time, a commit also of a rejected candidate. Handles come from the id
   manager, a removed channel is a live one, and an insertion is harmless: others make the live manager
   unsound (ManagerSpec.InsertKeepsInvIff).
   */
  ghost predicate Allowed(s: System, e: Event) {
    match e
    case UpdateEvent(items, hs) =>
      |hs| == |items| && Supplied(s.cfg.ids - Live(s.cfg.cand), items, hs) && ProperItems(items)
    case CommitEvent(hs) =>
      |hs| == |s.cfg.cand.table| && CommitSupplied(s.cfg.cand.table, CommitStart(s.cfg), hs, |hs|)
    case InsertEvent(c, h) => Fresh(s.cfg.ids, h) && Harmless(s.cfg.live, c)
    case RemoveEvent(h) => h in Live(s.cfg.live)
  }

  ghost function Step(s: System, e: Event): (s': System)
    requires SystemInv(s) && Allowed(s, e)
    ensures SystemInv(s')
  {
    match e
    case UpdateEvent(items, hs) =>
      UpdateEffect(s.cfg, items, hs);
      System(Update(s.cfg, items, hs).0, Update(s.cfg, items, hs).1)
    case CommitEvent(hs) =>
      CommitEffect(s.cfg, hs);
      System(Config(Committed(s.cfg, hs).ids, Committed(s.cfg, hs).mgr, s.cfg.cand), false)
    case InsertEvent(c, h) =>
      InsertIsSound(s.cfg, c, h);
      var o := Insert(s.cfg.ids, s.cfg.live, c, h);
      System(Config(o.ids, o.mgr, s.cfg.cand), false)
    case RemoveEvent(h) =>
      RemoveIsSound(s, h);
      var o := Delete(s.cfg.ids, s.cfg.live, h);
      System(Config(o.ids, o.mgr, s.cfg.cand), s.ready)
  }

  /** What an insertion does to the records. */
  lemma {:induction false} InsertedRecords(ids: Records, m: Mgr, p: ChannelCfg, h: Handle)
    requires Fresh(ids, h)
    ensures var o := Insert(ids, m, p, h); o.ids == if o.code == Success then ids[h := Copy(p)] else ids
  {
    assert ids[h := Copy(p)] - {h} == ids;
  }

  /** A harmless insertion leaves the candidate alone. */
  lemma {:induction false} InsertIsSound(c: Config, p: ChannelCfg, h: Handle)
    requires ConfigInv(c) && Fresh(c.ids, h) && Harmless(c.live, p)
    ensures var o := Insert(c.ids, c.live, p, h); ConfigInv(Config(o.ids, o.mgr, c.cand))
  {
    var o := Insert(c.ids, c.live, p, h);
    InsertKeepsInvIff(c.ids, c.live, p, h);
    InsertedRecords(c.ids, c.live, p, h);
    InvFrame(c.ids, o.ids, c.cand);
  }

  lemma {:induction false} InsertedIsNew(c: Config, p: ChannelCfg, h: Handle)
    requires Insert(c.ids, c.live, p, h).code == Success
    ensures p.sessionKey !in c.live.ix.keys
  {
    RegisterSucceedsIff(c.live.ix, Copy(p), h);
  }

  /** A removal leaves the candidate alone, and only takes away what it is compared with. */
  lemma {:induction false} RemoveIsSound(s: System, h: Handle)
    requires SystemInv(s) && h in Live(s.cfg.live)
    ensures var o := Delete(s.cfg.ids, s.cfg.live, h);
            SystemInv(System(Config(o.ids, o.mgr, s.cfg.cand), s.ready))
  {
    var c, o := s.cfg, Delete(s.cfg.ids, s.cfg.live, h);
    RemoveKeepsConfig(c, h);
    if s.ready {
      ListedFrame(c.ids, o.ids, c.cand);
      RemoveKeepsRows(c, h);
    }
  }

  lemma {:induction false} RemoveKeepsConfig(c: Config, h: Handle)
    requires ConfigInv(c) && h in Live(c.live)
    ensures var o := Delete(c.ids, c.live, h);
            ConfigInv(Config(o.ids, o.mgr, c.cand)) && Agree(c.ids, o.ids, Live(c.cand))
  {
    DeleteKeepsInv(c.ids, c.live, h);
    InvFrame(c.ids, Delete(c.ids, c.live, h).ids, c.cand);
  }

  lemma {:induction false} ListedFrame(ids: Records, ids': Records, m: Mgr)
    requires Live(m) <= ids.Keys && Agree(ids, ids', Live(m)) && ILLEGAL_ID !in m.table
    ensures forall i :: 0 <= i < |m.table| ==> m.table[i] in ids && m.table[i] in ids'
    ensures Listed(ids', m) == Listed(ids, m)
  {
    assert forall i :: 0 <= i < |m.table| ==> m.table[i] in Live(m);
  }

  lemma {:induction false} RemoveKeepsRows(c: Config, h: Handle)
    requires ConfigInv(c) && h in Live(c.live) && VersionsOk(c.ids, c.live, c.cand)
    ensures var o := Delete(c.ids, c.live, h); VersionsOk(o.ids, o.mgr, c.cand)
  {
    var o := Delete(c.ids, c.live, h);
    forall i | 0 <= i < |c.cand.table| ensures RowOk(o.ids, o.mgr, c.cand.table[i]) {
      assert c.cand.table[i] in Live(c.cand);
      RemoveKeepsRow(c, h, c.cand.table[i]);
    }
  }

  lemma {:induction false} RemoveKeepsRow(c: Config, h: Handle, x: Handle)
    requires ConfigInv(c) && h in Live(c.live) && x in Live(c.cand) && RowOk(c.ids, c.live, x)
    ensures var o := Delete(c.ids, c.live, h); RowOk(o.ids, o.mgr, x)
  {
    var o, p := Delete(c.ids, c.live, h), c.ids[x];
    DeleteKeepsInv(c.ids, c.live, h);
    UnregisterShrinks(c.live.ix, c.ids[h]);
    var k := Key(p.orig.addr, p.orig.port);
    if k in o.mgr.ix.chan {
      assert Has(o.mgr.ix, Chan(k)) && o.mgr.ix.chan[k] == c.live.ix.chan[k] && o.mgr.ix.chan[k] in Live(o.mgr);
    }
  }

  // ----- versions -----

  /** What identifies a channel across lineups. */
  datatype Identity = Identity(sessionKey: string, addr: Addr, port: Port)

  function IdentityOf(c: ChannelCfg): Identity { Identity(c.sessionKey, c.orig.addr, c.orig.port) }

  /** c is an active channel of the live lineup. */
  ghost predicate LiveActive(s: System, c: ChannelCfg) {
    c.active && exists h :: h in Live(s.cfg.live) && h in s.cfg.ids && s.cfg.ids[h] == c
  }

  /** The live channel is what its original address and port lead to. */
  ghost predicate Found(c: Config, a: ChannelCfg) {
    var k := Key(a.orig.addr, a.orig.port);
    k in c.live.ix.chan && c.live.ix.chan[k] in Live(c.live) && c.live.ix.chan[k] in c.ids
    && c.ids[c.live.ix.chan[k]] == a && a.active
  }

  lemma {:induction false} ActivesAreCopies(cs: seq<ChannelCfg>, b: ChannelCfg)
    requires b in Actives(cs)
    ensures exists i :: 0 <= i < |cs| && cs[i].active && b == Copy(cs[i])
    decreases |cs|
  {
    var n := |cs| - 1;
    if b in Actives(cs[..n]) {
      ActivesAreCopies(cs[..n], b);
      var i :| 0 <= i < n && cs[..n][i].active && b == Copy(cs[..n][i]);
      assert cs[i].active;
    }
  }

  /** A commit after a successful update: the version does not drop and content changes only with it. */
  lemma {:induction false} CommitKeepsVersions(c: Config, ids': Records, m: Mgr, a: ChannelCfg, b: ChannelCfg)
    requires ConfigInv(c) && VersionsOk(c.ids, c.live, c.cand) && CommitResult(ids', m, Listed(c.ids, c.cand))
    requires Found(c, a) && b in Listed(ids', m) && IdentityOf(a) == IdentityOf(b)
    ensures VersionRises(a, b)
  {
    var cs := Listed(c.ids, c.cand);
    ActivesAreCopies(cs, b);
    var i :| 0 <= i < |cs| && cs[i].active && b == Copy(cs[i]);
    assert RowOk(c.ids, c.live, c.cand.table[i]);
    assert Predecessor(c.ids, c.live, cs[i]) == Some(a);
  }

  /** Two live channels with the same session key are the same. */
  lemma {:induction false} IdentityIsUnique(s: System, a: ChannelCfg, b: ChannelCfg)
    requires SystemInv(s) && LiveActive(s, a) && LiveActive(s, b) && a.sessionKey == b.sessionKey
    ensures a == b
  {
  }

  /** What is live after an insertion or a removal was so before, or brings a new session key. */
  lemma {:induction false} LiveBefore(s: System, e: Event, b: ChannelCfg)
    requires SystemInv(s) && Allowed(s, e) && !e.CommitEvent? && LiveActive(Step(s, e), b)
    ensures LiveActive(s, b) || b.sessionKey !in s.cfg.live.ix.keys
  {
    var s' := Step(s, e);
    var x :| x in Live(s'.cfg.live) && x in s'.cfg.ids && s'.cfg.ids[x] == b;
    match e
    case UpdateEvent(items, hs) =>
      UpdateEffect(s.cfg, items, hs);
    case InsertEvent(c, h) =>
      InsertedRecords(s.cfg.ids, s.cfg.live, c, h);
      InsertKeepsInvIff(s.cfg.ids, s.cfg.live, c, h);
      if Insert(s.cfg.ids, s.cfg.live, c, h).code == Success {
        InsertedIsNew(s.cfg, c, h);
      }
    case RemoveEvent(h) =>
      DeleteKeepsInv(s.cfg.ids, s.cfg.live, h);
  }

  /** Between consecutive lineups, whatever the event, if a commit is ready and the channel can be found. */
  lemma {:induction false} StepKeepsVersions(s: System, e: Event, a: ChannelCfg, b: ChannelCfg)
    requires SystemInv(s) && Allowed(s, e) && (e.CommitEvent? ==> s.ready && Found(s.cfg, a))
    requires LiveActive(s, a) && LiveActive(Step(s, e), b) && IdentityOf(a) == IdentityOf(b)
    ensures VersionRises(a, b)
  {
    if e.CommitEvent? {
      CommitEffect(s.cfg, e.hs);
      var m := Committed(s.cfg, e.hs);
      ListedIfLive(m.ids, m.mgr, b);
      CommitKeepsVersions(s.cfg, m.ids, m.mgr, a, b);
    } else {
      LiveBefore(s, e, b);
      KeyIsTaken(s, a);
      IdentityIsUnique(s, a, b);
    }
  }

  lemma {:induction false} ListedIfLive(ids: Records, m: Mgr, b: ChannelCfg)
    requires Exact(ids, m) && exists h :: h in Live(m) && h in ids && ids[h] == b
    ensures b in Listed(ids, m)
  {
    var h :| h in Live(m) && h in ids && ids[h] == b;
    var i :| 0 <= i < |m.table| && m.table[i] == h;
    assert Listed(ids, m)[i] == b;
  }

  lemma {:induction false} KeyIsTaken(s: System, a: ChannelCfg)
    requires SystemInv(s) && LiveActive(s, a)
    ensures a.sessionKey in s.cfg.live.ix.keys
  {
  }

  // ----- runs -----

  ghost predicate AllowedRun(s: System, events: seq<Event>)
    requires SystemInv(s)
    decreases |events|, 0
  {
    events == [] ||
    (AllowedRun(s, events[..|events| - 1]) && Allowed(Run(s, events[..|events| - 1]), events[|events| - 1]))
  }

  /** The system after a run; the configuration is sound at every point. */
  ghost function Run(s: System, events: seq<Event>): (s': System)
    requires SystemInv(s) && AllowedRun(s, events)
    ensures SystemInv(s')
    decreases |events|, 1
  {
    if events == [] then s else Step(Run(s, events[..|events| - 1]), events[|events| - 1])
  }

  /** A channel of this identity is live and active. */
  ghost predicate Tracked(s: System, id: Identity) { exists c :: LiveActive(s, c) && IdentityOf(c) == id }

  /** The channel of this identity can be found by its original address and port. */
  ghost predicate Findable(s: System, id: Identity) {
    forall c :: LiveActive(s, c) && IdentityOf(c) == id ==> Found(s.cfg, c)
  }

  /** At every point of the run the identity is tracked, and at every commit, which is ready, it is findable. */
  ghost predicate AlwaysTracked(s: System, events: seq<Event>, id: Identity)
    requires SystemInv(s) && AllowedRun(s, events)
    decreases |events|
  {
    && Tracked(Run(s, events), id)
    && (events != [] ==>
        var before := Run(s, events[..|events| - 1]);
        && AlwaysTracked(s, events[..|events| - 1], id)
        && (events[|events| - 1].CommitEvent? ==> before.ready && Findable(before, id)))
  }

  /**
   Over any run, however many updates are rejected and channels inserted or removed on the way, a channel
   that stays live never drops in version, and ends with another checksum only under a strictly higher
   version, provided that commits follow successful updates and find it.
   */
  lemma {:induction false} VersionsOnlyRise(s: System, events: seq<Event>, a: ChannelCfg, b: ChannelCfg)
    requires SystemInv(s) && AllowedRun(s, events) && AlwaysTracked(s, events, IdentityOf(a))
    requires LiveActive(s, a) && LiveActive(Run(s, events), b) && IdentityOf(a) == IdentityOf(b)
    ensures VersionRises(a, b)
    decreases |events|
  {
    if events == [] {
      IdentityIsUnique(s, a, b);
    } else {
      var before := events[..|events| - 1];
      var c :| LiveActive(Run(s, before), c) && IdentityOf(c) == IdentityOf(a);
      VersionsOnlyRise(s, before, a, c);
      StepKeepsVersions(Run(s, before), events[|events| - 1], c, b);
    }
  }

  // ----- when a channel can be found -----

  /** After a successful commit every live channel can be found. */
  lemma {:induction false} CommitFindsAll(s: System, hs: seq<Handle>, a: ChannelCfg)
    requires SystemInv(s) && Allowed(s, CommitEvent(hs)) && Committed(s.cfg, hs).ok
    requires LiveActive(Step(s, CommitEvent(hs)), a)
    ensures Found(Step(s, CommitEvent(hs)).cfg, a)
  {
    CommitEffect(s.cfg, hs);
    var m := Committed(s.cfg, hs);
    var h :| h in Live(m.mgr) && h in m.ids && m.ids[h] == a;
    var i :| 0 <= i < |m.mgr.table| && m.mgr.table[i] == h;
    assert FoundByOriginal(m.ids, m.mgr, i);
  }

  /**
   An insertion hides a channel that was found exactly when it is refused past its first key and has the
   channel's original address and port among its removal keys.
   */
  lemma {:induction false} InsertKeepsFoundIff(s: System, c: ChannelCfg, h: Handle, a: ChannelCfg)
    requires SystemInv(s) && Allowed(s, InsertEvent(c, h)) && LiveActive(s, a) && Found(s.cfg, a)
    ensures var k := Chan(Key(a.orig.addr, a.orig.port));
            Found(Step(s, InsertEvent(c, h)).cfg, a) <==>
            Register(s.cfg.live.ix, Copy(c), h).1 || !Free(s.cfg.live.ix, Attempted(c)[0]) || k !in Removed(c)
  {
    var k, o := Chan(Key(a.orig.addr, a.orig.port)), Insert(s.cfg.ids, s.cfg.live, c, h);
    InsertedRecords(s.cfg.ids, s.cfg.live, c, h);
    assert Has(s.cfg.live.ix, k) && Owner(s.cfg.live.ix, k) in Live(s.cfg.live);
    RegisterKeepsEntryIff(s.cfg.live.ix, c, h, k);
    var (ix, ok) := Register(s.cfg.live.ix, Copy(c), h);
    if o.mgr.ix != ix {
      assert ok && o.mgr.ix == Unregister(ix, Copy(c));
      UndoKeepsEntry(s.cfg.live.ix, Copy(c), h, k);
    }
  }

  /** A registration that is undone leaves the entries of others in the channel map alone. */
  lemma {:induction false} UndoKeepsEntry(ix: Index, c: ChannelCfg, h: Handle, k: Slot)
    requires Has(ix, k) && k.Chan? && Register(ix, c, h).1
    ensures var u := Unregister(Register(ix, c, h).0, c); Has(u, k) && Owner(u, k) == Owner(ix, k)
  {
    RegisterSucceedsIff(ix, c, h);
    UnregisterHas(Register(ix, c, h).0, c, k);
    assert k in Removed(c) ==> k in Attempted(c);
  }

  /** What becomes of an entry when another channel is registered. */
  lemma {:induction false} RegisterKeepsEntryIff(ix: Index, c: ChannelCfg, h: Handle, k: Slot)
    requires Has(ix, k) && (c.sessionKey !in ix.keys || !Free(ix, Attempted(c)[0]))
    ensures var (ix', ok) := Register(ix, Copy(c), h);
            && (Has(ix', k) <==> ok || !Free(ix, Attempted(c)[0]) || k !in Removed(c))
            && (Has(ix', k) ==> Owner(ix', k) == Owner(ix, k))
  {
    var d := Copy(c);
    CopyClaims(c);
    assert Removed(d) == Removed(c);
    RegisterSucceedsIff(ix, d, h);
    if !Register(ix, d, h).1 {
      RejectionEffect(ix, d, h);
      UnregisterHas(ix, d, k);
    }
  }

  /** An accepted update replaces the live channel a by its active channel p. */
  ghost predicate Replaces(c: Config, items: seq<Item>, hs: seq<Handle>, a: ChannelCfg, p: ChannelCfg) {
    && |hs| == |items| && Supplied(c.ids - Live(c.cand), items, hs) && ProperItems(items) && Update(c, items, hs).1
    && AllValid(items) && p in ChannelsOf(items) && p.active && IdentityOf(p) == IdentityOf(a)
  }

  /**
   Every accepted update keeps or raises the version of a live channel, and changes its content only with it,
   exactly when the channel can be found by its original address and port.
   */
  lemma {:induction false} SafeIffFound(s: System, a: ChannelCfg)
    requires SystemInv(s) && LiveActive(s, a) && OwnKeysOk(a)
    ensures (forall items, hs, p :: Replaces(s.cfg, items, hs, a, p) ==> VersionRises(a, p)) <==> Found(s.cfg, a)
  {
    if Found(s.cfg, a) {
      forall items, hs, p | Replaces(s.cfg, items, hs, a, p) ensures VersionRises(a, p) {
        FoundIsSafe(s.cfg, items, hs, a, p);
      }
    } else {
      HiddenIsUnsafe(s, a);
    }
  }

  lemma {:induction false} FoundIsSafe(c: Config, items: seq<Item>, hs: seq<Handle>, a: ChannelCfg, p: ChannelCfg)
    requires ConfigInv(c) && Found(c, a) && Replaces(c, items, hs, a, p)
    ensures VersionRises(a, p)
  {
    UpdateEffect(c, items, hs);
    var cs := ChannelsOf(items);
    var i :| 0 <= i < |cs| && cs[i] == p;
    assert Compared(c.ids, c.live, a, cs[i]);
  }

  /** The same channel under other content. */
  function Changed(a: ChannelCfg): ChannelCfg { a.(used := false, chksum := a.chksum + 1) }

  /** One session with the keys and the version of a channel, but other content. */
  function ChangedItems(a: ChannelCfg): seq<Item> { [Parsed(Session(a.sessionKey, Some(Changed(a))))] }

  lemma {:induction false} ChangedIsAcceptable(a: ChannelCfg)
    requires OwnKeysOk(a)
    ensures Acceptable(ChangedItems(a)) && ProperItems(ChangedItems(a)) && ChannelsOf(ChangedItems(a)) == [Changed(a)]
  {
    assert Attempted(Changed(a)) == Attempted(a);
    assert ChannelsOf(ChangedItems(a)) == [Changed(a)];
  }

  /** What a channel with the keys of a live one is compared with is the live one, if it can be found. */
  lemma {:induction false} ComparedIsFound(s: System, a: ChannelCfg, o: ChannelCfg)
    requires SystemInv(s) && LiveActive(s, a) && Compared(s.cfg.ids, s.cfg.live, o, Changed(a))
    ensures Found(s.cfg, a)
  {
    var c, k := s.cfg, Key(a.orig.addr, a.orig.port);
    assert Has(c.live.ix, Chan(k)) && c.live.ix.chan[k] in Live(c.live);
    assert LiveActive(s, o);
    IdentityIsUnique(s, a, o);
  }

  lemma {:induction false} HiddenIsUncompared(s: System, a: ChannelCfg)
    requires SystemInv(s) && LiveActive(s, a) && !Found(s.cfg, a)
    ensures VersionsSuit(s.cfg.ids, s.cfg.live, [Changed(a)])
  {
    forall o ensures !Compared(s.cfg.ids, s.cfg.live, o, Changed(a)) {
      if Compared(s.cfg.ids, s.cfg.live, o, Changed(a)) {
        ComparedIsFound(s, a, o);
      }
    }
  }

  lemma {:induction false} HiddenIsUnsafe(s: System, a: ChannelCfg)
    requires SystemInv(s) && LiveActive(s, a) && OwnKeysOk(a) && !Found(s.cfg, a)
    ensures exists items, hs, p :: Replaces(s.cfg, items, hs, a, p) && !VersionRises(a, p)
  {
    var c, p, items := s.cfg, Changed(a), ChangedItems(a);
    SupplyExists(c.ids - Live(c.cand), items);
    var hs: seq<Handle> :| |hs| == |items| && Supplied(c.ids - Live(c.cand), items, hs);
    ChangedIsAcceptable(a);
    HiddenIsUncompared(s, a);
    assert Update(c, items, hs).1 by {
      UpdateEffect(c, items, hs);
    }
    assert [p][0] == p;
    assert Replaces(c, items, hs, a, p) && !VersionRises(a, p);
  }
}
