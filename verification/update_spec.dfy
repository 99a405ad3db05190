/**
 The two-phase update of cfg/cfg_config.c on values: load a candidate lineup beside the live one, check it
 against the live versions, and commit it. Both managers share the record table.
 */
module UpdateSpec {
  import opened Options
  import opened ChannelMap
  import opened Channels
  import opened Registration
  import opened ManagerSpec
  import opened SlotLists
  import opened LineupSpec

  /** system_cfg.channel_mgr and new_channel_mgr over their common records. */
  datatype Config = Config(ids: Records, live: Mgr, cand: Mgr)

  /** The channels a handle table lists. */
  ghost function Listed(ids: Records, m: Mgr): (cs: seq<ChannelCfg>)
    requires forall i :: 0 <= i < |m.table| ==> m.table[i] in ids
    ensures |cs| == |m.table|
  {
    seq(|m.table|, i requires 0 <= i < |m.table| => ids[m.table[i]])
  }

  /** The manager has no holes, and every key of every channel leads to it. */
  ghost predicate Exact(ids: Records, m: Mgr) {
    && (forall i :: 0 <= i < |m.table| ==> m.table[i] != ILLEGAL_ID && m.table[i] in ids)
    && Carries(ids, m, Listed(ids, m))
  }

  lemma {:induction false} CarriesMeansExact(ids: Records, m: Mgr, cs: seq<ChannelCfg>)
    requires Carries(ids, m, cs)
    ensures Exact(ids, m) && Listed(ids, m) == cs
  {
    assert Listed(ids, m) == cs;
  }

  /**
   Both managers are sound, with records of their own. The live one may have holes, and it may lack keys that
   a refused insertion took away.
   */
  ghost predicate ConfigInv(c: Config) {
    && Inv(c.ids, c.live)
    && Inv(c.ids, c.cand) && ILLEGAL_ID !in c.cand.table
    && Live(c.live) !! Live(c.cand)
    && c.ids.Keys == Live(c.live) + Live(c.cand)
  }

  // ----- records of one manager do not depend on those of the other -----

  ghost predicate Agree(ids: Records, ids': Records, hs: set<Handle>) {
    forall h :: h in hs ==> h in ids && h in ids' && ids'[h] == ids[h]
  }

  lemma {:induction false} InvFrame(ids: Records, ids': Records, m: Mgr)
    requires Inv(ids, m) && Agree(ids, ids', Live(m))
    ensures Inv(ids', m)
  {
  }

  lemma {:induction false} ExactFrame(ids: Records, ids': Records, m: Mgr)
    requires Exact(ids, m) && Agree(ids, ids', Live(m))
    ensures Exact(ids', m) && Listed(ids', m) == Listed(ids, m)
  {
    InvFrame(ids, ids', m);
    assert forall i :: 0 <= i < |m.table| ==> m.table[i] in Live(m);
    assert Listed(ids', m) == Listed(ids, m);
  }

  // ----- phase one -----

  /** The active live channel under the candidate's original address and port, if it has the same session key. */
  function Predecessor(ids: Records, live: Mgr, p: ChannelCfg): Option<ChannelCfg> {
    var k := Key(p.orig.addr, p.orig.port);
    if k !in live.ix.chan then None
    else
      var o := ActiveRecord(ids, live.ix.chan[k]);
      if o.Some? && o.value.sessionKey == p.sessionKey then o else None
  }

  /** cfg_validate_all on one row: a higher version, or the same version and content. */
  predicate VersionOk(old_: ChannelCfg, p: ChannelCfg) {
    old_.version < p.version || (old_.version == p.version && old_.chksum == p.chksum)
  }

  predicate RowOk(ids: Records, live: Mgr, h: Handle) {
    var p := ActiveRecord(ids, h);
    p.Some? ==>
      var o := Predecessor(ids, live, p.value);
      o.Some? ==> VersionOk(o.value, p.value)
  }

  predicate VersionsOk(ids: Records, live: Mgr, cand: Mgr) {
    forall i :: 0 <= i < |cand.table| ==> RowOk(ids, live, cand.table[i])
  }

  /** cfg_update: the old candidate is dropped, the new one loaded and validated. */
  function Update(c: Config, items: seq<Item>, hs: seq<Handle>): (Config, bool)
    requires |hs| == |items|
  {
    var l := LoadAll(c.ids - Live(c.cand), items, hs);
    (Config(l.ids, c.live, l.mgr), Accepted(l) && VersionsOk(l.ids, c.live, l.mgr))
  }

  /** The update compares a candidate with an active live channel under the same session key. */
  ghost predicate Compared(ids: Records, live: Mgr, a: ChannelCfg, p: ChannelCfg) {
    var k := Key(p.orig.addr, p.orig.port);
    && k in live.ix.chan && live.ix.chan[k] in Live(live) && live.ix.chan[k] in ids
    && ids[live.ix.chan[k]] == a && a.active && a.sessionKey == p.sessionKey
  }

  /** The version does not drop, and the content changes only with it. */
  predicate VersionRises(a: ChannelCfg, p: ChannelCfg) {
    a.version <= p.version && (a.chksum != p.chksum ==> a.version < p.version)
  }

  /**
   Accepted or not, an update leaves the live handle table, maps and records as they are. It is accepted
   exactly when its sessions can be loaded and every active one has a version that suits the active live
   channel, if any, which has the same session key and owns its original address and port. An accepted
   update has exactly the channels of its input as candidate.
   */
  lemma {:induction false} UpdateEffect(c: Config, items: seq<Item>, hs: seq<Handle>)
    requires ConfigInv(c) && |hs| == |items| && Supplied(c.ids - Live(c.cand), items, hs) && ProperItems(items)
    ensures var (c', ok) := Update(c, items, hs);
            && ConfigInv(c')
            && c'.live == c.live && Agree(c.ids, c'.ids, Live(c.live))
            && (ok <==> Acceptable(items) && VersionsSuit(c.ids, c.live, ChannelsOf(items)))
            && (ok ==> Exact(c'.ids, c'.cand) && Listed(c'.ids, c'.cand) == ChannelsOf(items))
  {
    var ids := c.ids - Live(c.cand);
    var l := LoadAll(ids, items, hs);
    LoadInv(ids, items, hs);
    AcceptedIff(ids, items, hs);
    assert ids.Keys == Live(c.live);
    assert Agree(c.ids, l.ids, Live(c.live));
    InvFrame(c.ids, l.ids, c.live);
    if Accepted(l) {
      CarriesMeansExact(l.ids, l.mgr, ChannelsOf(items));
      VersionsOkIff(c.ids, l.ids, c.live, l.mgr, ChannelsOf(items));
    }
  }

  /** Every active channel of the list has a version that suits the live channel it is compared with. */
  ghost predicate VersionsSuit(ids: Records, live: Mgr, cs: seq<ChannelCfg>) {
    forall i, a :: 0 <= i < |cs| && cs[i].active && Compared(ids, live, a, cs[i]) ==> VersionRises(a, cs[i])
  }

  /** The rows of a candidate without holes are acceptable exactly when the versions of its channels suit. */
  lemma {:induction false} VersionsOkIff(ids: Records, ids': Records, live: Mgr, cand: Mgr, cs: seq<ChannelCfg>)
    requires Inv(ids, live) && Agree(ids, ids', Live(live)) && Lists(ids', cand, cs)
    ensures VersionsOk(ids', live, cand) <==> VersionsSuit(ids, live, cs)
  {
    forall i | 0 <= i < |cs|
      ensures RowOk(ids', live, cand.table[i]) <==>
              (cs[i].active ==> forall a :: Compared(ids, live, a, cs[i]) ==> VersionRises(a, cs[i]))
    {
      RowOkIff(ids, ids', live, cand.table[i], cs[i]);
    }
  }

  lemma {:induction false} RowOkIff(ids: Records, ids': Records, live: Mgr, h: Handle, p: ChannelCfg)
    requires Inv(ids, live) && Agree(ids, ids', Live(live)) && h != ILLEGAL_ID && h in ids' && ids'[h] == p
    ensures RowOk(ids', live, h) <==> (p.active ==> forall a :: Compared(ids, live, a, p) ==> VersionRises(a, p))
  {
    var k := Key(p.orig.addr, p.orig.port);
    if p.active && k in live.ix.chan {
      assert Has(live.ix, Chan(k)) && live.ix.chan[k] in Live(live);
      var o := ActiveRecord(ids, live.ix.chan[k]);
      assert ActiveRecord(ids', live.ix.chan[k]) == o;
      if o.Some? && o.value.sessionKey == p.sessionKey {
        assert Compared(ids, live, o.value, p);
      }
    }
  }

  // ----- phase two -----

  /** Copies of the active channels, in order. */
  ghost function Actives(cs: seq<ChannelCfg>): seq<ChannelCfg> {
    if cs == [] then []
    else
      var n := |cs| - 1;
      Actives(cs[..n]) + if cs[n].active then [Copy(cs[n])] else []
  }

  datatype Commit = Commit(ids: Records, mgr: Mgr, ok: bool)

  /** One candidate of cfg_commit_update; a failed insertion ends it. */
  function CommitNext(prev: Commit, candidate: Handle, h: Handle): Commit {
    var p := ActiveRecord(prev.ids, candidate);
    if !prev.ok || p.None? then prev
    else
      var o := Insert(prev.ids, prev.mgr, p.value, h);
      Commit(o.ids, o.mgr, o.code == Success)
  }

  /** The first n candidates of cfg_commit_update, the i-th insertion using the i-th handle. */
  function CommitRun(table: seq<Handle>, start: Commit, hs: seq<Handle>, n: nat): Commit
    requires n <= |hs| && n <= |table|
  {
    if n == 0 then start else CommitNext(CommitRun(table, start, hs, n - 1), table[n - 1], hs[n - 1])
  }

  /** Each handle is free when it is given out. */
  predicate CommitSupplied(table: seq<Handle>, start: Commit, hs: seq<Handle>, n: nat)
    requires n <= |hs| && n <= |table|
  {
    n == 0 || (CommitSupplied(table, start, hs, n - 1) && Fresh(CommitRun(table, start, hs, n - 1).ids, hs[n - 1]))
  }

  /** The id manager can always give out a handle, so every commit has a supply. */
  lemma {:induction false} CommitSupplyExists(table: seq<Handle>, start: Commit, n: nat)
    requires n <= |table|
    ensures exists hs: seq<Handle> :: |hs| == n && CommitSupplied(table, start, hs, n)
  {
    if n == 0 {
      var none: seq<Handle> := [];
      assert |none| == n && CommitSupplied(table, start, none, n);
    } else {
      CommitSupplyExists(table, start, n - 1);
      var before: seq<Handle> :| |before| == n - 1 && CommitSupplied(table, start, before, n - 1);
      var hs := before + [Above(CommitRun(table, start, before, n - 1).ids.Keys + {ILLEGAL_ID})];
      SamePrefix(table, start, before, hs, n - 1);
      assert |hs| == n && CommitSupplied(table, start, hs, n);
    }
  }

  /** A commit looks only at the handles it has used. */
  lemma {:induction false} SamePrefix(table: seq<Handle>, start: Commit, hs: seq<Handle>, hs': seq<Handle>, n: nat)
    requires n <= |table| && n <= |hs| && n <= |hs'| && hs[..n] == hs'[..n]
    ensures CommitRun(table, start, hs, n) == CommitRun(table, start, hs', n)
    ensures CommitSupplied(table, start, hs, n) <==> CommitSupplied(table, start, hs', n)
  {
    if n > 0 {
      assert hs[n - 1] == hs[..n][n - 1] == hs'[n - 1];
      assert hs[..n - 1] == hs[..n][..n - 1] == hs'[..n - 1];
      SamePrefix(table, start, hs, hs', n - 1);
    }
  }

  /** cfg_commit_update starts by destroying the live channels. */
  function CommitStart(c: Config): Commit {
    var o := Emptied(c.ids, c.live);
    Commit(o.ids, o.mgr, true)
  }

  function Committed(c: Config, hs: seq<Handle>): Commit
    requires |hs| == |c.cand.table|
  {
    CommitRun(c.cand.table, CommitStart(c), hs, |hs|)
  }

  /** Part way through a commit both managers are sound, and the candidate's records are still there. */
  ghost predicate CommitFrame(c: Config, m: Commit) {
    && Inv(m.ids, m.mgr)
    && Agree(c.ids, m.ids, Live(c.cand))
    && Live(m.mgr) !! Live(c.cand)
    && m.ids.Keys == Live(m.mgr) + Live(c.cand)
  }

  ghost function KeysOf(cs: seq<ChannelCfg>): set<string> {
    if cs == [] then {} else KeysOf(cs[..|cs| - 1]) + {cs[|cs| - 1].sessionKey}
  }

  lemma {:induction false} KeysOfSnoc(cs: seq<ChannelCfg>, p: ChannelCfg)
    ensures KeysOf(cs + [p]) == KeysOf(cs) + {p.sessionKey}
  {
    assert (cs + [p])[..|cs|] == cs;
  }

  lemma {:induction false} NotAmongKeys(cs: seq<ChannelCfg>, k: string)
    requires forall i :: 0 <= i < |cs| ==> cs[i].sessionKey != k
    ensures k !in KeysOf(cs)
  {
    if cs != [] {
      NotAmongKeys(cs[..|cs| - 1], k);
    }
  }

  /**
   After the candidates cs: no insertion has failed exactly when the actives among them are compatible, and
   then the live manager carries these. Session keys are theirs only.
   */
  ghost predicate CommitState(c: Config, m: Commit, cs: seq<ChannelCfg>) {
    && CommitFrame(c, m)
    && m.mgr.ix.keys.Keys <= KeysOf(cs)
    && (m.ok <==> Compatible(Actives(cs)))
    && (m.ok ==> Carries(m.ids, m.mgr, Actives(cs)))
  }

  /** The same, sealed for the induction over the candidates. */
  ghost predicate Progress(c: Config, m: Commit, cs: seq<ChannelCfg>) {
    forall seal: nat {:trigger Unsealed(seal)} :: Unsealed(seal) ==> CommitState(c, m, cs)
  }

  lemma {:induction false} CopyClaims(c: ChannelCfg)
    ensures Attempted(Copy(c)) == Attempted(c) && Copy(c).sessionKey == c.sessionKey
    ensures OwnKeysOk(Copy(c)) <==> OwnKeysOk(c)
  {
  }

  /** A copied candidate fits beside the copies of the candidates before it. */
  lemma {:induction false} CopyFits(cs: seq<ChannelCfg>, c: ChannelCfg)
    requires Fits(cs, c)
    ensures Fits(Actives(cs), Copy(c))
    decreases |cs|
  {
    CopyClaims(c);
    if cs != [] {
      var n := |cs| - 1;
      assert Fits(cs[..n], c);
      CopyFits(cs[..n], c);
      CopyClaims(cs[n]);
    }
  }

  /** The actives of a compatible list are compatible. */
  lemma {:induction false} ActivesCompatible(cs: seq<ChannelCfg>)
    requires Compatible(cs)
    ensures Compatible(Actives(cs))
    decreases |cs|
  {
    if cs != [] {
      var n := |cs| - 1;
      var before, c := cs[..n], cs[n];
      assert Compatible(before) && Fits(before, c) by {
        assert cs == before + [c];
        CompatibleSnoc(before, c);
      }
      assert Compatible(Actives(before)) by {
        ActivesCompatible(before);
      }
      CopyFits(before, c);
      CompatibleSnoc(Actives(before), Copy(c));
    }
  }

  /** One insertion beside the channels carried so far succeeds exactly when the newcomer fits. */
  lemma {:induction false} InsertBesideIff(ids: Records, m: Mgr, cs: seq<ChannelCfg>, p: ChannelCfg, h: Handle)
    requires Carries(ids, m, cs) && Fresh(ids, h) && |cs| < MAX_CHANNELS
    ensures var o := Insert(ids, m, p, h);
            && (o.code == Success <==> Fits(cs, Copy(p)))
            && (o.code == Success ==> Carries(o.ids, o.mgr, cs + [Copy(p)]))
            && o.ids == (if o.code == Success then ids[h := Copy(p)] else ids)
  {
    var d := Copy(p);
    RegisterBesideIff(ids, m, cs, d, h);
    if Register(m.ix, d, h).1 {
      CarriesOneMore(ids, m, cs, d, h);
    }
  }

  /** An insertion under a new session key keeps both managers sound and apart. */
  lemma {:induction false} InsertKeepsFrame(c: Config, m: Commit, p: ChannelCfg, h: Handle)
    requires CommitFrame(c, m) && Fresh(m.ids, h) && p.sessionKey !in m.mgr.ix.keys
    requires var o := Insert(m.ids, m.mgr, p, h); o.ids == if o.code == Success then m.ids[h := Copy(p)] else m.ids
    ensures var o := Insert(m.ids, m.mgr, p, h); CommitFrame(c, Commit(o.ids, o.mgr, o.code == Success))
  {
    InsertKeepsInvIff(m.ids, m.mgr, p, h);
  }

  /** An insertion brings no session key but its own. */
  lemma {:induction false} InsertedKeys(ids: Records, m: Mgr, p: ChannelCfg, h: Handle)
    ensures Insert(ids, m, p, h).mgr.ix.keys.Keys <= m.ix.keys.Keys + {p.sessionKey}
  {
    var d := Copy(p);
    RegisterSucceedsIff(m.ix, d, h);
    if !Register(m.ix, d, h).1 {
      RejectionEffect(m.ix, d, h);
    }
  }

  lemma {:induction false} ActivesLength(cs: seq<ChannelCfg>)
    ensures |Actives(cs)| <= |cs|
  {
    if cs != [] {
      ActivesLength(cs[..|cs| - 1]);
    }
  }

  lemma {:induction false} EmptyCarries(ids: Records)
    ensures Carries(ids, EMPTY_MGR, []) && Live(EMPTY_MGR) == {}
  {
  }

  lemma {:induction false} StartState(c: Config, ids: Records)
    requires ConfigInv(c) && ids == c.ids - Live(c.live)
    ensures CommitState(c, Commit(ids, EMPTY_MGR, true), [])
  {
    EmptyCarries(ids);
    assert ids.Keys == Live(c.cand);
  }

  /** Destroying the live channels leaves the candidate's records. */
  lemma {:induction false} CommitStartOk(c: Config)
    requires ConfigInv(c)
    ensures Progress(c, CommitStart(c), [])
  {
    InvMeansEmptied(c.ids, c.live);
    StartState(c, c.ids - Live(c.live));
  }

  lemma {:induction false} ActivesSnoc(cs: seq<ChannelCfg>, p: ChannelCfg)
    ensures Actives(cs + [p]) == if p.active then Actives(cs) + [Copy(p)] else Actives(cs)
  {
    assert (cs + [p])[..|cs|] == cs;
  }

  lemma {:induction false} CommitNextState(
    c: Config, m: Commit, cs: seq<ChannelCfg>, p: ChannelCfg, candidate: Handle, h: Handle)
    requires candidate in Live(c.cand) && candidate in c.ids && c.ids[candidate] == p
    requires Fresh(m.ids, h) && |cs| < MAX_CHANNELS && CommitState(c, m, cs)
    requires p.sessionKey !in KeysOf(cs)
    ensures CommitState(c, CommitNext(m, candidate, h), cs + [p])
  {
    assert m.ids[candidate] == p && candidate != ILLEGAL_ID;
    if p.active && m.ok {
      var o := Insert(m.ids, m.mgr, p, h);
      CommitInsertState(c, m, cs, p, h);
      assert CommitNext(m, candidate, h) == Commit(o.ids, o.mgr, o.code == Success);
    } else {
      CommitSkipState(c, m, cs, p);
      assert CommitNext(m, candidate, h) == m;
    }
  }

  /** An inactive candidate, and any after a failure, changes nothing. */
  lemma {:induction false} CommitSkipState(c: Config, m: Commit, cs: seq<ChannelCfg>, p: ChannelCfg)
    requires CommitState(c, m, cs) && !(p.active && m.ok)
    ensures CommitState(c, m, cs + [p])
  {
    ActivesSnoc(cs, p);
    CompatibleSnoc(Actives(cs), Copy(p));
    KeysOfSnoc(cs, p);
  }

  lemma {:induction false} CommitInsertState(c: Config, m: Commit, cs: seq<ChannelCfg>, p: ChannelCfg, h: Handle)
    requires CommitState(c, m, cs) && p.active && m.ok && Fresh(m.ids, h) && |cs| < MAX_CHANNELS
    requires p.sessionKey !in KeysOf(cs)
    ensures var o := Insert(m.ids, m.mgr, p, h); CommitState(c, Commit(o.ids, o.mgr, o.code == Success), cs + [p])
  {
    ActivesSnoc(cs, p);
    ActivesLength(cs);
    CompatibleSnoc(Actives(cs), Copy(p));
    InsertBesideIff(m.ids, m.mgr, Actives(cs), p, h);
    InsertKeepsFrame(c, m, p, h);
    InsertedKeys(m.ids, m.mgr, p, h);
    KeysOfSnoc(cs, p);
  }

  /** The candidates' channels, sealed likewise. */
  ghost predicate Ready(c: Config, cs: seq<ChannelCfg>) {
    forall seal: nat {:trigger Unsealed(seal)} :: Unsealed(seal) ==> Candidates(c, cs)
  }

  /** The states a commit goes through, sealed for the loop. */
  ghost predicate CommitPath(run: seq<Commit>, table: seq<Handle>, hs: seq<Handle>) {
    && |table| == |hs| && |run| == |hs| + 1
    && forall seal: nat {:trigger Unsealed(seal)} :: Unsealed(seal) ==>
      forall i :: 0 <= i < |hs| ==> Fresh(run[i].ids, hs[i]) && run[i + 1] == CommitNext(run[i], table[i], hs[i])
  }

  lemma {:induction false} PathNext(run: seq<Commit>, table: seq<Handle>, hs: seq<Handle>, i: nat)
    requires CommitPath(run, table, hs) && i < |hs|
    ensures Fresh(run[i].ids, hs[i]) && run[i + 1] == CommitNext(run[i], table[i], hs[i])
  {
    assert Unsealed(0);
  }

  /** A commit that has failed, or has no candidate left, is over. */
  lemma {:induction false} PathStops(run: seq<Commit>, table: seq<Handle>, hs: seq<Handle>, i: nat)
    requires CommitPath(run, table, hs) && i <= |hs| && (run[i].ok ==> i == |hs|)
    ensures run[|hs|] == run[i]
    decreases |hs| - i
  {
    if i < |hs| {
      PathNext(run, table, hs, i);
      PathStops(run, table, hs, i + 1);
    }
  }

  lemma {:induction false} PathOfRun(run: seq<Commit>, table: seq<Handle>, start: Commit, hs: seq<Handle>)
    requires |table| == |hs| && CommitSupplied(table, start, hs, |hs|)
    requires |run| == |hs| + 1 && forall i :: 0 <= i < |run| ==> run[i] == CommitRun(table, start, hs, i)
    ensures CommitPath(run, table, hs)
  {
    forall i | 0 <= i < |hs| ensures Fresh(run[i].ids, hs[i]) && run[i + 1] == CommitNext(run[i], table[i], hs[i]) {
      CommitSuppliedPrefix(table, start, hs, |hs|, i + 1);
    }
  }

  lemma {:induction false} CommitSuppliedPrefix(table: seq<Handle>, start: Commit, hs: seq<Handle>, n: nat, i: nat)
    requires i <= n <= |hs| <= |table| && CommitSupplied(table, start, hs, n)
    ensures CommitSupplied(table, start, hs, i)
  {
    if i < n {
      CommitSuppliedPrefix(table, start, hs, n - 1, i);
    }
  }

  lemma {:induction false} ProgressNext(
    c: Config, m: Commit, cs: seq<ChannelCfg>, p: ChannelCfg, candidate: Handle, h: Handle)
    requires candidate in Live(c.cand) && candidate in c.ids && c.ids[candidate] == p
    requires Fresh(m.ids, h) && |cs| < MAX_CHANNELS && Progress(c, m, cs)
    requires forall i :: 0 <= i < |cs| ==> cs[i].sessionKey != p.sessionKey
    ensures Progress(c, CommitNext(m, candidate, h), cs + [p])
  {
    assert Unsealed(0);
    NotAmongKeys(cs, p.sessionKey);
    CommitNextState(c, m, cs, p, candidate, h);
  }

  lemma {:induction false} CandidateAt(c: Config, cs: seq<ChannelCfg>, n: nat)
    requires Ready(c, cs) && n < |cs|
    ensures n < |c.cand.table| && c.cand.table[n] in Live(c.cand) && c.cand.table[n] in c.ids
    ensures c.ids[c.cand.table[n]] == cs[n] && |cs| <= MAX_CHANNELS
    ensures forall i :: 0 <= i < n ==> cs[..n][i].sessionKey != cs[n].sessionKey
  {
    assert Unsealed(0);
  }

  lemma {:induction false} ProgressOneMore(c: Config, run: seq<Commit>, hs: seq<Handle>, cs: seq<ChannelCfg>, n: nat)
    requires CommitPath(run, c.cand.table, hs) && n < |hs| == |cs| && Ready(c, cs) && Progress(c, run[n], cs[..n])
    ensures Progress(c, run[n + 1], cs[..n + 1])
  {
    PathNext(run, c.cand.table, hs, n);
    CandidateAt(c, cs, n);
    assert cs[..n + 1] == cs[..n] + [cs[n]];
    ProgressNext(c, run[n], cs[..n], cs[n], c.cand.table[n], hs[n]);
  }

  lemma {:induction false} CommitProgress(c: Config, run: seq<Commit>, hs: seq<Handle>, cs: seq<ChannelCfg>, n: nat)
    requires CommitPath(run, c.cand.table, hs) && n <= |hs| == |cs|
    requires Ready(c, cs) && Progress(c, run[0], [])
    ensures Progress(c, run[n], cs[..n])
  {
    if n > 0 {
      CommitProgress(c, run, hs, cs, n - 1);
      ProgressOneMore(c, run, hs, cs, n - 1);
    } else {
      assert cs[..n] == [];
    }
  }

  /** cs are the candidate's channels, with session keys of their own. */
  ghost predicate Candidates(c: Config, cs: seq<ChannelCfg>) {
    && |c.cand.table| == |cs| <= MAX_CHANNELS
    && (forall i :: 0 <= i < |cs| ==>
          c.cand.table[i] in Live(c.cand) && c.cand.table[i] in c.ids && c.ids[c.cand.table[i]] == cs[i])
    && (forall i, j :: 0 <= i < j < |cs| ==> cs[i].sessionKey != cs[j].sessionKey)
  }

  /**
   The live manager has exactly the candidate's active channels, in order and without holes, each found by
   its original address and port.
   */
  ghost predicate CommitResult(ids: Records, m: Mgr, cs: seq<ChannelCfg>) {
    && Exact(ids, m)
    && Listed(ids, m) == Actives(cs)
    && (forall i :: 0 <= i < |m.table| ==> FoundByOriginal(ids, m, i))
  }

  /**
   Whatever the candidate, a commit leaves a sound configuration with the same candidate. It succeeds exactly
   when the candidate's active channels are compatible, and then installs exactly those. The candidate of an
   accepted update is such a one.
   */
  lemma {:induction false} CommitEffect(c: Config, hs: seq<Handle>)
    requires ConfigInv(c)
    requires |hs| == |c.cand.table| && CommitSupplied(c.cand.table, CommitStart(c), hs, |hs|)
    ensures var m, cs := Committed(c, hs), Listed(c.ids, c.cand);
            && ConfigInv(Config(m.ids, m.mgr, c.cand)) && Agree(c.ids, m.ids, Live(c.cand))
            && (m.ok <==> Compatible(Actives(cs)))
            && (m.ok ==> CommitResult(m.ids, m.mgr, cs))
            && (Compatible(cs) ==> m.ok)
  {
    var cs, m := Listed(c.ids, c.cand), Committed(c, hs);
    CommitStartOk(c);
    AllCandidates(c);
    CommitDone(c, CommitStart(c), hs, cs);
    CommitStateMeans(c, m, cs);
    if Compatible(cs) {
      ActivesCompatible(cs);
    }
  }

  lemma {:induction false} AllCandidates(c: Config)
    requires ConfigInv(c)
    ensures Ready(c, Listed(c.ids, c.cand))
  {
    var cs := Listed(c.ids, c.cand);
    assert forall i :: 0 <= i < |cs| ==> c.cand.table[i] in Live(c.cand);
  }

  lemma {:induction false} CommitDone(c: Config, start: Commit, hs: seq<Handle>, cs: seq<ChannelCfg>)
    requires Ready(c, cs) && Progress(c, start, [])
    requires |hs| == |c.cand.table| == |cs| && CommitSupplied(c.cand.table, start, hs, |hs|)
    ensures Progress(c, CommitRun(c.cand.table, start, hs, |hs|), cs)
  {
    var run := seq(|hs| + 1, i requires 0 <= i <= |hs| => CommitRun(c.cand.table, start, hs, i));
    PathOfRun(run, c.cand.table, start, hs);
    CommitProgress(c, run, hs, cs, |hs|);
    assert cs[..|hs|] == cs;
  }

  lemma {:induction false} CommitStateMeans(c: Config, m: Commit, cs: seq<ChannelCfg>)
    requires ConfigInv(c) && Progress(c, m, cs)
    ensures ConfigInv(Config(m.ids, m.mgr, c.cand)) && Agree(c.ids, m.ids, Live(c.cand))
    ensures (m.ok <==> Compatible(Actives(cs))) && (m.ok ==> CommitResult(m.ids, m.mgr, cs))
  {
    assert Unsealed(0);
    InvFrame(c.ids, m.ids, c.cand);
    if m.ok {
      CarriesMeansExact(m.ids, m.mgr, Actives(cs));
      forall i | 0 <= i < |m.mgr.table| ensures FoundByOriginal(m.ids, m.mgr, i) {
        ExactFinds(m.ids, m.mgr, i);
      }
    }
  }

  /** The channel at position i is what its original address and port lead to. */
  ghost predicate FoundByOriginal(ids: Records, m: Mgr, i: nat)
    requires i < |m.table| && m.table[i] in ids
  {
    var c := ids[m.table[i]];
    var k := Key(c.orig.addr, c.orig.port);
    k in m.ix.chan && m.ix.chan[k] == m.table[i]
  }

  lemma {:induction false} ExactFinds(ids: Records, m: Mgr, i: nat)
    requires Exact(ids, m) && i < |m.table|
    ensures FoundByOriginal(ids, m, i)
  {
    var c := ids[m.table[i]];
    OriginalFirst(c);
    LeadsAt(m.table, m.ix, ListsOf(Listed(ids, m)), i, Chan(Key(c.orig.addr, c.orig.port)));
  }
}
