/** The lineup that a commit installs, record by record. */
module CommittedRecords {
  import opened ChannelMap
  import opened Channels
  import opened ManagerSpec
  import opened Registration
  import opened SlotLists
  import opened LineupSpec
  import opened LineupKeys
  import opened UpdateSpec
  import opened InsertedRecords

  /** How many of the first n channels are active. */
  function ActiveCount(cs: seq<ChannelCfg>, n: nat): nat
    requires n <= |cs|
  {
    if n == 0 then 0 else ActiveCount(cs, n - 1) + if cs[n - 1].active then 1 else 0
  }

  lemma {:induction false} CountOfPrefix(cs: seq<ChannelCfg>, m: nat, n: nat)
    requires n <= m <= |cs|
    ensures ActiveCount(cs[..m], n) == ActiveCount(cs, n)
  {
    if n > 0 {
      CountOfPrefix(cs, m, n - 1);
    }
  }

  /** The copies of the active channels are one for each, in their order. */
  lemma {:induction false} ActiveAt(cs: seq<ChannelCfg>, i: nat)
    requires i < |cs|
    ensures |Actives(cs)| == ActiveCount(cs, |cs|)
    ensures cs[i].active ==>
              ActiveCount(cs, i) < |Actives(cs)| && Installed(cs[i], Actives(cs)[ActiveCount(cs, i)])
    decreases |cs|
  {
    var n := |cs| - 1;
    CountOfPrefix(cs, n, n);
    CountIsLength(cs[..n]);
    if i < n {
      ActiveAt(cs[..n], i);
      CountOfPrefix(cs, n, i);
    } else {
      CopyIsInstalled(cs[n]);
    }
  }

  lemma {:induction false} CountIsLength(cs: seq<ChannelCfg>)
    ensures |Actives(cs)| == ActiveCount(cs, |cs|)
    decreases |cs|
  {
    if cs != [] {
      var n := |cs| - 1;
      CountIsLength(cs[..n]);
      CountOfPrefix(cs, n, n);
    }
  }

  /**
   The table lists a record for each active channel, in order and with its content, and nothing else: the
   record of an active channel is at the position that counts the active channels before it.
   */
  ghost predicate InstallsActives(ids: Records, table: seq<Handle>, cs: seq<ChannelCfg>) {
    && |table| == ActiveCount(cs, |cs|)
    && forall i :: 0 <= i < |cs| && cs[i].active ==>
         var j := ActiveCount(cs, i); j < |table| && table[j] in ids && Installed(cs[i], ids[table[j]])
  }

  lemma {:induction false} ListedInstalls(ids: Records, m: Mgr, cs: seq<ChannelCfg>)
    requires forall i :: 0 <= i < |m.table| ==> m.table[i] in ids
    requires Listed(ids, m) == Actives(cs)
    ensures InstallsActives(ids, m.table, cs)
  {
    CountIsLength(cs);
    forall i | 0 <= i < |cs| && cs[i].active
      ensures var j := ActiveCount(cs, i); j < |m.table| && Installed(cs[i], ids[m.table[j]])
    {
      ActiveAt(cs, i);
      assert ids[m.table[ActiveCount(cs, i)]] == Listed(ids, m)[ActiveCount(cs, i)];
    }
  }

  // ----- how far a commit gets -----

  /** The channel is active and has unusable keys, or an address and port of an earlier active channel. */
  ghost predicate Blocked(cs: seq<ChannelCfg>, k: nat)
    requires k < |cs|
  {
    cs[k].active && (!OwnKeysOk(cs[k]) || exists j :: 0 <= j < k && cs[j].active && Clash(cs[j], cs[k]))
  }

  /** Session keys differ. */
  ghost predicate OwnSessions(cs: seq<ChannelCfg>) {
    forall i, j :: 0 <= i < j < |cs| ==> cs[i].sessionKey != cs[j].sessionKey
  }

  lemma {:induction false} FitsSnoc(cs: seq<ChannelCfg>, a: ChannelCfg, p: ChannelCfg)
    ensures Fits(cs + [a], p) <==> Fits(cs, p) && Disjoint(Attempted(a), Attempted(p)) && a.sessionKey != p.sessionKey
  {
    var t := cs + [a];
    assert t[|cs|] == a && forall i :: 0 <= i < |cs| ==> t[i] == cs[i];
  }

  /** A channel fits beside the copies of the active ones exactly when it clashes with none of these. */
  lemma {:induction false} ActivesFitIff(cs: seq<ChannelCfg>, p: ChannelCfg)
    requires forall j :: 0 <= j < |cs| ==> cs[j].sessionKey != p.sessionKey
    ensures Fits(Actives(cs), Copy(p)) <==>
            OwnKeysOk(p) && forall j :: 0 <= j < |cs| && cs[j].active ==> !Clash(cs[j], p)
    decreases |cs|
  {
    CopyClaims(p);
    if cs != [] {
      var before, a := cs[..|cs| - 1], cs[|cs| - 1];
      assert cs == before + [a];
      ActivesFitIff(before, p);
      ActivesSnoc(before, a);
      if a.active {
        CopyClaims(a);
        FitsSnoc(Actives(before), Copy(a), Copy(p));
        ClashIff(a, p);
      }
    }
  }

  lemma {:induction false} BlockedInPrefix(cs: seq<ChannelCfg>, n: nat, k: nat)
    requires k < n <= |cs|
    ensures Blocked(cs[..n], k) <==> Blocked(cs, k)
  {
    assert forall j :: 0 <= j < n ==> cs[..n][j] == cs[j];
  }

  /** A channel is blocked exactly when it does not fit beside the active ones before it. */
  lemma {:induction false} BlockedIff(cs: seq<ChannelCfg>, k: nat)
    requires OwnSessions(cs) && k < |cs|
    ensures Blocked(cs, k) <==> cs[k].active && !Fits(Actives(cs[..k]), Copy(cs[k]))
  {
    ActivesFitIff(cs[..k], cs[k]);
    assert forall j :: 0 <= j < k ==> cs[..k][j] == cs[j];
  }

  ghost predicate NoneBlocked(cs: seq<ChannelCfg>, n: nat)
    requires n <= |cs|
  {
    forall k: nat :: k < n ==> !Blocked(cs, k)
  }

  /** The active channels are compatible exactly when none is blocked. */
  lemma {:induction false} CompatibleIff(cs: seq<ChannelCfg>, n: nat)
    requires OwnSessions(cs) && n <= |cs|
    ensures Compatible(Actives(cs[..n])) <==> NoneBlocked(cs, n)
    decreases n
  {
    if n > 0 {
      var before, p := cs[..n - 1], cs[n - 1];
      assert cs[..n] == before + [p];
      CompatibleIff(cs, n - 1);
      ActivesSnoc(before, p);
      CompatibleSnoc(Actives(before), Copy(p));
      BlockedIff(cs, n - 1);
      assert NoneBlocked(cs, n) <==> NoneBlocked(cs, n - 1) && !Blocked(cs, n - 1);
    }
  }

  // ----- the commit -----

  /** The commit got as far as k: it has installed the active candidates before it, and k is blocked. */
  ghost predicate StoppedAt(ids: Records, m: Mgr, cs: seq<ChannelCfg>, k: nat) {
    k < |cs| && Blocked(cs, k) && NoneBlocked(cs, k) && InstallsActives(ids, m.table, cs[..k])
  }

  /**
   A commit installs the active candidates in order, each with its whole content, up to the first one that has
   unusable keys or clashes with an earlier active one. It succeeds exactly when there is none.
   */
  lemma {:induction false} CommitByField(c: Config, hs: seq<Handle>)
    requires ConfigInv(c)
    requires |hs| == |c.cand.table| && CommitSupplied(c.cand.table, CommitStart(c), hs, |hs|)
    ensures var m, cs := Committed(c, hs), Listed(c.ids, c.cand);
            && (m.ok <==> NoneBlocked(cs, |cs|))
            && (m.ok ==> InstallsActives(m.ids, m.mgr.table, cs))
            && (!m.ok ==> exists k :: StoppedAt(m.ids, m.mgr, cs, k))
  {
    var m, cs := Committed(c, hs), Listed(c.ids, c.cand);
    AllCandidates(c);
    CandidatesDiffer(c, cs);
    CommitEffect(c, hs);
    CompatibleIff(cs, |cs|);
    assert cs[..|cs|] == cs;
    if m.ok {
      ListedInstalls(m.ids, m.mgr, cs);
    } else {
      var k := FirstBlocked(cs);
      CommitStops(c, hs, cs, k);
      assert StoppedAt(m.ids, m.mgr, cs, k);
    }
  }

  lemma {:induction false} CommitStops(c: Config, hs: seq<Handle>, cs: seq<ChannelCfg>, k: nat)
    requires ConfigInv(c) && Ready(c, cs) && OwnSessions(cs)
    requires |hs| == |c.cand.table| == |cs| && CommitSupplied(c.cand.table, CommitStart(c), hs, |hs|)
    requires k < |cs| && Blocked(cs, k) && NoneBlocked(cs, k)
    ensures InstallsActives(Committed(c, hs).ids, Committed(c, hs).mgr.table, cs[..k])
  {
    var run := seq(|hs| + 1, i requires 0 <= i <= |hs| => CommitRun(c.cand.table, CommitStart(c), hs, i));
    PathOfRun(run, c.cand.table, CommitStart(c), hs);
    CommitStartOk(c);
    StopsThere(c, run, hs, cs, k);
  }

  lemma {:induction false} CandidatesDiffer(c: Config, cs: seq<ChannelCfg>)
    requires Ready(c, cs)
    ensures OwnSessions(cs)
  {
    assert Unsealed(0);
  }

  lemma {:induction false} FirstBlocked(cs: seq<ChannelCfg>) returns (k: nat)
    requires !NoneBlocked(cs, |cs|)
    ensures k < |cs| && Blocked(cs, k) && NoneBlocked(cs, k)
  {
    k := 0;
    while !Blocked(cs, k)
      invariant k < |cs| && NoneBlocked(cs, k)
      decreases |cs| - k
    {
      k := k + 1;
      assert NoneBlocked(cs, k);
    }
  }

  /** The insertion of the blocked candidate fails, and nothing is installed after it. */
  lemma {:induction false} StopsThere(c: Config, run: seq<Commit>, hs: seq<Handle>, cs: seq<ChannelCfg>, k: nat)
    requires CommitPath(run, c.cand.table, hs) && |hs| == |cs| && Ready(c, cs) && Progress(c, run[0], [])
    requires OwnSessions(cs) && k < |cs| && Blocked(cs, k) && NoneBlocked(cs, k)
    ensures InstallsActives(run[|hs|].ids, run[|hs|].mgr.table, cs[..k])
  {
    CommitProgress(c, run, hs, cs, k);
    CommitProgress(c, run, hs, cs, k + 1);
    CompatibleIff(cs, k);
    CompatibleIff(cs, k + 1);
    PathNext(run, c.cand.table, hs, k);
    CandidateAt(c, cs, k);
    InstalledSoFar(c, run[k], cs[..k]);
    FailsAt(c, run[k], run[k + 1], cs[..k], cs[..k + 1], c.cand.table[k], hs[k]);
    PathStops(run, c.cand.table, hs, k + 1);
  }

  lemma {:induction false} InstalledSoFar(c: Config, m: Commit, cs: seq<ChannelCfg>)
    requires Progress(c, m, cs) && Compatible(Actives(cs))
    ensures m.ok && InstallsActives(m.ids, m.mgr.table, cs) && Live(m.mgr) <= m.ids.Keys
  {
    assert Unsealed(0);
    CarriesMeansExact(m.ids, m.mgr, Actives(cs));
    ListedInstalls(m.ids, m.mgr, cs);
  }

  lemma {:induction false} FailsAt(
    c: Config, m: Commit, m': Commit, cs: seq<ChannelCfg>, cs': seq<ChannelCfg>, candidate: Handle, h: Handle)
    requires m.ok && Fresh(m.ids, h) && Live(m.mgr) <= m.ids.Keys && m' == CommitNext(m, candidate, h)
    requires Progress(c, m', cs') && !Compatible(Actives(cs'))
    ensures !m'.ok && m'.ids == m.ids && m'.mgr.table == m.mgr.table
  {
    assert Unsealed(0);
    var p := ActiveRecord(m.ids, candidate);
    RefusedInsert(m.ids, m.mgr, p.value, h);
    assert h !in Live(m.mgr);
  }
}
