/**
 The configuration module of cfg/cfg_config.c as an object: the live channel manager, the candidate
 manager, their common record table and the position of the update walk. Its methods are proved to compute
 the operations of LineupSpec, UpdateSpec and UpdateCursor.
 */
module Configuration {
  import opened Options
  import opened ChannelMap
  import opened Channels
  import opened ManagerSpec
  import opened LineupSpec
  import opened UpdateSpec
  import opened UpdateCursor
  import opened LineupRuns
  import opened ChannelManager

  class ConfigModule {
    const ids: IdTable
    const live: ChannelMgr
    const cand: ChannelMgr
    /** g_lastUsedChannel. */
    var lastUsedChannel: nat

    ghost predicate Valid()
      reads live.Objects(), cand.Objects()
    {
      && live.Valid() && cand.Valid() && live.ids == ids && cand.ids == ids
      && live.Objects() !! cand.Objects()
    }

    ghost function View(): Config
      requires live.totalNumChannels <= live.handles.Length && cand.totalNumChannels <= cand.handles.Length
      reads ids, live, live.handles, live.channelMap, live.fbtMap, cand, cand.handles, cand.channelMap, cand.fbtMap
    {
      Config(ids.records, live.View(), cand.View())
    }

    /** The module over two managers and their record table. */
    constructor (ids: IdTable, live: ChannelMgr, cand: ChannelMgr)
      requires live.Valid() && cand.Valid() && live.ids == ids && cand.ids == ids
      requires live.Objects() !! cand.Objects()
      ensures this.ids == ids && this.live == live && this.cand == cand && Valid() && lastUsedChannel == 0
    {
      this.ids, this.live, this.cand := ids, live, cand;
      lastUsedChannel := 0;
    }

    /** The session loop of cfg_db_read_channels; returns its counters. */
    static method LoadSessions(m: ChannelMgr, items: seq<Item>, hs: seq<Handle>)
      returns (numInput: nat, numParsed: nat, numSyntaxErrors: nat, numValidated: nat)
      requires m.Valid() && m.View() == EMPTY_MGR
      requires |hs| == |items| && Supplied(m.ids.records, items, hs)
      modifies m.ids, m.Objects()
      ensures m.Valid() && fresh(m.Objects() - old(m.Objects()))
      ensures Load(m.ids.records, m.View(), numInput, numParsed, numSyntaxErrors, numValidated) ==
              LoadAll(old(m.ids.records), items, hs)
    {
      ghost var run := LoadPath(m.ids.records, items, hs);
      numInput, numParsed, numSyntaxErrors, numValidated := LoadAlong(m, items, hs, run);
    }

    static method LoadAlong(m: ChannelMgr, items: seq<Item>, hs: seq<Handle>, ghost run: seq<Load>)
      returns (numInput: nat, numParsed: nat, numSyntaxErrors: nat, numValidated: nat)
      requires m.Valid() && IsLoadPath(run, items, hs) && run[0] == Load(m.ids.records, m.View(), 0, 0, 0, 0)
      modifies m.ids, m.Objects()
      ensures m.Valid() && fresh(m.Objects() - old(m.Objects()))
      ensures Load(m.ids.records, m.View(), numInput, numParsed, numSyntaxErrors, numValidated) == run[|items|]
    {
      ghost var before := m.Objects();
      numInput, numParsed, numSyntaxErrors, numValidated := 0, 0, 0, 0;
      var i := 0;
      while i < |items|
        invariant 0 <= i <= |items|
        invariant m.Valid() && fresh(m.Objects() - before)
        invariant Load(m.ids.records, m.View(), numInput, numParsed, numSyntaxErrors, numValidated) == run[i]
      {
        ghost var grown := m.Objects();
        var parsed, syntaxError, validated := LoadAt(m, items, hs, i, run);
        assert fresh(m.Objects() - grown);
        numInput := numInput + 1;
        numParsed := numParsed + if parsed then 1 else 0;
        numSyntaxErrors := numSyntaxErrors + if syntaxError then 1 else 0;
        numValidated := numValidated + if validated then 1 else 0;
        i := i + 1;
      }
    }

    /** One session: whether it is parsed, fails with a syntax error, and makes it into the manager. */
    static method LoadAt(m: ChannelMgr, items: seq<Item>, hs: seq<Handle>, i: nat, ghost run: seq<Load>)
      returns (parsed: bool, syntaxError: bool, validated: bool)
      requires m.Valid() && i < |items| && IsLoadPath(run, items, hs)
      requires run[i].ids == m.ids.records && run[i].mgr == m.View()
      modifies m.ids, m.Objects()
      ensures m.Valid() && fresh(m.Objects() - old(m.Objects()))
      ensures run[i + 1].ids == m.ids.records && run[i + 1].mgr == m.View()
      ensures run[i + 1].numInput == run[i].numInput + 1
      ensures run[i + 1].numParsed == run[i].numParsed + if parsed then 1 else 0
      ensures run[i + 1].numSyntaxErrors == run[i].numSyntaxErrors + if syntaxError then 1 else 0
      ensures run[i + 1].numValidated == run[i].numValidated + if validated then 1 else 0
    {
      LoadPathNext(run, items, hs, i);
      match items[i] {
        case Unparsed(syntax) =>
          return false, syntax, false;
        case Parsed(session) =>
          var code := m.Add(session, hs[i]);
          return true, false, code == Success;
      }
    }

    /** cfg_init on a file that is there: a lineup with any rejected session is destroyed again. */
    method Init(items: seq<Item>, hs: seq<Handle>)
      requires Valid() && View() == Config(map[], EMPTY_MGR, EMPTY_MGR)
      requires |hs| == |items| && Supplied(map[], items, hs) && ProperItems(items)
      modifies ids, live.Objects()
      ensures Valid() && View() == Started(LoadAll(map[], items, hs)).cfg
    {
      var numInput := LoadLive(items, hs);
      if numInput != live.totalNumChannels {
        LoadInv(map[], items, hs);
        InvMeansEmptied(ids.records, live.View());
        ClearLive();
      }
    }

    /** The sessions of the file go to the live manager. */
    method LoadLive(items: seq<Item>, hs: seq<Handle>) returns (numInput: nat)
      requires Valid() && live.View() == EMPTY_MGR
      requires |hs| == |items| && Supplied(ids.records, items, hs)
      modifies ids, live.Objects()
      ensures Valid() && fresh(live.Objects() - old(live.Objects())) && cand.View() == old(cand.View())
      ensures var l := LoadAll(old(ids.records), items, hs);
              ids.records == l.ids && live.View() == l.mgr && numInput == l.numInput
    {
      ghost var keep := cand.Objects();
      var numParsed, numSyntaxErrors, numValidated;
      numInput, numParsed, numSyntaxErrors, numValidated := LoadSessions(live, items, hs);
      assert cand.Objects() == keep;
      assert cand.Valid() == old(cand.Valid());
      assert cand.View() == old(cand.View());
    }

    /** cfg_cleanup_update. */
    method CleanupUpdate()
      requires Valid() && Inv(ids.records, cand.View())
      modifies ids, cand.Objects()
      ensures Valid()
      ensures cand.channelMap.nodes == old(cand.channelMap.nodes) && cand.fbtMap.nodes == old(cand.fbtMap.nodes)
      ensures View() == Config(old(ids.records) - old(Live(cand.View())), old(live.View()), EMPTY_MGR)
    {
      InvMeansEmptied(ids.records, cand.View());
      if cand.totalNumChannels != 0 {
        cand.DestroyAll();
      }
      assert live.Valid() == old(live.Valid());
      assert live.View() == old(live.View());
    }

    /** The sessions of the new file go to the candidate manager. */
    method LoadCandidate(items: seq<Item>, hs: seq<Handle>) returns (numInput: nat)
      requires Valid() && cand.View() == EMPTY_MGR
      requires |hs| == |items| && Supplied(ids.records, items, hs)
      modifies ids, cand.Objects()
      ensures Valid()
      ensures var l := LoadAll(old(ids.records), items, hs);
              View() == Config(l.ids, old(live.View()), l.mgr) && numInput == l.numInput
    {
      ghost var keep := live.Objects();
      var numParsed, numSyntaxErrors, numValidated;
      numInput, numParsed, numSyntaxErrors, numValidated := LoadSessions(cand, items, hs);
      assert live.Objects() == keep;
      assert live.Valid() == old(live.Valid());
      assert live.View() == old(live.View());
    }

    /** One candidate of cfg_validate_all against the live lineup. */
    method CompareVersions(h: Handle) returns (older: bool, changed: bool)
      requires Valid()
      ensures !older && !changed <==> RowOk(ids.records, live.View(), h)
    {
      older, changed := false, false;
      var p := cand.Get(h);
      if p.Some? {
        var found, handle := live.channelMap.Lookup(Key(p.value.orig.addr, p.value.orig.port));
        if found {
          var o := live.Get(handle);
          if o.Some? && p.value.sessionKey == o.value.sessionKey {
            if p.value.version == o.value.version {
              changed := p.value.chksum != o.value.chksum;
            } else {
              older := p.value.version < o.value.version;
            }
          }
        }
      }
    }

    /** cfg_validate_all, for a candidate whose load read numInput sessions. */
    method ValidateAll(numInput: nat) returns (ok: bool)
      requires Valid()
      ensures ok <==> numInput == |View().cand.table| && VersionsOk(ids.records, live.View(), cand.View())
    {
      if numInput != cand.totalNumChannels {
        return false;
      }
      var numOldVersion, numInvalidVer := 0, 0;
      ghost var v := View();
      var i := 0;
      while i < cand.totalNumChannels
        invariant 0 <= i <= cand.totalNumChannels
        invariant numOldVersion + numInvalidVer == Violations(v, i)
      {
        assert cand.handles[i] == v.cand.table[i];
        ghost var before := Violations(v, i);
        var older, changed := CompareVersions(cand.handles[i]);
        if older {
          numOldVersion := numOldVersion + 1;
        } else if changed {
          numInvalidVer := numInvalidVer + 1;
        }
        assert Violations(v, i + 1) == before + if older || changed then 1 else 0;
        i := i + 1;
      }
      NoViolations(v, i);
      ok := numOldVersion == 0 && numInvalidVer == 0;
    }

    /** cfg_update up to its verdict. */
    method LoadAndValidate(items: seq<Item>, hs: seq<Handle>) returns (ok: bool)
      requires Valid() && Inv(ids.records, cand.View())
      requires |hs| == |items| && Supplied(ids.records - Live(cand.View()), items, hs)
      modifies ids, cand.Objects()
      ensures Valid() && (View(), ok) == UpdateSpec.Update(old(View()), items, hs)
    {
      var numInput := LoadAnew(items, hs);
      ok := ValidateAll(numInput);
    }

    /** The last candidate makes way for the sessions of the new file. */
    method LoadAnew(items: seq<Item>, hs: seq<Handle>) returns (numInput: nat)
      requires Valid() && Inv(ids.records, cand.View())
      requires |hs| == |items| && Supplied(ids.records - Live(cand.View()), items, hs)
      modifies ids, cand.Objects()
      ensures Valid()
      ensures var l := LoadAll(old(ids.records - Live(cand.View())), items, hs);
              View() == Config(l.ids, old(live.View()), l.mgr) && numInput == l.numInput
    {
      CleanupUpdate();
      numInput := LoadCandidate(items, hs);
    }

    /** cfg_update. */
    method Update(items: seq<Item>, hs: seq<Handle>) returns (ok: bool)
      requires Valid() && Inv(ids.records, cand.View())
      requires |hs| == |items| && Supplied(ids.records - Live(cand.View()), items, hs)
      modifies this, ids, cand.Objects()
      ensures Valid() && (View(), ok) == UpdateSpec.Update(old(View()), items, hs)
      ensures lastUsedChannel == if ok then 0 else old(lastUsedChannel)
    {
      ok := LoadAndValidate(items, hs);
      if ok {
        RestartWalk();
      }
    }

    method RestartWalk()
      requires Valid()
      modifies this
      ensures Valid() && View() == old(View()) && lastUsedChannel == 0
    {
      lastUsedChannel := 0;
    }

    /** The live channels are destroyed; the candidate is not touched. */
    method ClearLive()
      requires Valid()
      modifies ids, live.Objects()
      ensures Valid()
      ensures live.channelMap.nodes == old(live.channelMap.nodes) && live.fbtMap.nodes == old(live.fbtMap.nodes)
      ensures cand.View() == old(cand.View())
      ensures Outcome(ids.records, live.View(), Success) == Emptied(old(ids.records), old(live.View()))
    {
      live.DestroyAll();
      assert cand.Valid() == old(cand.Valid());
      assert cand.View() == old(cand.View());
    }

    /** One candidate of cfg_commit_update, which goes to the manager m if it is active. */
    static method CommitOne(m: ChannelMgr, table: seq<Handle>, hs: seq<Handle>, i: nat, ghost run: seq<Commit>)
      returns (ok: bool)
      requires m.Valid() && CommitPath(run, table, hs) && i < |hs|
      requires run[i] == Commit(m.ids.records, m.View(), true)
      modifies m.ids, m.Objects()
      ensures m.Valid() && fresh(m.Objects() - old(m.Objects()))
      ensures Commit(m.ids.records, m.View(), ok) == run[i + 1]
    {
      PathNext(run, table, hs, i);
      ok := true;
      var p := m.Get(table[i]);
      if p.Some? {
        var code := m.Insert(p.value, hs[i]);
        ok := code == Success;
      }
    }

    /** The loop of cfg_commit_update over the candidate's handles; it ends at the first failure. */
    static method InsertAll(m: ChannelMgr, table: seq<Handle>, hs: seq<Handle>, ghost run: seq<Commit>)
      returns (ok: bool)
      requires m.Valid() && CommitPath(run, table, hs) && run[0] == Commit(m.ids.records, m.View(), true)
      modifies m.ids, m.Objects()
      ensures m.Valid() && fresh(m.Objects() - old(m.Objects()))
      ensures Commit(m.ids.records, m.View(), ok) == run[|hs|]
    {
      ghost var before := m.Objects();
      var i := 0;
      ok := true;
      while i < |hs| && ok
        invariant 0 <= i <= |hs|
        invariant m.Valid() && fresh(m.Objects() - before)
        invariant Commit(m.ids.records, m.View(), ok) == run[i]
      {
        ghost var grown := m.Objects();
        ok := CommitOne(m, table, hs, i, run);
        assert fresh(m.Objects() - grown);
        i := i + 1;
      }
      PathStops(run, table, hs, i);
    }

    /** cfg_commit_update. */
    method CommitUpdate(hs: seq<Handle>) returns (ok: bool)
      requires Valid()
      requires |hs| == cand.totalNumChannels && CommitSupplied(cand.View().table, CommitStart(View()), hs, |hs|)
      modifies ids, live.Objects()
      ensures Valid() && cand.View() == old(cand.View())
      ensures Commit(ids.records, live.View(), ok) == Committed(old(View()), hs)
    {
      ghost var start, t := CommitStart(View()), cand.View().table;
      ghost var run := seq(|hs| + 1, i requires 0 <= i <= |hs| => CommitRun(t, start, hs, i));
      PathOfRun(run, t, start, hs);
      ClearLive();
      ok := InsertCandidates(hs, run);
    }

    /** The candidates go to the live manager; the candidate manager is not touched. */
    method InsertCandidates(hs: seq<Handle>, ghost run: seq<Commit>) returns (ok: bool)
      requires Valid() && |hs| == cand.totalNumChannels && CommitPath(run, cand.View().table, hs)
      requires run[0] == Commit(ids.records, live.View(), true)
      modifies ids, live.Objects()
      ensures Valid() && cand.View() == old(cand.View())
      ensures Commit(ids.records, live.View(), ok) == run[|hs|]
    {
      ghost var keep := cand.Objects();
      ok := InsertAll(live, cand.handles[..cand.totalNumChannels], hs, run);
      assert live.Objects() !! keep;
      assert cand.Objects() == keep;
      assert cand.Valid() == old(cand.Valid());
      assert cand.View() == old(cand.View());
    }

    // ----- walking the candidate -----

    ghost function Walk(): Cursor
      requires cand.totalNumChannels <= cand.handles.Length
      reads this, ids, cand, cand.handles, cand.channelMap, cand.fbtMap
    {
      Cursor(ids.records, cand.View(), lastUsedChannel)
    }

    /** The record is in use, and the next search starts at `last`. */
    method MarkUsed(h: Handle, last: nat)
      requires Valid() && h in ids.records
      modifies this`lastUsedChannel, ids
      ensures Valid() && Walk() == Cursor(Marked(old(ids.records), h), old(cand.View()), last)
    {
      lastUsedChannel := last;
      ids.records := ids.records[h := ids.records[h].(used := true)];
      assert Valid() == old(Valid());
    }

    /** cfg_find_in_update. */
    method FindInUpdate(channel: ChannelCfg) returns (r: Option<Handle>)
      requires Valid()
      modifies this`lastUsedChannel, ids
      ensures Valid() && (Walk(), r) == FindNamed(old(Walk()), channel)
    {
      if cand.totalNumChannels != 0 {
        var found, handle := cand.channelMap.Lookup(Key(channel.orig.addr, channel.orig.port));
        if found {
          var p := cand.Get(handle);
          if p.Some? && p.value.sessionKey == channel.sessionKey {
            MarkUsed(handle, lastUsedChannel);
            return Some(handle);
          }
        }
      }
      r := None;
    }

    /** The search of cfg_get_next_in_update. */
    method NextUnused(from: nat) returns (i: nat)
      requires cand.totalNumChannels <= cand.handles.Length
      ensures from <= cand.totalNumChannels ==> i == NextFrom(cand.ids.records, cand.View().table, from)
      ensures from > cand.totalNumChannels ==> i == from
    {
      i := from;
      ghost var t := cand.View().table;
      while i < cand.totalNumChannels
        invariant from <= cand.totalNumChannels ==> from <= i <= cand.totalNumChannels
        invariant from > cand.totalNumChannels ==> i == from
        invariant from <= cand.totalNumChannels ==>
                    NextFrom(cand.ids.records, t, from) == NextFrom(cand.ids.records, t, i)
      {
        var p := cand.Get(cand.handles[i]);
        if p.Some? && !p.value.used {
          return;
        }
        i := i + 1;
      }
    }

    /** cfg_get_next_in_update. */
    method GetNextInUpdate() returns (r: Option<Handle>)
      requires Valid()
      modifies this`lastUsedChannel, ids
      ensures Valid() && (Walk(), r) == Next(old(Walk()))
    {
      var i := NextUnused(lastUsedChannel);
      if i >= cand.totalNumChannels {
        return None;
      }
      r := Some(cand.handles[i]);
      MarkUsed(cand.handles[i], i);
    }
  }

  /** The number of rejected rows among the first n. */
  ghost function Violations(c: Config, n: nat): nat
    requires n <= |c.cand.table|
  {
    if n == 0 then 0
    else Violations(c, n - 1) + if RowOk(c.ids, c.live, c.cand.table[n - 1]) then 0 else 1
  }

  lemma {:induction false} NoViolations(c: Config, n: nat)
    requires n <= |c.cand.table|
    ensures Violations(c, n) == 0 <==> forall i :: 0 <= i < n ==> RowOk(c.ids, c.live, c.cand.table[i])
  {
    if n > 0 {
      NoViolations(c, n - 1);
    }
  }

  /** The states a load goes through, sealed for the loop. */
  ghost predicate IsLoadPath(run: seq<Load>, items: seq<Item>, hs: seq<Handle>) {
    && |hs| == |items| && |run| == |items| + 1
    && forall seal: nat {:trigger Unsealed(seal)} :: Unsealed(seal) ==>
      forall i :: 0 <= i < |items| ==> Fresh(run[i].ids, hs[i]) && run[i + 1] == LoadStep(run[i], items[i], hs[i])
  }

  lemma {:induction false} LoadPathNext(run: seq<Load>, items: seq<Item>, hs: seq<Handle>, i: nat)
    requires IsLoadPath(run, items, hs) && i < |items|
    ensures Fresh(run[i].ids, hs[i]) && run[i + 1] == LoadStep(run[i], items[i], hs[i])
  {
    assert Unsealed(0);
  }

  /** The path of a load that starts empty and ends as LoadAll says. */
  ghost function LoadPath(ids: Records, items: seq<Item>, hs: seq<Handle>): (run: seq<Load>)
    requires |hs| == |items| && Supplied(ids, items, hs)
    ensures IsLoadPath(run, items, hs)
    ensures run[0] == Load(ids, EMPTY_MGR, 0, 0, 0, 0) && run[|items|] == LoadAll(ids, items, hs)
    decreases |items|
  {
    if items == [] then [Load(ids, EMPTY_MGR, 0, 0, 0, 0)]
    else
      var n := |items| - 1;
      var before := LoadPath(ids, items[..n], hs[..n]);
      var run := before + [LoadStep(before[n], items[n], hs[n])];
      ExtendLoadPath(before, run, items, hs, n);
      run
  }

  lemma {:induction false} ExtendLoadPath(before: seq<Load>, run: seq<Load>, items: seq<Item>, hs: seq<Handle>, n: nat)
    requires |items| == |hs| == n + 1 && IsLoadPath(before, items[..n], hs[..n]) && Fresh(before[n].ids, hs[n])
    requires run == before + [LoadStep(before[n], items[n], hs[n])]
    ensures IsLoadPath(run, items, hs)
  {
    forall i | 0 <= i < |items| ensures Fresh(run[i].ids, hs[i]) && run[i + 1] == LoadStep(run[i], items[i], hs[i]) {
      if i < n {
        LoadPathNext(before, items[..n], hs[..n], i);
      }
    }
  }
}
