/**
 What the repair cache means: after a successful update it is the accepted table, the reconciliation
 behind a filter install succeeds exactly under conditions a caller can read off, and with a filter
 the cache never holds a foreign SSRC.
 */
module RepairTheorems {
  import opened Options
  import opened RtpSource
  import opened RepairSpec

  /** Every row of the table is a real source. */
  ghost predicate NullFree(table: Keys) { NULL_ID !in table }

  /** A checked, null-free table lists each source once. */
  lemma {:induction false} CheckedIsDistinct(r: Repair, table: Keys)
    requires Checked(r, table) && NullFree(table)
    ensures Distinct(table) && |Ids(table)| == |table|
  {
    OccupiedFull(table);
    OccupiedIsCardinality(table);
  }

  /** A table in sync with the cache lists exactly the cached sources: a counting argument. */
  lemma {:induction false} InSyncMeansEqual(r: Repair, table: Keys)
    requires CacheInv(r) && Checked(r, table) && InSync(r, table)
    ensures NullFree(table) && Cached(r) == Ids(table)
  {
    CheckedIsDistinct(r, table);
    OccupiedIsCardinality(r.slots);
    SubsetOfSameSize(Ids(table), Cached(r));
  }

  /** Conversely, a checked and null-free table that names the cached sources is in sync. */
  lemma {:induction false} EqualMeansInSync(r: Repair, table: Keys)
    requires CacheInv(r) && Checked(r, table) && NullFree(table) && Cached(r) == Ids(table)
    ensures InSync(r, table)
  {
    CheckedIsDistinct(r, table);
    OccupiedIsCardinality(r.slots);
    forall i | 0 <= i < |table| ensures table[i] in Cached(r) {
      assert table[i] in table;
    }
  }

  /** Adding sources does not change what `Checked` looks at. */
  lemma {:induction false} CheckedIgnoresCache(r: Repair, r': Repair, table: Keys)
    requires r'.filterOn == r.filterOn && r'.filter == r.filter
    ensures Checked(r, table) <==> Checked(r', table)
  {
  }

  /**
   A successful update on a nonempty table leaves the cache equal to the table it settled on, which is
   the reported one unless that one failed the check and a second fetch passed it.
   */
  lemma {:induction false} UpdateLeavesAcceptedTable(r: Repair, table: Keys, fetched: Option<Keys>,
                                                     accepts: SourceId -> bool)
    requires CacheInv(r) && table != []
    requires UpdateSources(r, table, fetched, accepts).ok
    ensures var u := UpdateSources(r, table, fetched, accepts);
            && Cached(u.next) == Ids(u.table) && NullFree(u.table) && |Cached(u.next)| == |u.table| == u.next.count
            && Checked(r, u.table)
            && (u.table == table || (!Checked(r, table) && fetched == Some(u.table)))
  {
    var u := UpdateSources(r, table, fetched, accepts);
    CheckedIgnoresCache(r, u.next, u.table);
    InSyncMeansEqual(u.next, u.table);
    CheckedIsDistinct(r, u.table);
  }

  ghost predicate TakesAll(ids: set<SourceId>, accepts: SourceId -> bool) {
    forall id :: id in ids ==> accepts(id)
  }

  /** While cache and table fit together, adding succeeds exactly when the RTP layer takes the new sources. */
  lemma {:induction false} AddSucceedsIff(r: Repair, table: seq<SourceId>, accepts: SourceId -> bool)
    requires CacheInv(r) && Distinct(table)
    requires |Cached(r) + Ids(table)| <= MAX_KNOWN_SOURCES
    ensures AddSources(r, table, accepts).1 <==> TakesAll(Ids(table) - Cached(r), accepts)
    decreases table
  {
    if table != [] {
      var id, t := table[0], table[1..];
      IdsOfTail(table);
      if id == NULL_ID || id in Cached(r) {
        assert Ids(t) - Cached(r) == Ids(table) - Cached(r);
        assert Cached(r) + Ids(t) == Cached(r) + Ids(table);
        AddSucceedsIff(r, t, accepts);
        assert AddSources(r, table, accepts) == AddSources(r, t, accepts);
      } else {
        assert id in Ids(table) - Cached(r);
        RoomFor(r, id, Ids(table));
        if accepts(id) {
          AddFirst(r, table, accepts);
        }
      }
    }
  }

  lemma {:induction false} AddFirst(r: Repair, table: seq<SourceId>, accepts: SourceId -> bool)
    requires CacheInv(r) && Distinct(table) && r.count < MAX_KNOWN_SOURCES
    requires |Cached(r) + Ids(table)| <= MAX_KNOWN_SOURCES
    requires table != [] && table[0] in Ids(table) - Cached(r) && accepts(table[0])
    ensures AddSources(Added(r, table[0]), table[1..], accepts).1 <==> TakesAll(Ids(table) - Cached(r), accepts)
    decreases table, 0
  {
    var id, t, r' := table[0], table[1..], Added(r, table[0]);
    IdsOfTail(table);
    MoveOver(Cached(r), Ids(t), id);
    AddSucceedsIff(r', t, accepts);
  }

  lemma {:induction false} MoveOver(cached: set<SourceId>, rest: set<SourceId>, id: SourceId)
    requires id !in cached && id !in rest
    ensures cached + {id} + rest == cached + ({id} + rest)
    ensures ({id} + rest) - cached == (rest - (cached + {id})) + {id}
  {
  }

  lemma {:induction false} IdsOfTail(table: seq<SourceId>)
    requires table != [] && Distinct(table)
    ensures Distinct(table[1..])
    ensures Ids(table) == (if table[0] == NULL_ID then {} else {table[0]}) + Ids(table[1..])
    ensures table[0] !in Ids(table[1..])
  {
    var t := table[1..];
    assert table == [table[0]] + t;
    assert forall i :: 0 <= i < |t| ==> t[i] == table[i + 1];
  }

  lemma {:induction false} RoomFor(r: Repair, id: SourceId, ids: set<SourceId>)
    requires CacheInv(r) && id in ids - Cached(r)
    requires |Cached(r) + ids| <= MAX_KNOWN_SOURCES
    ensures r.count < MAX_KNOWN_SOURCES
  {
    OccupiedIsCardinality(r.slots);
    SubsetSize(Cached(r) + {id}, Cached(r) + ids);
  }

  /** The table an update goes by: the reported one if it passes the check, else a second one that does. */
  ghost predicate Settled(r: Repair, table: Keys, fetched: Option<Keys>, t: Keys) {
    Checked(r, t) && if Checked(r, table) then t == table else fetched == Some(t)
  }

  /** The cache can become the table: no row is null, no cached source is missing, and RTP takes the others. */
  ghost predicate Reachable(r: Repair, t: Keys, accepts: SourceId -> bool) {
    NullFree(t) && Cached(r) <= Ids(t) && TakesAll(Ids(t) - Cached(r), accepts)
  }

  lemma {:induction false} AddReachesIff(r: Repair, t: Keys, accepts: SourceId -> bool)
    requires CacheInv(r) && Checked(r, t)
    ensures var (r', ok) := AddSources(r, t, accepts); ok && InSync(r', t) <==> Reachable(r, t, accepts)
  {
    var (r', ok) := AddSources(r, t, accepts);
    CheckedIgnoresCache(r, r', t);
    if ok && InSync(r', t) {
      InSyncMeansEqual(r', t);
    }
    if NullFree(t) && Cached(r) <= Ids(t) {
      CheckedIsDistinct(r, t);
      assert Cached(r) + Ids(t) == Ids(t);
      AddSucceedsIff(r, t, accepts);
      if ok {
        EqualMeansInSync(r', t);
      }
    }
  }

  /**
   On a nonempty table an update succeeds exactly when there is a table to go by, fetched again if the
   reported one is stale, and the cache can become it.
   */
  lemma {:induction false} UpdateSucceedsIff(r: Repair, table: Keys, fetched: Option<Keys>, accepts: SourceId -> bool)
    requires CacheInv(r)
    ensures UpdateSources(r, table, fetched, accepts).ok <==>
            table == [] || exists t: Keys :: Settled(r, table, fetched, t) && Reachable(r, t, accepts)
  {
    if table != [] {
      if Checked(r, table) {
        assert forall t: Keys :: Settled(r, table, fetched, t) <==> t == table;
        AddReachesIff(r, table, accepts);
      } else if fetched.Some? && Checked(r, fetched.value) {
        assert forall t: Keys :: Settled(r, table, fetched, t) <==> t == fetched.value;
        AddReachesIff(r, fetched.value, accepts);
      } else {
        assert forall t: Keys :: !Settled(r, table, fetched, t);
      }
    }
  }

  /** The session has failed: cache and filter are dropped, and so is the filter in the dataplane. */
  ghost predicate HasFailed(r: Repair) {
    r.state == Error && Cached(r) == {} && r.count == 0 && !r.filterOn && r.filter == 0 && r.installed == None
  }

  /** All but cache, count and state are as they were. */
  ghost predicate SameFilter(r: Repair, r': Repair) {
    r'.filterOn == r.filterOn && r'.filter == r.filter && r'.installed == r.installed
  }

  /**
   What an upcall comes to. With an empty table, or outside first-wait and active, nothing changes. Otherwise
   the session is active with exactly the sources of the table it goes by, if the cache can become that
   table, and has failed if not.
   */
  ghost predicate UpcallOutcome(
    r: Repair, table: Keys, fetched: Option<Keys>, accepts: SourceId -> bool, r': Repair)
  {
    if table == [] || r.state !in {WaitFirst, Active} then r' == r
    else
      && (forall t: Keys :: Settled(r, table, fetched, t) && Reachable(r, t, accepts) ==>
            r'.state == Active && Cached(r') == Ids(t) && SameFilter(r, r'))
      && ((forall t: Keys :: !(Settled(r, table, fetched, t) && Reachable(r, t, accepts))) ==> HasFailed(r'))
  }

  lemma {:induction false} UpcallIs(r: Repair, table: Keys, fetched: Option<Keys>, accepts: SourceId -> bool)
    requires Inv(r)
    ensures UpcallOutcome(r, table, fetched, accepts, Upcall(r, table, fetched, accepts))
  {
    UpdateSucceedsIff(r, table, fetched, accepts);
    FailedKeepsInv(UpdateSources(r, table, fetched, accepts).next);
    if table != [] && UpdateSources(r, table, fetched, accepts).ok {
      UpdateLeavesAcceptedTable(r, table, fetched, accepts);
    }
  }

  /**
   What a member deletion comes to. Nothing changes in first-wait or for a source that is not cached;
   otherwise that source leaves the cache, or the session fails because the dataplane does not answer.
   */
  ghost predicate DeletionOutcome(r: Repair, id: SourceId, ipcOk: bool, r': Repair) {
    if r.state == WaitFirst || id !in Cached(r) then r' == r
    else if ipcOk then
      Cached(r') == Cached(r) - {id} && r'.count == r.count - 1 && r'.state == r.state && SameFilter(r, r')
    else HasFailed(r')
  }

  lemma {:induction false} MemberDeletedIs(r: Repair, id: SourceId, ipcOk: bool)
    requires Inv(r)
    ensures DeletionOutcome(r, id, ipcOk, MemberDeleted(r, id, ipcOk))
  {
    MemberDeletedKeepsInv(r, id, ipcOk);
    FailedKeepsInv(r);
  }

  /** Dropping the stale sources and adding the new ones ends in sync exactly on a null-free table. */
  lemma {:induction false} ReconcileReachesTable(r: Repair, table: Keys, accepts: SourceId -> bool)
    requires CacheInv(r) && Checked(r, table)
    ensures var (r', ok) := AddSources(WithoutStale(r, table), table, accepts);
            && (ok <==> TakesAll(Ids(table) - Cached(r), accepts))
            && (ok ==> Cached(r') == Ids(table))
            && (ok ==> (InSync(r', table) <==> NullFree(table)))
  {
    var r1 := WithoutStale(r, table);
    OccupiedIsCardinality(table);
    assert Cached(r1) + Ids(table) == Ids(table);
    assert Ids(table) - Cached(r1) == Ids(table) - Cached(r);
    AddSucceedsIff(r1, table, accepts);
    var (r', ok) := AddSources(r1, table, accepts);
    if ok {
      CheckedIgnoresCache(r, r', table);
      if NullFree(table) {
        EqualMeansInSync(r', table);
      } else if InSync(r', table) {
        InSyncMeansEqual(r', table);
      }
    }
  }

  /**
   A filter install succeeds exactly when the IPC does, the table passes the check against the filter
   that was there before, it has no null row, and the RTP layer takes the sources not cached yet. So the
   capacity error and the out-of-sync error are unreachable here. On success the cache is the table. The null
   id asks for nothing.
   */
  lemma {:induction false} PktflowSucceedsIff(r: Repair, id: SourceId, granted: Option<Keys>, accepts: SourceId -> bool)
    requires CacheInv(r)
    ensures var r' := PktflowUpdate(r, id, granted, accepts);
            if id == NULL_ID then r' == r
            else
              && (r'.filterOn <==>
                  && granted.Some? && Checked(r, granted.value) && NullFree(granted.value)
                  && TakesAll(Ids(granted.value) - Cached(r), accepts))
              && (r'.filterOn ==>
                  && r'.filter == id.ssrc && r'.installed == Some(id.ssrc) && Cached(r') == Ids(granted.value)
                  && (r'.state == if granted.value != [] then Active else r.state))
              && (!r'.filterOn ==> HasFailed(r'))
  {
    if id != NULL_ID && granted.Some? && Checked(r, granted.value) {
      ReconcileReachesTable(r, granted.value, accepts);
    }
  }

  /** All rows of the table carry this SSRC: the dataplane's answer to a filter install. */
  ghost predicate OnlySsrc(table: Keys, ssrc: nat) {
    forall i :: 0 <= i < |table| ==> table[i].ssrc == ssrc
  }

  /**
   The table is checked against the old filter before the new one is stored. Hence moving an enabled
   filter to another SSRC works only while the dataplane has no repair source under the new one; with
   such a source the session always ends in the error state, which drops filter and cache.
   */
  lemma {:induction false} FilterSwitch(r: Repair, id: SourceId, table: Keys, accepts: SourceId -> bool)
    requires Inv(r) && r.filterOn && id != NULL_ID && id.ssrc != r.filter
    requires OnlySsrc(table, id.ssrc)
    ensures PktflowUpdate(r, id, Some(table), accepts).filterOn <==> table == []
    ensures table != [] ==> PktflowUpdate(r, id, Some(table), accepts) == Failed(r)
  {
    PktflowSucceedsIff(r, id, Some(table), accepts);
    if table != [] {
      assert table[0].ssrc != r.filter;
    }
  }

  // ----- runs of the repair session -----

  datatype RepairEvent =
    | UpcallEvent(table: Keys, fetched: Option<Keys>, accepts: SourceId -> bool)
    | DeleteEvent(id: SourceId, ipcOk: bool)
    | PktflowEvent(id: SourceId, granted: Option<Keys>, accepts: SourceId -> bool)

  ghost function Step(r: Repair, e: RepairEvent): (r': Repair)
    requires Inv(r)
    ensures Inv(r')
  {
    match e
    case UpcallEvent(t, f, a) => UpcallKeepsInv(r, t, f, a); Upcall(r, t, f, a)
    case DeleteEvent(id, ok) => MemberDeletedKeepsInv(r, id, ok); MemberDeleted(r, id, ok)
    case PktflowEvent(id, g, a) => PktflowKeepsInv(r, id, g, a); PktflowUpdate(r, id, g, a)
  }

  /** The state that a sequence of events leads to: every reachable state is one of these. */
  ghost function Run(events: seq<RepairEvent>): (r: Repair)
    ensures Inv(r)
  {
    if events == [] then Initial() else Step(Run(events[..|events| - 1]), events[|events| - 1])
  }

  /** The dataplane answers a filter install with matching rows only. */
  ghost predicate Honest(e: RepairEvent) {
    e.PktflowEvent? && e.granted.Some? ==> OnlySsrc(e.granted.value, e.id.ssrc)
  }

  /** The cache holds at most one source, and that one carries the filter's SSRC. */
  ghost predicate Filtered(r: Repair) {
    r.filterOn ==> |Cached(r)| <= 1 && forall id :: id in Cached(r) ==> id.ssrc == r.filter
  }

  lemma {:induction false} TwoRowsDiffer(r: Repair, table: Keys, ssrc: nat)
    requires Checked(r, table) && |table| > 1
    ensures !OnlySsrc(table, ssrc)
  {
    assert table[0].ssrc != table[1].ssrc;
  }

  /** A checked table of one SSRC has at most one row. */
  lemma {:induction false} OneRow(r: Repair, table: Keys, ssrc: nat)
    requires Checked(r, table) && OnlySsrc(table, ssrc)
    ensures |table| <= 1 && forall id :: id in Ids(table) ==> id.ssrc == ssrc
    ensures |Ids(table)| <= 1
  {
    if |table| > 1 {
      TwoRowsDiffer(r, table, ssrc);
    }
    if |table| == 1 {
      SubsetSize(Ids(table), {table[0]});
    }
  }

  lemma {:induction false} UpcallKeepsFiltered(r: Repair, table: Keys, fetched: Option<Keys>, accepts: SourceId -> bool)
    requires Inv(r) && Filtered(r)
    ensures Filtered(Upcall(r, table, fetched, accepts))
  {
    if r.state in {WaitFirst, Active} && table != [] && UpdateSources(r, table, fetched, accepts).ok {
      UpdateLeavesAcceptedTable(r, table, fetched, accepts);
      if r.filterOn {
        OneRow(r, UpdateSources(r, table, fetched, accepts).table, r.filter);
      }
    }
  }

  lemma {:induction false} StepKeepsFiltered(r: Repair, e: RepairEvent)
    requires Inv(r) && Filtered(r) && Honest(e)
    ensures Filtered(Step(r, e))
  {
    match e
    case UpcallEvent(t, f, a) => UpcallKeepsFiltered(r, t, f, a);
    case DeleteEvent(id, ok) =>
      MemberDeletedKeepsInv(r, id, ok);
      SubsetSize(Cached(r) - {id}, Cached(r));
    case PktflowEvent(id, g, a) =>
      if id != NULL_ID {
        PktflowSucceedsIff(r, id, g, a);
        if PktflowUpdate(r, id, g, a).filterOn {
          OneRow(r, g.value, id.ssrc);
        }
      }
  }

  /** In every reachable state the filter confines the cache, if the dataplane honours its filter. */
  lemma {:induction false} FilterConfinesCache(events: seq<RepairEvent>)
    requires forall i :: 0 <= i < |events| ==> Honest(events[i])
    ensures Filtered(Run(events))
    decreases |events|
  {
    if events != [] {
      FilterConfinesCache(events[..|events| - 1]);
      StepKeepsFiltered(Run(events[..|events| - 1]), events[|events| - 1]);
    }
  }
}
