/**
 The repair session of eva/rtp_repair_recv.c as an object: a fixed cache of source ids, its counter, the
 SSRC filter, the state and the recursion lock, updated in place. Each method is proved to compute the
 operation of the same name in RepairSpec. The three assertions of the source appear as asserts.
 */
module RepairReceiver {
  import opened Sequences
  import opened Options
  import opened RtpSource
  import opened RepairSpec
  import RepairTheorems

  class RepairSession {
    const srcIds: array<SourceId>
    var numSrcIds: int
    var srcSsrcFilter: nat
    var ssrcFilterEn: bool
    var state: SessionState
    /** s_rtp_repair_del_lock: a member deletion is under way on behalf of this session itself. */
    var delLock: bool
    /** The filter requests sent to the dataplane, as in RepairSpec. */
    var installed: Option<nat>

    ghost function View(): Repair
      reads this, srcIds
    {
      Repair(srcIds[..], numSrcIds, srcSsrcFilter, ssrcFilterEn, state, installed)
    }

    ghost predicate CacheValid()
      reads this, srcIds
    {
      CacheInv(View()) && !delLock
    }

    ghost predicate Valid()
      reads this, srcIds
    {
      Inv(View()) && !delLock
    }

    constructor ()
      ensures Valid() && fresh(srcIds)
      ensures View() == Initial()
    {
      srcIds := new SourceId[MAX_KNOWN_SOURCES](_ => NULL_ID);
      numSrcIds, srcSsrcFilter, ssrcFilterEn := 0, 0, false;
      state, delLock, installed := WaitFirst, false, None;
      new;
      assert srcIds[..] == EMPTY_SLOTS;
      assert View() == Initial();
    }

    /** rtp_repair_lookup_local_src: the index of a cached source, or -1. */
    method LookupLocalSrc(lookup: SourceId) returns (found: int)
      requires CacheInv(View())
      ensures found == if lookup in Cached(View()) then IndexOf(srcIds[..], lookup) else -1
    {
      OccupiedZeroEmpty(srcIds[..]);
      found := -1;
      if numSrcIds == 0 {
        return;
      }
      var i := 0;
      while i < srcIds.Length
        invariant 0 <= i <= srcIds.Length
        invariant found == -1 && (lookup == NULL_ID || lookup !in srcIds[..i])
      {
        if srcIds[i] != NULL_ID && srcIds[i] == lookup {
          IndexOfFirst(srcIds[..], lookup, i);
          found := i;
          return;
        }
        i := i + 1;
      }
      assert srcIds[..i] == srcIds[..];
    }

    /** rtp_repair_compare_src_table. */
    method CompareSrcTable(table: Keys) returns (same: bool)
      requires CacheInv(View())
      ensures same <==> InSync(View(), table)
    {
      if |table| != numSrcIds {
        return false;
      }
      var matchCnt := 0;
      var i := 0;
      while i < |table|
        invariant 0 <= i <= |table|
        invariant matchCnt == Occupied(table[..i])
        invariant forall k :: 0 <= k < i ==> table[k] == NULL_ID || table[k] in Cached(View())
      {
        OccupiedSnoc(table[..i], table[i]);
        assert table[..i + 1] == table[..i] + [table[i]];
        if table[i] != NULL_ID {
          var at := LookupLocalSrc(table[i]);
          if at == -1 {
            return false;
          }
          matchCnt := matchCnt + 1;
        }
        i := i + 1;
      }
      assert table[..i] == table;
      OccupiedFull(table);
      same := matchCnt == numSrcIds;
    }

    /** rtp_repair_check_src_table: both loops run to the end of the table in every case. */
    method CheckSrcTable(table: Keys) returns (ret: bool)
      ensures ret <==> Checked(View(), table)
    {
      ret := true;
      if ssrcFilterEn {
        var i := 0;
        while i < |table|
          invariant 0 <= i <= |table|
          invariant ret && forall k :: 0 <= k < i ==> table[k].ssrc == srcSsrcFilter
        {
          if srcSsrcFilter != table[i].ssrc {
            ret := false;
            break;
          }
          i := i + 1;
        }
      }
      ghost var filterOk := ret;
      var i := 0;
      while i < |table|
        invariant 0 <= i <= |table|
        invariant ret <==>
                  (filterOk
                   && forall k, j :: 0 <= k < i && 0 <= j < |table| && k != j ==> table[k].ssrc != table[j].ssrc)
      {
        var j := 0;
        while j < |table|
          invariant 0 <= j <= |table|
          invariant forall k :: 0 <= k < j && k != i ==> table[k].ssrc != table[i].ssrc
        {
          if i != j && table[j].ssrc == table[i].ssrc {
            ret := false;
            break;
          }
          j := j + 1;
        }
        i := i + 1;
      }
    }

    /** rtp_remove_member_by_id: the RTP layer calls the delete vector back if it knows the member. */
    method RemoveMemberById(id: SourceId)
      requires delLock
      modifies this, srcIds
      ensures View() == old(View()) && delLock
      decreases 1
    {
      var known: bool := *;
      if known {
        var ipcOk: bool := *;
        DeleteMember(id, ipcOk);
      }
    }

    /**
     rtp_repair_delete_member. Called back under the lock it leaves the session alone; otherwise it drops
     the source and tells the dataplane.
     */
    method DeleteMember(id: SourceId, ipcOk: bool)
      requires delLock || Valid()
      modifies this, srcIds
      ensures delLock == old(delLock)
      ensures View() == if old(delLock) then old(View()) else MemberDeleted(old(View()), id, ipcOk)
      ensures !delLock ==> Valid()
      decreases if delLock then 0 else 3
    {
      ghost var before := View();
      if state != WaitFirst && !delLock {
        MemberDeletedKeepsInv(before, id, ipcOk);
        var at := LookupLocalSrc(id);
        if at != -1 {
          OccupiedZeroEmpty(srcIds[..]);
          srcIds[at] := NULL_ID;
          numSrcIds := numSrcIds - 1;
          assert numSrcIds >= 0;
          if !ipcOk {
            EnterErrorState();
            state := Error;
          }
        }
      }
    }

    /** rtp_repair_enter_error_state: empties cache and filter, here and in the dataplane. */
    method EnterErrorState()
      requires srcIds.Length == MAX_KNOWN_SOURCES && !delLock
      modifies this, srcIds
      ensures View() == Cleared(old(View())) && !delLock
      decreases 2
    {
      var i := 0;
      while i < srcIds.Length
        invariant 0 <= i <= srcIds.Length
        invariant View() == old(View()) && !delLock
      {
        if srcIds[i] != NULL_ID {
          delLock := true;
          RemoveMemberById(srcIds[i]);
          delLock := false;
        }
        i := i + 1;
      }
      i := 0;
      while i < srcIds.Length
        invariant 0 <= i <= srcIds.Length
        invariant forall k :: 0 <= k < i ==> srcIds[k] == NULL_ID
        invariant View().(slots := old(View()).slots) == old(View()) && !delLock
      {
        srcIds[i] := NULL_ID;
        i := i + 1;
      }
      numSrcIds, srcSsrcFilter, ssrcFilterEn := 0, 0, false;
      installed := None;
      assert srcIds[..] == EMPTY_SLOTS;
    }

    /** rtp_repair_add_new_source. */
    method AddNewSource(id: SourceId, accepted: bool) returns (ret: bool)
      requires CacheValid() && id != NULL_ID && id !in Cached(View())
      modifies this, srcIds
      ensures CacheValid()
      ensures ret <==> old(numSrcIds) != MAX_KNOWN_SOURCES && accepted
      ensures View() == if ret then Added(old(View()), id) else old(View())
    {
      if numSrcIds == MAX_KNOWN_SOURCES || !accepted {
        return false;
      }
      OccupiedFull(srcIds[..]);
      var i := 0;
      while i < srcIds.Length && srcIds[i] != NULL_ID
        invariant 0 <= i <= srcIds.Length
        invariant NULL_ID !in srcIds[..i]
      {
        i := i + 1;
      }
      assert srcIds[..srcIds.Length] == srcIds[..];
      assert i < srcIds.Length;
      IndexOfFirst(srcIds[..], NULL_ID, i);
      srcIds[i] := id;
      numSrcIds := numSrcIds + 1;
      assert View() == Added(old(View()), id);
      ret := true;
    }

    /** rtp_repair_find_add_new_sources. */
    method FindAddNewSources(table: Keys, accepts: SourceId -> bool) returns (ret: bool)
      requires CacheValid()
      modifies this, srcIds
      ensures CacheValid()
      ensures (View(), ret) == AddSources(old(View()), table, accepts)
    {
      ret := true;
      var i := 0;
      while i < |table|
        invariant 0 <= i <= |table| && ret
        invariant CacheValid()
        invariant AddSources(View(), table[i..], accepts) == AddSources(old(View()), table, accepts)
      {
        assert table[i..][0] == table[i] && table[i..][1..] == table[i + 1..];
        if table[i] != NULL_ID {
          var at := LookupLocalSrc(table[i]);
          if at == -1 {
            ret := AddNewSource(table[i], accepts(table[i]));
            if !ret {
              return;
            }
          }
        }
        i := i + 1;
      }
    }

    /** rtp_repair_update_sources. */
    method UpdateSources(pTable: Keys, fetched: Option<Keys>, accepts: SourceId -> bool) returns (ret: bool)
      requires CacheValid()
      modifies this, srcIds
      ensures CacheValid()
      ensures var u := RepairSpec.UpdateSources(old(View()), pTable, fetched, accepts); View() == u.next && ret == u.ok
      ensures ret <==> pTable == [] || exists t: Keys ::
                RepairTheorems.Settled(old(View()), pTable, fetched, t) &&
                RepairTheorems.Reachable(old(View()), t, accepts)
    {
      RepairTheorems.UpdateSucceedsIff(View(), pTable, fetched, accepts);
      if |pTable| == 0 {
        return true;
      }
      var table := pTable;
      var ok := CheckSrcTable(table);
      if !ok {
        if fetched.None? {
          return false;
        }
        table := fetched.value;
        ok := CheckSrcTable(table);
        if !ok {
          return false;
        }
      }
      ret := FindAddNewSources(table, accepts);
      if ret {
        ret := CompareSrcTable(table);
      }
    }

    /** rtp_repair_upcall_ev. */
    method UpcallEv(table: Keys, fetched: Option<Keys>, accepts: SourceId -> bool)
      requires Valid()
      modifies this, srcIds
      ensures Valid()
      ensures View() == Upcall(old(View()), table, fetched, accepts)
    {
      UpcallKeepsInv(View(), table, fetched, accepts);
      if state == WaitFirst || state == Active {
        assert state == WaitFirst ==> numSrcIds == 0;
        var ok := UpdateSources(table, fetched, accepts);
        if !ok {
          EnterErrorState();
          state := Error;
        } else if state != Active && |table| != 0 {
          state := Active;
        }
      }
    }

    /** rtp_repair_del_stale_sources: the cache is pruned while it is scanned. */
    method DelStaleSources(table: Keys)
      requires CacheValid()
      modifies this, srcIds
      ensures CacheValid()
      ensures View() == WithoutStale(old(View()), table)
    {
      ghost var was := srcIds[..];
      var i := 0;
      while i < srcIds.Length
        invariant 0 <= i <= srcIds.Length == MAX_KNOWN_SOURCES && !delLock
        invariant srcIds[..] == Pruned(was, table, i)
        invariant numSrcIds == Occupied(srcIds[..])
        invariant View().(slots := was, count := old(numSrcIds)) == old(View())
      {
        ghost var now := srcIds[..];
        if srcIds[i] != NULL_ID {
          var listed := Lists(table, srcIds[i]);
          if !listed {
            delLock := true;
            RemoveMemberById(srcIds[i]);
            delLock := false;
            numSrcIds := numSrcIds - 1;
            OccupiedUpdate(now, i, NULL_ID);
            srcIds[i] := NULL_ID;
            assert srcIds[..] == now[i := NULL_ID];
          }
        }
        PrunedStep(was, table, i);
        i := i + 1;
      }
    }

    /** The inner search of del_stale_sources. */
    method Lists(table: Keys, id: SourceId) returns (found: bool)
      ensures found <==> id in table
    {
      var j := 0;
      while j < |table|
        invariant 0 <= j <= |table|
        invariant id !in table[..j]
      {
        if id == table[j] {
          return true;
        }
        j := j + 1;
      }
      assert table[..j] == table;
      found := false;
    }

    /** rtp_repair_primary_pktflow_src_update. */
    method PrimaryPktflowSrcUpdate(id: SourceId, granted: Option<Keys>, accepts: SourceId -> bool)
      requires Valid()
      modifies this, srcIds
      ensures Valid()
      ensures View() == PktflowUpdate(old(View()), id, granted, accepts)
    {
      PktflowKeepsInv(View(), id, granted, accepts);
      if id == NULL_ID {
        return;
      }
      if granted.None? {
        EnterErrorState();
        state := Error;
        return;
      }
      var table := granted.value;
      var ok := CheckSrcTable(table);
      if ok {
        DelStaleSources(table);
        ok := FindAddNewSources(table, accepts);
        if ok {
          ok := CompareSrcTable(table);
        }
      }
      if !ok {
        EnterErrorState();
        state := Error;
        return;
      }
      srcSsrcFilter := id.ssrc;
      ssrcFilterEn := true;
      installed := Some(id.ssrc);
      if state != Active && numSrcIds != 0 && |table| != 0 {
        state := Active;
      }
    }
  }

  lemma {:induction false} PrunedStep(slots: seq<SourceId>, table: seq<SourceId>, i: nat)
    requires i < |slots|
    ensures Pruned(slots, table, i)[i] == slots[i]
    ensures Pruned(slots, table, i + 1) ==
            if slots[i] in table then Pruned(slots, table, i) else Pruned(slots, table, i)[i := NULL_ID]
  {
  }

  lemma {:induction false} OccupiedSnoc(s: seq<SourceId>, id: SourceId)
    ensures Occupied(s + [id]) == Occupied(s) + (if id == NULL_ID then 0 else 1)
  {
    if s != [] {
      assert (s + [id])[1..] == s[1..] + [id];
      OccupiedSnoc(s[1..], id);
    }
  }
}
