/**
 The repair session of eva/rtp_repair_recv.c on values: what each operation computes, the invariant
 that every operation keeps, and what the source cache means after an update.

 The dataplane and the RTP layer are arguments: a table that may come back from an IPC is an Option
 (None is an IPC failure), and `accepts` says which sources the RTP layer takes. Within one event each
 id is offered to the RTP layer at most once, so a predicate on ids is every possible behaviour of it.
 */
module RepairSpec {
  import opened Sequences
  import opened Options
  import opened RtpSource

  /**
   `slots` is the cache src_ids and `count` is num_src_ids. `installed` records the SSRC filter requests
   sent to the dataplane: the last one granted, until a removal is sent.
   */
  datatype Repair = Repair(
    slots: seq<SourceId>,
    count: int,
    filter: nat,
    filterOn: bool,
    state: SessionState,
    installed: Option<nat>)

  const EMPTY_SLOTS: seq<SourceId> := [NULL_ID, NULL_ID, NULL_ID]

  /** The counter counts the occupied slots, which hold distinct ids. */
  ghost predicate CacheInv(r: Repair) {
    && |r.slots| == MAX_KNOWN_SOURCES
    && r.count == Occupied(r.slots)
    && Distinct(r.slots)
  }

  /** What holds between events. */
  ghost predicate Inv(r: Repair) {
    && CacheInv(r)
    && r.state in {WaitFirst, Active, Error}
    && (r.state != Active ==> r.count == 0)
    && (r.filterOn ==> r.installed == Some(r.filter))
    && (!r.filterOn ==> r.filter == 0)
  }

  /** A session just created. */
  ghost function Initial(): (r: Repair)
    ensures Inv(r) && r.state == WaitFirst && !r.filterOn && Cached(r) == {}
  {
    NullsOccupyNothing(EMPTY_SLOTS);
    Repair(EMPTY_SLOTS, 0, 0, false, WaitFirst, None)
  }

  /** The set of cached sources. */
  function Cached(r: Repair): set<SourceId> { Ids(r.slots) }

  // ----- what a table must satisfy -----

  /** Every row passes the filter, if there is one, and no two rows share an SSRC. */
  ghost predicate Checked(r: Repair, table: Keys) {
    && (r.filterOn ==> forall i :: 0 <= i < |table| ==> table[i].ssrc == r.filter)
    && forall i, j :: 0 <= i < j < |table| ==> table[i].ssrc != table[j].ssrc
  }

  /** The table lists exactly `count` rows, none null and all cached. */
  ghost predicate InSync(r: Repair, table: Keys) {
    && |table| == r.count
    && forall i :: 0 <= i < |table| ==> table[i] in Cached(r)
  }

  // ----- operations -----

  /** Cache and filter are dropped on the way to the error state. */
  function Cleared(r: Repair): Repair {
    r.(slots := EMPTY_SLOTS, count := 0, filter := 0, filterOn := false, installed := None)
  }

  function Failed(r: Repair): Repair { Cleared(r).(state := Error) }

  ghost predicate CanAdd(r: Repair, id: SourceId, accepts: SourceId -> bool) {
    r.count != MAX_KNOWN_SOURCES && accepts(id)
  }

  /** A new source goes into the first empty slot. */
  ghost function Added(r: Repair, id: SourceId): (r': Repair)
    requires CacheInv(r) && r.count != MAX_KNOWN_SOURCES
    requires id != NULL_ID && id !in Cached(r)
    ensures CacheInv(r') && Cached(r') == Cached(r) + {id} && r'.count == r.count + 1
  {
    OccupiedFull(r.slots);
    var k := IndexOf(r.slots, NULL_ID);
    OccupiedUpdate(r.slots, k, id);
    var slots' := r.slots[k := id];
    assert slots'[k] == id;
    assert forall x :: x in r.slots && x != NULL_ID ==> x in slots' by {
      forall x | x in r.slots && x != NULL_ID ensures x in slots' {
        var i :| 0 <= i < |r.slots| && r.slots[i] == x;
        assert slots'[i] == x;
      }
    }
    r.(slots := slots', count := r.count + 1)
  }

  /** Adds the new sources of a table in order, up to the first that cannot be added. */
  ghost function AddSources(r: Repair, table: seq<SourceId>, accepts: SourceId -> bool): (res: (Repair, bool))
    requires CacheInv(r)
    ensures CacheInv(res.0)
    ensures res.0.(slots := r.slots, count := r.count) == r
    ensures Cached(r) <= Cached(res.0) <= Cached(r) + Ids(table)
    ensures res.1 ==> Cached(res.0) == Cached(r) + Ids(table)
    decreases table
  {
    if table == [] then
      (r, true)
    else
      assert table == [table[0]] + table[1..];
      if table[0] == NULL_ID || table[0] in Cached(r) then
        AddSources(r, table[1..], accepts)
      else if CanAdd(r, table[0], accepts) then
        AddSources(Added(r, table[0]), table[1..], accepts)
      else
        (r, false)
  }

  /** The slots after the stale ones among the first n have been emptied. */
  function Pruned(slots: seq<SourceId>, table: seq<SourceId>, n: nat): (s: seq<SourceId>)
    requires n <= |slots|
    ensures |s| == |slots|
  {
    seq(|slots|, i requires 0 <= i < |slots| => if i < n && slots[i] !in table then NULL_ID else slots[i])
  }

  /** Drops every cached source that the table does not list. */
  ghost function WithoutStale(r: Repair, table: seq<SourceId>): (r': Repair)
    requires CacheInv(r)
    ensures CacheInv(r')
    ensures Cached(r') == Cached(r) * Ids(table)
  {
    var s := Pruned(r.slots, table, |r.slots|);
    assert forall x :: x in Ids(r.slots) * Ids(table) ==> x in s by {
      forall x | x in Ids(r.slots) * Ids(table) ensures x in s {
        var i :| 0 <= i < |r.slots| && r.slots[i] == x;
        assert s[i] == x;
      }
    }
    r.(slots := s, count := Occupied(s))
  }

  /** Whether a source update succeeds, the session after it, and the table it settled on. */
  datatype Update = Update(next: Repair, ok: bool, table: Keys)

  /** rtp_repair_update_sources: a table that looks stale is fetched again once. */
  ghost function UpdateSources(r: Repair, table: Keys, fetched: Option<Keys>, accepts: SourceId -> bool): (u: Update)
    requires CacheInv(r)
    ensures CacheInv(u.next)
  {
    if table == [] then
      Update(r, true, table)
    else if !Checked(r, table) && (fetched.None? || !Checked(r, fetched.value)) then
      Update(r, false, table)
    else
      var t := if Checked(r, table) then table else fetched.value;
      var (r', ok) := AddSources(r, t, accepts);
      Update(r', ok && InSync(r', t), t)
  }

  ghost function Upcall(r: Repair, table: Keys, fetched: Option<Keys>, accepts: SourceId -> bool): Repair
    requires CacheInv(r)
  {
    if r.state != WaitFirst && r.state != Active then
      r
    else
      var u := UpdateSources(r, table, fetched, accepts);
      if !u.ok then Failed(u.next)
      else if table != [] then u.next.(state := Active)
      else u.next
  }

  /** A member the RTP layer deletes of its own accord; the dataplane is told, and may refuse. */
  ghost function MemberDeleted(r: Repair, id: SourceId, ipcOk: bool): Repair
    requires CacheInv(r)
  {
    if r.state == WaitFirst || id !in Cached(r) then r
    else if !ipcOk then Failed(r)
    else r.(slots := r.slots[IndexOf(r.slots, id) := NULL_ID], count := r.count - 1)
  }

  /** A new primary source: install its SSRC as the filter and reconcile with the table that comes back. */
  ghost function PktflowUpdate(r: Repair, id: SourceId, granted: Option<Keys>, accepts: SourceId -> bool): Repair
    requires CacheInv(r)
  {
    if id == NULL_ID then
      r
    else if granted.None? || !Checked(r, granted.value) then
      Failed(r)
    else
      var (r', ok) := AddSources(WithoutStale(r, granted.value), granted.value, accepts);
      if !ok || !InSync(r', granted.value) then
        Failed(r')
      else
        r'.(filter := id.ssrc, filterOn := true, installed := Some(id.ssrc),
            state := if r'.count != 0 && granted.value != [] then Active else r'.state)
  }

  // ----- every operation keeps the invariant -----

  lemma {:induction false} FailedKeepsInv(r: Repair)
    ensures Inv(Failed(r)) && Cached(Failed(r)) == {}
  {
    NullsOccupyNothing(EMPTY_SLOTS);
  }

  lemma {:induction false} UpcallKeepsInv(r: Repair, table: Keys, fetched: Option<Keys>, accepts: SourceId -> bool)
    requires Inv(r)
    ensures Inv(Upcall(r, table, fetched, accepts))
  {
    FailedKeepsInv(UpdateSources(r, table, fetched, accepts).next);
  }

  lemma {:induction false} MemberDeletedKeepsInv(r: Repair, id: SourceId, ipcOk: bool)
    requires Inv(r)
    ensures Inv(MemberDeleted(r, id, ipcOk))
    ensures Cached(MemberDeleted(r, id, true)) == Cached(r) - (if r.state == WaitFirst then {} else {id})
  {
    FailedKeepsInv(r);
    if id in Cached(r) {
      var k := IndexOf(r.slots, id);
      OccupiedUpdate(r.slots, k, NULL_ID);
      OccupiedZeroEmpty(r.slots);
      var s := r.slots[k := NULL_ID];
      forall x | x in Cached(r) && x != id ensures x in s {
        var i :| 0 <= i < |r.slots| && r.slots[i] == x;
        assert s[i] == x;
      }
    }
  }

  lemma {:induction false} PktflowKeepsInv(r: Repair, id: SourceId, granted: Option<Keys>, accepts: SourceId -> bool)
    requires Inv(r)
    ensures Inv(PktflowUpdate(r, id, granted, accepts))
  {
    if id != NULL_ID {
      FailedKeepsInv(r);
      if granted.Some? && Checked(r, granted.value) {
        FailedKeepsInv(AddSources(WithoutStale(r, granted.value), granted.value, accepts).0);
      }
    }
  }

  lemma {:induction false} OccupiedZeroEmpty(s: seq<SourceId>)
    ensures Occupied(s) == 0 <==> Ids(s) == {}
  {
    if s != [] {
      OccupiedZeroEmpty(s[1..]);
      assert s == [s[0]] + s[1..];
      assert Ids(s) == (if s[0] == NULL_ID then {} else {s[0]}) + Ids(s[1..]);
    }
  }

  lemma {:induction false} NullsOccupyNothing(s: seq<SourceId>)
    requires forall i :: 0 <= i < |s| ==> s[i] == NULL_ID
    ensures Occupied(s) == 0
  {
    if s != [] {
      NullsOccupyNothing(s[1..]);
    }
  }
}
