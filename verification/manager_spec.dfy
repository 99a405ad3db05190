/**
 The channel manager of cfg/cfg_channel.c on values: a handle table with holes over the registration
 index, and the records that handles resolve to. The record table (the id manager) is shared between the
 live and the candidate manager, so an operation names the records it may touch.
 */
module ManagerSpec {
  import opened Sequences
  import opened Options
  import opened ChannelMap
  import opened Channels
  import opened Registration

  const MAX_CHANNELS := 1000
  const ILLEGAL_ID: Handle := 0xFFFF_FFFF

  /** The records of both managers, by handle. */
  type Records = map<Handle, ChannelCfg>

  /** `table` is handles[0 .. total_num_channels]; a deleted channel leaves ILLEGAL_ID behind. */
  datatype Mgr = Mgr(table: seq<Handle>, ix: Index)

  const EMPTY_MGR := Mgr([], EMPTY_INDEX)

  /** What cfg_channel_add is given: the key of the o= line and what validation makes of the description. */
  datatype Session = Session(key: string, validated: Option<ChannelCfg>)

  ghost predicate ProperSession(s: Session) {
    s.validated.Some? ==> s.validated.value.sessionKey == s.key && !s.validated.value.used
  }

  datatype Code = Success | ExceedMax | Exist | FailedGetInfo | InvalidHandle | FailedAddMap

  datatype Outcome = Outcome(ids: Records, mgr: Mgr, code: Code)

  function Live(m: Mgr): set<Handle> { set h | h in m.table && h != ILLEGAL_ID }

  /** What a handle resolves to for readers: inactive channels are hidden. */
  function ActiveRecord(ids: Records, h: Handle): Option<ChannelCfg> {
    if h != ILLEGAL_ID && h in ids && ids[h].active then Some(ids[h]) else None
  }

  /** The handle can be given out by the id manager. */
  predicate Fresh(ids: Records, h: Handle) { h !in ids && h != ILLEGAL_ID }

  /**
   The handle table lists each live channel once; every map entry belongs to a live channel that has that
   key; session keys and live channels correspond.
   */
  ghost predicate Inv(ids: Records, m: Mgr) {
    && |m.table| <= MAX_CHANNELS
    && Live(m) <= ids.Keys
    && (forall i, j :: 0 <= i < j < |m.table| && m.table[i] == m.table[j] ==> m.table[i] == ILLEGAL_ID)
    && (forall s :: Has(m.ix, s) ==> Owner(m.ix, s) in Live(m) && s in Attempted(ids[Owner(m.ix, s)]))
    && (forall k :: k in m.ix.keys ==> m.ix.keys[k] in Live(m) && ids[m.ix.keys[k]].sessionKey == k)
    && (forall h :: h in Live(m) ==> ids[h].sessionKey in m.ix.keys && m.ix.keys[ids[h].sessionKey] == h)
  }

  // ----- operations -----

  /** cfg_channel_add with the handle h that the id manager gives out. */
  function Add(ids: Records, m: Mgr, s: Session, h: Handle): Outcome {
    if s.key in m.ix.keys then Outcome(ids, m, Exist)
    else if |m.table| >= MAX_CHANNELS then Outcome(ids, m, ExceedMax)
    else if s.validated.None? then Outcome(ids, m, FailedGetInfo)
    else
      var (ix', ok) := Register(m.ix, s.validated.value, h);
      if ok then Outcome(ids[h := s.validated.value], Mgr(m.table + [h], ix'), Success)
      else Outcome(ids, m.(ix := ix'), FailedAddMap)
  }

  /** cfg_channel_delete, with removal from the maps. */
  function Delete(ids: Records, m: Mgr, h: Handle): Outcome {
    if h !in ids then Outcome(ids, m, InvalidHandle)
    else
      var k := IndexOf(m.table, h);
      Outcome(ids - {h},
              Mgr(if k < |m.table| then m.table[k := ILLEGAL_ID] else m.table, Unregister(m.ix, ids[h])),
              Success)
  }

  /** cfg_channel_copy into a new record: all but the use mark and the re-sourced bandwidths, which stay zero. */
  function Copy(c: ChannelCfg): ChannelCfg {
    c.(used := false, reSourced := c.reSourced.(sndrBw := 0, rcvrBw := 0))
  }

  /** cfg_channel_insert: the copy takes the first hole, else the end; a full table undoes the registration. */
  function Insert(ids: Records, m: Mgr, c: ChannelCfg, h: Handle): Outcome {
    var (ix', ok) := Register(m.ix, Copy(c), h);
    var k := IndexOf(m.table, ILLEGAL_ID);
    if !ok then Outcome(ids, m.(ix := ix'), FailedAddMap)
    else if k < |m.table| then Outcome(ids[h := Copy(c)], Mgr(m.table[k := h], ix'), Success)
    else if |m.table| >= MAX_CHANNELS then
      var d := Delete(ids[h := Copy(c)], m.(ix := ix'), h);
      Outcome(d.ids, d.mgr, ExceedMax)
    else Outcome(ids[h := Copy(c)], Mgr(m.table + [h], ix'), Success)
  }

  /** cfg_channel_destroy_all after n positions: it deletes what the table lists there by then. */
  function DestroyFirst(ids: Records, m: Mgr, n: nat): (o: Outcome)
    requires n <= |m.table|
    ensures |o.mgr.table| == |m.table|
  {
    if n == 0 then Outcome(ids, m, Success)
    else
      var p := DestroyFirst(ids, m, n - 1);
      var h := p.mgr.table[n - 1];
      if h == ILLEGAL_ID then p else Delete(p.ids, p.mgr, h).(code := Success)
  }

  /** cfg_channel_destroy_all. */
  function Emptied(ids: Records, m: Mgr): Outcome {
    var d := DestroyFirst(ids, m, |m.table|);
    Outcome(d.ids, Mgr([], d.mgr.ix), Success)
  }

  // ----- every operation keeps the invariant -----

  lemma {:induction false} UnregisterShrinks(ix: Index, c: ChannelCfg)
    ensures forall s :: Has(Unregister(ix, c), s) ==>
              Has(ix, s) && Owner(Unregister(ix, c), s) == Owner(ix, s) && s !in Removed(c)
  {
    forall s | Has(Unregister(ix, c), s)
      ensures Has(ix, s) && Owner(Unregister(ix, c), s) == Owner(ix, s) && s !in Removed(c) {
      UnregisterHas(ix, c, s);
    }
  }

  /**
   A failed registration keeps the invariant exactly when the session key is new or the first key is
   refused. Otherwise it strands entries under a handle that is not kept, or takes the session key away
   from the channel that has it.
   */
  lemma {:induction false} RejectionKeepsInvIff(ids: Records, m: Mgr, c: ChannelCfg, h: Handle)
    requires Inv(ids, m) && Fresh(ids, h) && !Register(m.ix, c, h).1
    ensures Inv(ids, m.(ix := Register(m.ix, c, h).0)) <==> c.sessionKey !in m.ix.keys || !Free(m.ix, Attempted(c)[0])
  {
    RejectionEffect(m.ix, c, h);
    var ix' := Register(m.ix, c, h).0;
    if Free(m.ix, Attempted(c)[0]) {
      if c.sessionKey !in m.ix.keys {
        UnregisterShrinks(m.ix, c);
        assert m.ix.keys - {c.sessionKey} == m.ix.keys;
      } else if OwnKeysOk(c) && KeysFree(m.ix, c) {
        OriginalFirst(c);
        assert Has(ix', Attempted(c)[0]) && Owner(ix', Attempted(c)[0]) == h;
      } else {
        var other := m.ix.keys[c.sessionKey];
        assert other in Live(m.(ix := ix')) && ids[other].sessionKey !in ix'.keys;
      }
    }
  }

  lemma {:induction false} SuccessKeepsInv(ids: Records, m: Mgr, c: ChannelCfg, h: Handle, table': seq<Handle>)
    requires Inv(ids, m) && Fresh(ids, h) && Register(m.ix, c, h).1
    requires |table'| <= MAX_CHANNELS && h in table'
    requires Live(Mgr(table', m.ix)) == Live(m) + {h}
    requires forall i, j :: 0 <= i < j < |table'| && table'[i] == table'[j] ==> table'[i] == ILLEGAL_ID
    ensures Inv(ids[h := c], Mgr(table', Register(m.ix, c, h).0))
  {
    RegisterSucceedsIff(m.ix, c, h);
  }

  lemma {:induction false} AddKeepsInv(ids: Records, m: Mgr, s: Session, h: Handle)
    requires Inv(ids, m) && Fresh(ids, h) && ProperSession(s)
    ensures Inv(Add(ids, m, s, h).ids, Add(ids, m, s, h).mgr)
    ensures Live(Add(ids, m, s, h).mgr) == Live(m) + (if Add(ids, m, s, h).code == Success then {h} else {})
  {
    if s.key !in m.ix.keys && |m.table| < MAX_CHANNELS && s.validated.Some? {
      var c := s.validated.value;
      if Register(m.ix, c, h).1 {
        AppendLive(m, h);
        SuccessKeepsInv(ids, m, c, h, m.table + [h]);
      } else {
        RejectionKeepsInvIff(ids, m, c, h);
      }
    }
  }

  lemma {:induction false} AppendLive(m: Mgr, h: Handle)
    requires h != ILLEGAL_ID
    ensures Live(Mgr(m.table + [h], m.ix)) == Live(m) + {h}
  {
    assert (m.table + [h])[|m.table|] == h;
  }

  lemma {:induction false} FillLive(m: Mgr, k: nat, h: Handle)
    requires k < |m.table| && m.table[k] == ILLEGAL_ID && h != ILLEGAL_ID
    ensures Live(Mgr(m.table[k := h], m.ix)) == Live(m) + {h}
  {
    var t := m.table[k := h];
    assert t[k] == h;
    forall x | x in Live(m) ensures x in t {
      var i :| 0 <= i < |m.table| && m.table[i] == x;
      assert t[i] == x;
    }
  }

  lemma {:induction false} DeleteKeepsInv(ids: Records, m: Mgr, h: Handle)
    requires Inv(ids, m) && h in Live(m)
    ensures Inv(Delete(ids, m, h).ids, Delete(ids, m, h).mgr)
    ensures Live(Delete(ids, m, h).mgr) == Live(m) - {h}
    ensures Delete(ids, m, h).ids == ids - {h}
  {
    var c, k, d := ids[h], IndexOf(m.table, h), Delete(ids, m, h);
    UnregisterShrinks(m.ix, c);
    AttemptedIsRemoved(c);
    assert k < |m.table|;
    HoleLive(m, k, h);
  }

  lemma {:induction false} HoleLive(m: Mgr, k: nat, h: Handle)
    requires k < |m.table| && m.table[k] == h && h != ILLEGAL_ID
    requires forall i, j :: 0 <= i < j < |m.table| && m.table[i] == m.table[j] ==> m.table[i] == ILLEGAL_ID
    ensures Live(Mgr(m.table[k := ILLEGAL_ID], m.ix)) == Live(m) - {h}
  {
    var t := m.table[k := ILLEGAL_ID];
    forall x | x in Live(m) - {h} ensures x in t {
      var i :| 0 <= i < |m.table| && m.table[i] == x;
      assert t[i] == x;
    }
    assert h !in t;
  }

  /** The session key is new, or the insertion fails at once. */
  predicate Harmless(m: Mgr, c: ChannelCfg) { c.sessionKey !in m.ix.keys || !Free(m.ix, Attempted(c)[0]) }

  /**
   An insertion keeps the invariant exactly when the session key is new or the original address and RTP
   port are refused; the code has no test for a taken session key before it registers the other keys.
   */
  lemma {:induction false} InsertKeepsInvIff(ids: Records, m: Mgr, c: ChannelCfg, h: Handle)
    requires Inv(ids, m) && Fresh(ids, h)
    ensures Inv(Insert(ids, m, c, h).ids, Insert(ids, m, c, h).mgr) <==> Harmless(m, c)
    ensures Live(Insert(ids, m, c, h).mgr) == Live(m) + (if Insert(ids, m, c, h).code == Success then {h} else {})
  {
    var d := Copy(c);
    assert Attempted(d) == Attempted(c);
    RegisterSucceedsIff(m.ix, d, h);
    if Register(m.ix, d, h).1 {
      RegisteredKeepsInv(ids, m, c, d, h);
    } else {
      RejectionKeepsInvIff(ids, m, d, h);
    }
  }

  /** An insertion whose keys were registered finds a place or is undone. */
  lemma {:induction false} RegisteredKeepsInv(ids: Records, m: Mgr, c: ChannelCfg, d: ChannelCfg, h: Handle)
    requires Inv(ids, m) && Fresh(ids, h) && d == Copy(c) && Register(m.ix, d, h).1
    ensures Inv(Insert(ids, m, c, h).ids, Insert(ids, m, c, h).mgr)
    ensures Live(Insert(ids, m, c, h).mgr) == Live(m) + (if Insert(ids, m, c, h).code == Success then {h} else {})
  {
    var k := IndexOf(m.table, ILLEGAL_ID);
    if k < |m.table| {
      FillLive(m, k, h);
      assert m.table[k := h][k] == h;
      SuccessKeepsInv(ids, m, d, h, m.table[k := h]);
    } else if |m.table| < MAX_CHANNELS {
      AppendLive(m, h);
      SuccessKeepsInv(ids, m, d, h, m.table + [h]);
    } else {
      FullTableKeepsInv(ids, m, d, h);
    }
  }

  /** Undoing a registration for want of a table entry. */
  lemma {:induction false} FullTableKeepsInv(ids: Records, m: Mgr, c: ChannelCfg, h: Handle)
    requires Inv(ids, m) && Fresh(ids, h) && Register(m.ix, c, h).1
    ensures Inv(ids, m.(ix := Unregister(Register(m.ix, c, h).0, c)))
    ensures Delete(ids[h := c], m.(ix := Register(m.ix, c, h).0), h) ==
            Outcome(ids, m.(ix := Unregister(Register(m.ix, c, h).0, c)), Success)
  {
    RegisterSucceedsIff(m.ix, c, h);
    UndoneKeepsInv(ids, m, c, h, Register(m.ix, c, h).0);
    assert h !in m.table by {
      assert h !in Live(m);
    }
    assert ids[h := c] - {h} == ids;
  }

  lemma {:induction false} UndoneKeepsInv(ids: Records, m: Mgr, c: ChannelCfg, h: Handle, ix: Index)
    requires Inv(ids, m) && c.sessionKey !in m.ix.keys && Gained(m.ix, ix, c, h)
    ensures Inv(ids, m.(ix := Unregister(ix, c)))
  {
    UnregisterShrinks(ix, c);
    AttemptedIsRemoved(c);
    assert ix.keys - {c.sessionKey} == m.ix.keys;
  }

  // ----- destroying everything -----

  /** The part of the invariant that does not depend on the index. */
  ghost predicate TableOk(ids: Records, m: Mgr) {
    && |m.table| <= MAX_CHANNELS
    && Live(m) <= ids.Keys
    && (forall i, j :: 0 <= i < j < |m.table| && m.table[i] == m.table[j] ==> m.table[i] == ILLEGAL_ID)
  }

  /** The live channels among the first n positions. */
  function LiveFirst(m: Mgr, n: nat): set<Handle>
    requires n <= |m.table|
  {
    set h | h in m.table[..n] && h != ILLEGAL_ID
  }

  /** One of these channels has this among its removal keys. */
  ghost predicate Covered(ids: Records, hs: set<Handle>, s: Slot) {
    exists h :: h in hs && h in ids && s in Removed(ids[h])
  }

  ghost predicate KeyCovered(ids: Records, hs: set<Handle>, key: string) {
    exists h :: h in hs && h in ids && ids[h].sessionKey == key
  }

  /** The index without all that these channels have removed. */
  ghost predicate Uncovered(ids: Records, hs: set<Handle>, ix: Index, ix': Index) {
    && (forall s :: Has(ix', s) <==> Has(ix, s) && !Covered(ids, hs, s))
    && (forall k :: k in ix'.keys <==> k in ix.keys && !KeyCovered(ids, hs, k))
  }

  /** Deleting one more channel. */
  lemma {:induction false} UncoveredNext(ids: Records, hs: set<Handle>, h: Handle, ix: Index, ix': Index)
    requires h in ids && Uncovered(ids, hs, ix, ix')
    ensures Uncovered(ids, hs + {h}, ix, Unregister(ix', ids[h]))
  {
    var c, u := ids[h], Unregister(ix', ids[h]);
    forall s ensures Has(u, s) <==> Has(ix, s) && !Covered(ids, hs + {h}, s) {
      UnregisterHas(ix', c, s);
      assert Covered(ids, hs + {h}, s) <==> Covered(ids, hs, s) || s in Removed(c);
    }
    forall k ensures k in u.keys <==> k in ix.keys && !KeyCovered(ids, hs + {h}, k) {
      assert KeyCovered(ids, hs + {h}, k) <==> KeyCovered(ids, hs, k) || c.sessionKey == k;
    }
  }

  /** The table with its first n positions emptied. */
  function Holes(t: seq<Handle>, n: nat): seq<Handle>
    requires n <= |t|
  {
    seq(n, _ => ILLEGAL_ID) + t[n..]
  }

  lemma {:induction false} HolesNext(m: Mgr, n: nat)
    requires n < |m.table|
    requires forall i, j :: 0 <= i < j < |m.table| && m.table[i] == m.table[j] ==> m.table[i] == ILLEGAL_ID
    ensures var t, h := Holes(m.table, n), m.table[n];
            if h == ILLEGAL_ID then Holes(m.table, n + 1) == t && LiveFirst(m, n + 1) == LiveFirst(m, n)
            else
              && IndexOf(t, h) == n && Holes(m.table, n + 1) == t[n := ILLEGAL_ID]
              && h !in LiveFirst(m, n) && LiveFirst(m, n + 1) == LiveFirst(m, n) + {h}
  {
    var t, h := Holes(m.table, n), m.table[n];
    assert m.table[..n + 1] == m.table[..n] + [h];
    assert t[n] == h;
    if h != ILLEGAL_ID {
      assert forall j :: 0 <= j < n ==> t[j] != h;
    }
  }

  /** What the first n rounds leave: no record of those channels, and no entry they have among their removal keys. */
  ghost predicate Destroyed(ids: Records, m: Mgr, n: nat, d: Outcome)
    requires n <= |m.table|
  {
    && d.mgr.table == Holes(m.table, n)
    && d.ids == ids - LiveFirst(m, n)
    && Uncovered(ids, LiveFirst(m, n), m.ix, d.mgr.ix)
  }

  lemma {:induction false} DestroyedNext(ids: Records, m: Mgr, n: nat, p: Outcome)
    requires TableOk(ids, m) && n < |m.table| && Destroyed(ids, m, n, p)
    ensures n < |p.mgr.table|
    ensures var h := p.mgr.table[n];
            Destroyed(ids, m, n + 1, if h == ILLEGAL_ID then p else Delete(p.ids, p.mgr, h).(code := Success))
  {
    var h := m.table[n];
    HolesNext(m, n);
    if h != ILLEGAL_ID {
      assert h in Live(m) && h in p.ids && p.ids[h] == ids[h];
      UncoveredNext(ids, LiveFirst(m, n), h, m.ix, p.mgr.ix);
      assert ids - LiveFirst(m, n) - {h} == ids - LiveFirst(m, n + 1);
    }
  }

  lemma {:induction false} DestroyFirstIs(ids: Records, m: Mgr, n: nat)
    requires TableOk(ids, m) && n <= |m.table|
    ensures Destroyed(ids, m, n, DestroyFirst(ids, m, n))
  {
    if n == 0 {
      assert LiveFirst(m, 0) == {} && Holes(m.table, 0) == m.table;
    } else {
      var p := DestroyFirst(ids, m, n - 1);
      assert Destroyed(ids, m, n - 1, p) by {
        DestroyFirstIs(ids, m, n - 1);
      }
      DestroyedNext(ids, m, n - 1, p);
    }
  }

  /**
   Destroying all channels of any handle table deletes exactly their records. It empties both maps and the
   session keys exactly when every entry is a removal key, and every session key the key, of a channel that
   the table lists.
   */
  lemma {:induction false} EmptiedIff(ids: Records, m: Mgr)
    requires TableOk(ids, m)
    ensures Emptied(ids, m).ids == ids - Live(m) && Emptied(ids, m).mgr.table == []
    ensures Emptied(ids, m).mgr.ix == EMPTY_INDEX <==>
            && (forall s :: Has(m.ix, s) ==> Covered(ids, Live(m), s))
            && (forall k :: k in m.ix.keys ==> KeyCovered(ids, Live(m), k))
  {
    var n := |m.table|;
    DestroyFirstIs(ids, m, n);
    assert m.table[..n] == m.table && LiveFirst(m, n) == Live(m);
    var d := DestroyFirst(ids, m, n).mgr.ix;
    if (forall s :: !Has(d, s)) && (forall k :: k !in d.keys) {
      SameIndex(d, EMPTY_INDEX.(keys := d.keys));
      assert d.keys == map[];
    }
  }

  /** A sound manager is emptied completely. */
  lemma {:induction false} InvMeansEmptied(ids: Records, m: Mgr)
    requires Inv(ids, m)
    ensures Emptied(ids, m) == Outcome(ids - Live(m), EMPTY_MGR, Success)
  {
    EmptiedIff(ids, m);
    forall s | Has(m.ix, s) ensures Covered(ids, Live(m), s) {
      AttemptedIsRemoved(ids[Owner(m.ix, s)]);
    }
    assert forall k :: k in m.ix.keys ==> KeyCovered(ids, Live(m), k);
  }
}
