/**
 Registering a channel under all its keys (cfg_channel_add_map) and taking it out again
 (cfg_channel_del_map), on the values of the two maps and the session-key table: when registration
 succeeds, what it leaves behind when it does not, and when that is a true rollback.
 */
module Registration {
  import opened ChannelMap
  import opened Channels

  /** channel_map, fbt_map and session_keys of a manager. */
  datatype Index = Index(chan: map<Key, Handle>, fbt: map<Key, Handle>, keys: map<string, Handle>)

  const EMPTY_INDEX := Index(map[], map[], map[])

  predicate Has(ix: Index, s: Slot) {
    match s case Chan(k) => k in ix.chan case Fbt(k) => k in ix.fbt
  }

  function Owner(ix: Index, s: Slot): Handle
    requires Has(ix, s)
  {
    match s case Chan(k) => ix.chan[k] case Fbt(k) => ix.fbt[k]
  }

  function Put(ix: Index, s: Slot, h: Handle): Index {
    match s case Chan(k) => ix.(chan := ix.chan[k := h]) case Fbt(k) => ix.(fbt := ix.fbt[k := h])
  }

  function ChanKeys(slots: set<Slot>): set<Key> { set s | s in slots && s.Chan? :: s.key }
  function FbtKeys(slots: set<Slot>): set<Key> { set s | s in slots && s.Fbt? :: s.key }

  function Without(ix: Index, slots: set<Slot>): Index {
    Index(ix.chan - ChanKeys(slots), ix.fbt - FbtKeys(slots), ix.keys)
  }

  /** Two indexes with the same places and owners and the same session keys are the same. */
  lemma {:induction false} SameIndex(a: Index, b: Index)
    requires a.keys == b.keys
    requires forall s :: Has(a, s) <==> Has(b, s)
    requires forall s :: Has(a, s) && Has(b, s) ==> Owner(a, s) == Owner(b, s)
    ensures a == b
  {
    forall k ensures k in a.chan <==> k in b.chan {
      assert Has(a, Chan(k)) <==> Has(b, Chan(k));
    }
    forall k ensures k in a.fbt <==> k in b.fbt {
      assert Has(a, Fbt(k)) <==> Has(b, Fbt(k));
    }
    forall k | k in a.chan ensures a.chan[k] == b.chan[k] {
      assert Owner(a, Chan(k)) == Owner(b, Chan(k));
    }
    forall k | k in a.fbt ensures a.fbt[k] == b.fbt[k] {
      assert Owner(a, Fbt(k)) == Owner(b, Fbt(k));
    }
    assert a.chan == b.chan && a.fbt == b.fbt;
  }

  lemma {:induction false} WithoutHas(ix: Index, slots: set<Slot>, s: Slot)
    ensures Has(Without(ix, slots), s) <==> Has(ix, s) && s !in slots
    ensures Has(Without(ix, slots), s) ==> Owner(Without(ix, slots), s) == Owner(ix, s)
  {
    assert s.Chan? ==> (s.key in ChanKeys(slots) <==> s in slots) by {
      if s.Chan? && s.key in ChanKeys(slots) {
        assert s == Chan(s.key);
      }
    }
    assert s.Fbt? ==> (s.key in FbtKeys(slots) <==> s in slots) by {
      if s.Fbt? && s.key in FbtKeys(slots) {
        assert s == Fbt(s.key);
      }
    }
  }

  lemma {:induction false} WithoutTwice(ix: Index, a: set<Slot>, b: set<Slot>)
    ensures Without(Without(ix, a), b) == Without(ix, a + b)
  {
    assert ChanKeys(a + b) == ChanKeys(a) + ChanKeys(b);
    assert FbtKeys(a + b) == FbtKeys(a) + FbtKeys(b);
  }

  lemma {:induction false} WithoutNone(ix: Index)
    ensures Without(ix, {}) == ix
  {
  }

  lemma {:induction false} WithoutOne(ix: Index, s: Slot)
    ensures Without(ix, {s}) ==
            match s case Chan(k) => ix.(chan := ix.chan - {k}) case Fbt(k) => ix.(fbt := ix.fbt - {k})
  {
    assert ChanKeys({s}) == if s.Chan? then {s.key} else {};
    assert FbtKeys({s}) == if s.Fbt? then {s.key} else {};
  }

  /** channel_add_map on a slot: the port is set and the key is free. */
  predicate Free(ix: Index, s: Slot) { s.key.port != 0 && !Has(ix, s) }

  /** Adds slots in order up to the first that is not free. */
  function TryAll(ix: Index, slots: seq<Slot>, h: Handle): (Index, bool)
    decreases |slots|
  {
    if slots == [] then (ix, true)
    else if Free(ix, slots[0]) then TryAll(Put(ix, slots[0], h), slots[1..], h)
    else (ix, false)
  }

  /** Adding two runs of slots is adding the second after the first. */
  lemma {:induction false} TryAllAppend(ix: Index, a: seq<Slot>, b: seq<Slot>, h: Handle)
    ensures TryAll(ix, a + b, h) == if TryAll(ix, a, h).1 then TryAll(TryAll(ix, a, h).0, b, h) else TryAll(ix, a, h)
    decreases |a|
  {
    if a == [] {
      assert a + b == b;
    } else {
      assert (a + b)[1..] == a[1..] + b;
      if Free(ix, a[0]) {
        TryAllAppend(Put(ix, a[0], h), a[1..], b, h);
      }
    }
  }

  /** Adding one slot. */
  lemma {:induction false} TryOne(ix: Index, s: Slot, h: Handle)
    ensures TryAll(ix, [s], h) == if Free(ix, s) then (Put(ix, s, h), true) else (ix, false)
  {
    assert [s][1..] == [];
  }

  /** cfg_channel_del_map. */
  function Unregister(ix: Index, c: ChannelCfg): Index {
    Without(ix, Removed(c)).(keys := ix.keys - {c.sessionKey})
  }

  /**
   cfg_channel_add_map: a conflict on the first key just fails; a later one unregisters the channel; a
   duplicate session key fails with the map keys left in.
   */
  function Register(ix: Index, c: ChannelCfg, h: Handle): (Index, bool) {
    var (ix', ok) := TryAll(ix, Attempted(c), h);
    if !ok then (if Free(ix, Attempted(c)[0]) then Unregister(ix', c) else ix, false)
    else if c.sessionKey in ix'.keys then (ix', false)
    else (ix'.(keys := ix'.keys[c.sessionKey := h]), true)
  }

  // ----- what registration achieves -----

  ghost predicate NoRepeat(slots: seq<Slot>) {
    forall i, j :: 0 <= i < j < |slots| ==> slots[i] != slots[j]
  }

  /** Keys that can be registered together in an empty index: ports set and mutually distinct. */
  ghost predicate KeysUsable(slots: seq<Slot>) { (forall s :: s in slots ==> s.key.port != 0) && NoRepeat(slots) }

  ghost predicate OwnKeysOk(c: ChannelCfg) { KeysUsable(Attempted(c)) }

  /** No key of the channel is taken. */
  ghost predicate KeysFree(ix: Index, c: ChannelCfg) {
    forall s :: s in Attempted(c) ==> !Has(ix, s)
  }

  lemma {:induction false} PutHas(ix: Index, s: Slot, h: Handle, x: Slot)
    ensures Has(Put(ix, s, h), x) <==> x == s || Has(ix, x)
    ensures Has(Put(ix, s, h), x) ==> Owner(Put(ix, s, h), x) == if x == s then h else Owner(ix, x)
  {
  }

  /** How a run of additions ends: it adds a prefix of the slots, all of them exactly when all are usable. */
  lemma {:induction false} TryAllEffect(ix: Index, slots: seq<Slot>, h: Handle)
    ensures var (ix', ok) := TryAll(ix, slots, h);
            && ix'.keys == ix.keys
            && (ok <==> (forall s :: s in slots ==> Free(ix, s)) && NoRepeat(slots))
            && (forall x :: Has(ix, x) ==> Has(ix', x) && Owner(ix', x) == Owner(ix, x))
            && (forall x :: Has(ix', x) && !Has(ix, x) ==> x in slots && Owner(ix', x) == h)
            && (ok ==> forall x :: x in slots ==> Has(ix', x) && Owner(ix', x) == h)
    decreases |slots|
  {
    if slots != [] {
      var s, t := slots[0], slots[1..];
      assert slots == [s] + t;
      if Free(ix, s) {
        var ix1 := Put(ix, s, h);
        TryAllEffect(ix1, t, h);
        forall x
          ensures Has(ix1, x) <==> x == s || Has(ix, x)
          ensures Has(ix1, x) ==> Owner(ix1, x) == if x == s then h else Owner(ix, x)
          ensures Free(ix1, x) <==> Free(ix, x) && x != s
        {
          PutHas(ix, s, h, x);
        }
        NoRepeatCons(s, t);
        assert (forall x :: x in slots ==> Free(ix, x)) && s !in t <==> forall x :: x in t ==> Free(ix1, x);
      } else {
        assert slots[0] in slots;
      }
    }
  }

  lemma {:induction false} NoRepeatCons(s: Slot, t: seq<Slot>)
    ensures NoRepeat([s] + t) <==> s !in t && NoRepeat(t)
  {
    var u := [s] + t;
    assert forall i :: 0 <= i < |t| ==> t[i] == u[i + 1];
    if NoRepeat(u) {
      forall i | 0 <= i < |t| ensures t[i] != s {
        assert u[0] != u[i + 1];
      }
    }
    if s !in t && NoRepeat(t) {
      forall i, j | 0 <= i < j < |u| ensures u[i] != u[j] {
        assert u[j] == t[j - 1];
      }
    }
  }

  /**
   Registration succeeds exactly when the attempted keys have their ports set, are mutually distinct and
   absent from the maps, and the session key is new. Then the index gains those keys for this channel and
   nothing else changes.
   */
  lemma {:induction false} RegisterSucceedsIff(ix: Index, c: ChannelCfg, h: Handle)
    ensures Register(ix, c, h).1 <==> OwnKeysOk(c) && KeysFree(ix, c) && c.sessionKey !in ix.keys
    ensures Register(ix, c, h).1 ==> Gained(ix, Register(ix, c, h).0, c, h)
  {
    TryAllEffect(ix, Attempted(c), h);
  }

  ghost predicate Gained(ix: Index, ix': Index, c: ChannelCfg, h: Handle) {
    && ix'.keys == ix.keys[c.sessionKey := h]
    && (forall x :: Has(ix', x) <==> Has(ix, x) || x in Attempted(c))
    && (forall x :: Has(ix', x) ==> Owner(ix', x) == if x in Attempted(c) then h else Owner(ix, x))
  }

  /** A partial registration followed by removal is removal alone. */
  lemma {:induction false} PartialThenUnregister(ix: Index, c: ChannelCfg, h: Handle)
    ensures Unregister(TryAll(ix, Attempted(c), h).0, c) == Unregister(ix, c)
  {
    var ix' := TryAll(ix, Attempted(c), h).0;
    TryAllEffect(ix, Attempted(c), h);
    AttemptedIsRemoved(c);
    var a, b := Unregister(ix', c), Unregister(ix, c);
    forall s
      ensures Has(a, s) <==> Has(b, s)
      ensures Has(a, s) && Has(b, s) ==> Owner(a, s) == Owner(b, s)
    {
      UnregisterHas(ix', c, s);
      UnregisterHas(ix, c, s);
    }
    SameIndex(a, b);
  }

  lemma {:induction false} UnregisterHas(ix: Index, c: ChannelCfg, s: Slot)
    ensures Has(Unregister(ix, c), s) <==> Has(ix, s) && s !in Removed(c)
    ensures Has(Unregister(ix, c), s) ==> Owner(Unregister(ix, c), s) == Owner(ix, s)
  {
    WithoutHas(ix, Removed(c), s);
  }

  /** The index has gained the attempted keys for the handle h, but no session key. */
  ghost predicate Stranded(ix: Index, ix': Index, c: ChannelCfg, h: Handle) {
    && ix'.keys == ix.keys
    && (forall x :: Has(ix', x) <==> Has(ix, x) || x in Attempted(c))
    && (forall x :: Has(ix', x) ==> Owner(ix', x) == if x in Attempted(c) then h else Owner(ix, x))
  }

  /**
   What a rejection leaves behind. Nothing changes when the first key is refused. A later refusal takes all
   removal keys of the rejected channel out of the old index, whoever owned them. When only the session key
   is taken, the index keeps every attempted key for the handle of the rejected channel.
   */
  lemma {:induction false} RejectionEffect(ix: Index, c: ChannelCfg, h: Handle)
    requires !Register(ix, c, h).1
    ensures var ix' := Register(ix, c, h).0;
            if !Free(ix, Attempted(c)[0]) then ix' == ix
            else if !(OwnKeysOk(c) && KeysFree(ix, c)) then ix' == Unregister(ix, c)
            else c.sessionKey in ix.keys && Stranded(ix, ix', c, h)
  {
    TryAllEffect(ix, Attempted(c), h);
    PartialThenUnregister(ix, c, h);
    OriginalFirst(c);
  }

  /** Removal changes nothing exactly when none of the removal keys, nor the session key, was there. */
  lemma {:induction false} UnregisterIsNoOpIff(ix: Index, c: ChannelCfg)
    ensures Unregister(ix, c) == ix <==> (forall s :: s in Removed(c) ==> !Has(ix, s)) && c.sessionKey !in ix.keys
  {
    var u := Unregister(ix, c);
    forall s ensures Has(u, s) <==> Has(ix, s) && s !in Removed(c) {
      UnregisterHas(ix, c, s);
    }
    if (forall s :: s in Removed(c) ==> !Has(ix, s)) && c.sessionKey !in ix.keys {
      forall s | Has(u, s) ensures Owner(u, s) == Owner(ix, s) {
        UnregisterHas(ix, c, s);
      }
      SameIndex(u, ix);
    }
  }

  /**
   A rejection is a true rollback exactly when the first key is refused, or a later key is and neither a
   removal key nor the session key was owned before.
   */
  lemma {:induction false} TrueRollbackIff(ix: Index, c: ChannelCfg, h: Handle)
    requires !Register(ix, c, h).1
    ensures Register(ix, c, h).0 == ix <==>
            || !Free(ix, Attempted(c)[0])
            || (!(OwnKeysOk(c) && KeysFree(ix, c)) &&
                (forall s :: s in Removed(c) ==> !Has(ix, s)) && c.sessionKey !in ix.keys)
  {
    RejectionEffect(ix, c, h);
    UnregisterIsNoOpIff(ix, c);
    OriginalFirst(c);
  }

  /**
   Hence a rejection past the first key that is due to another channel is never a true rollback: the very
   entry that caused it is deleted from its owner.
   */
  lemma {:induction false} ConflictEvictsOwner(ix: Index, c: ChannelCfg, h: Handle, s: Slot)
    requires Free(ix, Attempted(c)[0]) && s in Attempted(c) && Has(ix, s)
    ensures !Register(ix, c, h).1
    ensures !Has(Register(ix, c, h).0, s) && Register(ix, c, h).0 != ix
  {
    RegisterSucceedsIff(ix, c, h);
    RejectionEffect(ix, c, h);
    AttemptedIsRemoved(c);
    UnregisterHas(ix, c, s);
  }
}
