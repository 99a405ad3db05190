/**
 The channel manager of cfg/cfg_channel.c as an object: an array of handles, two hash-chained maps and the
 session-key table, over a record table it shares with another manager. Each method is proved to compute
 its counterpart in Registration or ManagerSpec.
 */
module ChannelManager {
  import opened Sequences
  import opened Options
  import opened ChannelMap
  import opened Channels
  import opened Registration
  import opened RegisteredKeys
  import opened ManagerSpec
  import opened InsertedRecords

  /** The id manager: from handles to channel records. */
  class IdTable {
    var records: Records

    constructor ()
      ensures records == map[]
    {
      records := map[];
    }
  }

  class ChannelMgr {
    var totalNumChannels: nat
    const handles: array<Handle>
    var sessionKeys: map<string, Handle>
    const channelMap: ChannelMapDb
    const fbtMap: ChannelMapDb
    const ids: IdTable

    /** The objects of the two maps. */
    ghost function Maps(): set<object>
      reads channelMap, fbtMap
    {
      {channelMap, channelMap.heads, fbtMap, fbtMap.heads} + channelMap.nodes + fbtMap.nodes
    }

    /** Everything this manager may change, apart from the record table. */
    ghost function Objects(): set<object>
      reads channelMap, fbtMap
    {
      {this, handles} + Maps()
    }

    ghost predicate Valid()
      reads this, Maps()
    {
      && handles.Length == MAX_CHANNELS && totalNumChannels <= MAX_CHANNELS
      && channelMap != fbtMap && channelMap.heads != fbtMap.heads && channelMap.nodes !! fbtMap.nodes
      && channelMap.Valid() && fbtMap.Valid()
    }

    ghost function Ix(): Index
      reads this, channelMap, fbtMap
    {
      Index(channelMap.entries, fbtMap.entries, sessionKeys)
    }

    ghost function View(): Mgr
      requires totalNumChannels <= handles.Length
      reads this, handles, channelMap, fbtMap
    {
      Mgr(handles[..totalNumChannels], Ix())
    }

    constructor (ids: IdTable)
      ensures Valid() && View() == EMPTY_MGR && this.ids == ids
      ensures fresh(Objects())
    {
      totalNumChannels := 0;
      handles := new Handle[MAX_CHANNELS](_ => ILLEGAL_ID);
      sessionKeys := map[];
      channelMap := new ChannelMapDb();
      fbtMap := new ChannelMapDb();
      this.ids := ids;
    }

    // ----- registration -----

    /** One channel_add_map of cfg_channel_add_map, unless the key does not apply. */
    method TrySlot(applies: bool, s: Slot, h: Handle) returns (ok: bool)
      requires Valid()
      modifies Maps()
      ensures Valid() && fresh(channelMap.nodes - old(channelMap.nodes)) && fresh(fbtMap.nodes - old(fbtMap.nodes))
      ensures (Ix(), ok) == TryAll(old(Ix()), When(applies, s), h)
    {
      TryOne(Ix(), s, h);
      ok := true;
      if applies {
        match s
        case Chan(k) => ok := channelMap.Add(k, h);
        case Fbt(k) => ok := fbtMap.Add(k, h);
      }
    }

    /** A slot and then another one, if it applies. */
    method TryTwo(s: Slot, applies: bool, t: Slot, h: Handle) returns (ok: bool)
      requires Valid()
      modifies Maps()
      ensures Valid() && fresh(channelMap.nodes - old(channelMap.nodes)) && fresh(fbtMap.nodes - old(fbtMap.nodes))
      ensures (Ix(), ok) == TryAll(old(Ix()), [s] + When(applies, t), h)
    {
      TryAllAppend(Ix(), When(true, s), When(applies, t), h);
      ok := TrySlot(true, s, h);
      if ok {
        ok := TrySlot(applies, t, h);
      }
    }

    /** The feedback target with the RTCP port, the retransmission RTP port and the retransmission RTCP port. */
    method TryFbt(c: ChannelCfg, h: Handle) returns (ok: bool)
      requires Valid()
      modifies Maps()
      ensures Valid() && fresh(channelMap.nodes - old(channelMap.nodes)) && fresh(fbtMap.nodes - old(fbtMap.nodes))
      ensures (Ix(), ok) == TryAll(old(Ix()), FbtSlots(c), h)
    {
      if !UsesRtx(c.mode) {
        return true;
      }
      var a, b := Fbt(Key(c.fbtAddr, FbtRtcpPort(c))), Fbt(Key(c.fbtAddr, c.rtx.rtpPort));
      var d := Fbt(Key(c.fbtAddr, c.rtx.rtcpPort));
      var applies := c.rtx.rtpPort != c.orig.rtcpPort;
      TryAllAppend(Ix(), [a] + When(applies, b), When(true, d), h);
      ok := TryTwo(a, applies, b, h);
      if ok {
        ok := TrySlot(true, d, h);
      }
    }

    /** The FEC streams in use, each with its RTP port and, if set, its RTCP port. */
    method TryFec(c: ChannelCfg, h: Handle) returns (ok: bool)
      requires Valid()
      modifies Maps()
      ensures Valid() && fresh(channelMap.nodes - old(channelMap.nodes)) && fresh(fbtMap.nodes - old(fbtMap.nodes))
      ensures (Ix(), ok) == TryAll(old(Ix()), FecSlots(c), h)
    {
      if !c.fecEnable {
        return true;
      }
      ghost var first := StreamSlots(c.fec1.addr, c.fec1.rtpPort, c.fec1.rtcpPort);
      ghost var second := if c.fecMode == Fec2D then StreamSlots(c.fec2.addr, c.fec2.rtpPort, c.fec2.rtcpPort) else [];
      TryAllAppend(Ix(), first, second, h);
      ok := TryTwo(Chan(Key(c.fec1.addr, c.fec1.rtpPort)),
                   c.fec1.rtcpPort != 0, Chan(Key(c.fec1.addr, c.fec1.rtcpPort)), h);
      if ok && c.fecMode == Fec2D {
        ok := TryTwo(Chan(Key(c.fec2.addr, c.fec2.rtpPort)),
                     c.fec2.rtcpPort != 0, Chan(Key(c.fec2.addr, c.fec2.rtcpPort)), h);
      }
    }

    /** All keys after the original RTP one. */
    method TryOthers(c: ChannelCfg, h: Handle) returns (ok: bool)
      requires Valid()
      modifies Maps()
      ensures Valid() && fresh(channelMap.nodes - old(channelMap.nodes)) && fresh(fbtMap.nodes - old(fbtMap.nodes))
      ensures (Ix(), ok) == TryAll(old(Ix()), Attempted(c)[1..], h)
    {
      var rtcp := Chan(Key(c.orig.addr, c.orig.rtcpPort));
      OthersInTurn(Ix(), c, h);
      ok := TrySlot(c.orig.rtcpPort != 0, rtcp, h);
      if ok {
        ok := TryFbt(c, h);
        if ok {
          ok := TryFec(c, h);
        }
      }
    }

    /** cfg_channel_add_map. */
    method AddMap(c: ChannelCfg, h: Handle) returns (ok: bool)
      requires Valid()
      modifies this`sessionKeys, Maps()
      ensures Valid() && fresh(channelMap.nodes - old(channelMap.nodes)) && fresh(fbtMap.nodes - old(fbtMap.nodes))
      ensures (Ix(), ok) == Register(old(Ix()), c, h)
      ensures ok ==> LeadsByField(old(Ix()), Ix(), c, h)
    {
      RegisterByField(Ix(), c, h);
      var first := Chan(Key(c.orig.addr, c.orig.port));
      FirstThenOthers(Ix(), c, h);
      ok := TrySlot(true, first, h);
      if !ok {
        return;
      }
      ok := TryOthers(c, h);
      if !ok {
        DelMap(c, h);
        return;
      }
      if c.sessionKey in sessionKeys {
        return false;
      }
      sessionKeys := sessionKeys[c.sessionKey := h];
    }

    /** cfg_channel_del_map. */
    method DelMap(c: ChannelCfg, h: Handle)
      requires Valid()
      modifies this`sessionKeys, Maps()
      ensures Valid() && channelMap.nodes == old(channelMap.nodes) && fbtMap.nodes == old(fbtMap.nodes)
      ensures Ix() == Unregister(old(Ix()), c) && GoneByField(old(Ix()), Ix(), c)
    {
      UnregisterByField(Ix(), c);
      ghost var ix := Ix();
      DropTwo(Chan(Key(c.orig.addr, c.orig.port)), c.orig.rtcpPort != 0, Chan(Key(c.orig.addr, c.orig.rtcpPort)), h);
      DropFbt(c, h);
      DropFec(c, h);
      WithoutTwice(ix, SetOf(OrigSlots(c)), FbtRemoved(c));
      WithoutTwice(ix, SetOf(OrigSlots(c)) + FbtRemoved(c), SetOf(FecSlots(c)));
      sessionKeys := sessionKeys - {c.sessionKey};
    }

    /** One channel_remove_map of cfg_channel_del_map, unless the key does not apply. */
    method DropSlot(applies: bool, s: Slot, h: Handle)
      requires Valid()
      modifies Maps()
      ensures Valid() && channelMap.nodes == old(channelMap.nodes) && fbtMap.nodes == old(fbtMap.nodes)
      ensures Ix() == Without(old(Ix()), SetOf(When(applies, s)))
    {
      if applies {
        assert SetOf(When(applies, s)) == {s};
        WithoutOne(Ix(), s);
        var ok;
        match s
        case Chan(k) => ok := channelMap.Remove(k, h);
        case Fbt(k) => ok := fbtMap.Remove(k, h);
      } else {
        assert SetOf(When(applies, s)) == {};
        WithoutNone(Ix());
      }
    }

    method DropTwo(s: Slot, applies: bool, t: Slot, h: Handle)
      requires Valid()
      modifies Maps()
      ensures Valid() && channelMap.nodes == old(channelMap.nodes) && fbtMap.nodes == old(fbtMap.nodes)
      ensures Ix() == Without(old(Ix()), SetOf([s] + When(applies, t)))
    {
      WithoutTwice(Ix(), SetOf(When(true, s)), SetOf(When(applies, t)));
      assert SetOf(When(true, s)) + SetOf(When(applies, t)) == SetOf([s] + When(applies, t));
      DropSlot(true, s, h);
      DropSlot(applies, t, h);
    }

    method DropFbt(c: ChannelCfg, h: Handle)
      requires Valid()
      modifies Maps()
      ensures Valid() && channelMap.nodes == old(channelMap.nodes) && fbtMap.nodes == old(fbtMap.nodes)
      ensures Ix() == Without(old(Ix()), FbtRemoved(c))
    {
      if !UsesRtx(c.mode) {
        WithoutNone(Ix());
        return;
      }
      var a, b := Fbt(Key(c.fbtAddr, FbtRtcpPort(c))), Fbt(Key(c.fbtAddr, c.rtx.rtpPort));
      var d := Fbt(Key(c.fbtAddr, c.rtx.rtcpPort));
      WithoutTwice(Ix(), SetOf([a] + When(true, b)), SetOf(When(true, d)));
      assert SetOf([a] + When(true, b)) + SetOf(When(true, d)) == FbtRemoved(c);
      DropTwo(a, true, b, h);
      DropSlot(true, d, h);
    }

    method DropFec(c: ChannelCfg, h: Handle)
      requires Valid()
      modifies Maps()
      ensures Valid() && channelMap.nodes == old(channelMap.nodes) && fbtMap.nodes == old(fbtMap.nodes)
      ensures Ix() == Without(old(Ix()), SetOf(FecSlots(c)))
    {
      if !c.fecEnable {
        WithoutNone(Ix());
        return;
      }
      ghost var first := StreamSlots(c.fec1.addr, c.fec1.rtpPort, c.fec1.rtcpPort);
      ghost var second := StreamSlots(c.fec2.addr, c.fec2.rtpPort, c.fec2.rtcpPort);
      WithoutTwice(Ix(), SetOf(first), SetOf(second));
      assert SetOf(first + second) == SetOf(first) + SetOf(second) && first + [] == first;
      DropTwo(Chan(Key(c.fec1.addr, c.fec1.rtpPort)),
              c.fec1.rtcpPort != 0, Chan(Key(c.fec1.addr, c.fec1.rtcpPort)), h);
      if c.fecMode == Fec2D {
        DropTwo(Chan(Key(c.fec2.addr, c.fec2.rtpPort)),
                c.fec2.rtcpPort != 0, Chan(Key(c.fec2.addr, c.fec2.rtcpPort)), h);
      }
    }

    // ----- channels -----

    /** cfg_channel_get: the record of a handle, if it is active. */
    method Get(h: Handle) returns (c: Option<ChannelCfg>)
      ensures c == ActiveRecord(ids.records, h)
    {
      if h == ILLEGAL_ID || h !in ids.records || !ids.records[h].active {
        return None;
      }
      c := Some(ids.records[h]);
    }

    /** cfg_channel_add; h is the handle the id manager gives out. */
    method Add(session: Session, h: Handle) returns (code: Code)
      requires Valid() && Fresh(ids.records, h)
      modifies ids, Objects()
      ensures Valid() && fresh(Objects() - old(Objects()))
      ensures Outcome(ids.records, View(), code) == ManagerSpec.Add(old(ids.records), old(View()), session, h)
    {
      if session.key in sessionKeys {
        return Exist;
      }
      if totalNumChannels >= MAX_CHANNELS {
        return ExceedMax;
      }
      if session.validated.None? {
        return FailedGetInfo;
      }
      var ok := Append(session.validated.value, h);
      code := if ok then Success else FailedAddMap;
    }

    /** A new channel is registered and enters the handle table at its end. */
    method Append(c: ChannelCfg, h: Handle) returns (ok: bool)
      requires Valid() && totalNumChannels < MAX_CHANNELS
      modifies ids, Objects()
      ensures Valid() && fresh(Objects() - old(Objects()))
      ensures ok == Register(old(Ix()), c, h).1
        && ids.records == if ok then old(ids.records)[h := c] else old(ids.records)
      ensures View() == Mgr(if ok then old(View()).table + [h] else old(View()).table, Register(old(Ix()), c, h).0)
    {
      ghost var ix := Register(Ix(), c, h).0;
      ok := AddMap(c, h);
      assert fresh(Objects() - old(Objects())) && Ix() == ix;
      if ok {
        Enter(totalNumChannels, c, h);
      }
    }

    /** A registered channel enters the handle table at position k, which may be its end. */
    method Enter(k: nat, c: ChannelCfg, h: Handle)
      requires Valid() && k <= totalNumChannels && k < MAX_CHANNELS
      modifies this`totalNumChannels, handles, ids
      ensures Valid() && ids.records == old(ids.records)[h := c]
      ensures View() == Mgr(
                     if k < old(totalNumChannels) then old(View()).table[k := h] else old(View()).table + [h],
                     old(Ix()))
    {
      ids.records := ids.records[h := c];
      handles[k] := h;
      if k == totalNumChannels {
        totalNumChannels := totalNumChannels + 1;
      }
      assert handles[..totalNumChannels] ==
             if k < old(totalNumChannels) then old(View()).table[k := h] else old(View()).table + [h];
    }

    /** The first position of h among the handles in use, or their number. */
    method FindHandle(h: Handle) returns (k: nat)
      requires totalNumChannels <= handles.Length
      ensures k == IndexOf(handles[..totalNumChannels], h)
    {
      ghost var t := handles[..totalNumChannels];
      k := 0;
      while k < totalNumChannels && handles[k] != h
        invariant k <= totalNumChannels && k + IndexOf(t[k..], h) == IndexOf(t, h)
      {
        assert t[k..][1..] == t[k + 1..];
        k := k + 1;
      }
    }

    /** cfg_channel_delete with removal from the maps. */
    method Delete(h: Handle) returns (code: Code)
      requires Valid()
      modifies ids, Objects()
      ensures Valid() && channelMap.nodes == old(channelMap.nodes) && fbtMap.nodes == old(fbtMap.nodes)
      ensures totalNumChannels == old(totalNumChannels)
      ensures Outcome(ids.records, View(), code) == ManagerSpec.Delete(old(ids.records), old(View()), h)
    {
      if h !in ids.records {
        return InvalidHandle;
      }
      var c := ids.records[h];
      ghost var t, ix := View().table, Unregister(Ix(), c);
      DelMap(c, h);
      assert View() == Mgr(t, ix);
      Leave(h);
      code := Success;
    }

    /** The record is freed and its position in the handle table becomes a hole. */
    method Leave(h: Handle)
      requires Valid()
      modifies handles, ids
      ensures Valid() && ids.records == old(ids.records) - {h}
      ensures View() == var t, k := old(View()).table, IndexOf(old(View()).table, h);
                        Mgr(if k < |t| then t[k := ILLEGAL_ID] else t, old(Ix()))
    {
      ids.records := ids.records - {h};
      var k := FindHandle(h);
      if k < totalNumChannels {
        handles[k] := ILLEGAL_ID;
      }
      ghost var t := old(View()).table;
      assert handles[..totalNumChannels] == if k < totalNumChannels then t[k := ILLEGAL_ID] else t;
    }

    /** cfg_channel_insert; h is the handle the id manager gives out. */
    method Insert(channel: ChannelCfg, h: Handle) returns (code: Code)
      requires Valid() && Fresh(ids.records, h)
      modifies ids, Objects()
      ensures Valid() && fresh(Objects() - old(Objects()))
      ensures Outcome(ids.records, View(), code) == ManagerSpec.Insert(old(ids.records), old(View()), channel, h)
      ensures code == Success ==> OneRecordMore(old(ids.records), ids.records, h) && Installed(channel, ids.records[h])
    {
      InsertedRecord(ids.records, View(), channel, h);
      var c := Copy(channel);
      ghost var before, ix := Objects(), Register(Ix(), c, h).0;
      var ok := AddMap(c, h);
      assert fresh(Objects() - before) && Ix() == ix;
      if !ok {
        return FailedAddMap;
      }
      code := Place(c, h);
    }

    /** A registered channel takes the first hole or the end of the handle table; a full table undoes it. */
    method Place(c: ChannelCfg, h: Handle) returns (code: Code)
      requires Valid()
      modifies ids, Objects()
      ensures Valid() && Objects() == old(Objects())
      ensures var m, k, ids' := old(View()), IndexOf(old(View()).table, ILLEGAL_ID), old(ids.records)[h := c];
              Outcome(ids.records, View(), code) ==
              if k < |m.table| then Outcome(ids', m.(table := m.table[k := h]), Success)
              else if |m.table| >= MAX_CHANNELS then ManagerSpec.Delete(ids', m, h).(code := ExceedMax)
              else Outcome(ids', m.(table := m.table + [h]), Success)
    {
      var k := FindHandle(ILLEGAL_ID);
      if k == MAX_CHANNELS {
        ids.records := ids.records[h := c];
        var deleted := Delete(h);
        return ExceedMax;
      }
      Enter(k, c, h);
      code := Success;
    }

    /** cfg_channel_destroy_all: deletes what the handle table lists. */
    method DestroyAll()
      requires Valid()
      modifies ids, Objects()
      ensures Valid() && channelMap.nodes == old(channelMap.nodes) && fbtMap.nodes == old(fbtMap.nodes)
      ensures Outcome(ids.records, View(), Success) == Emptied(old(ids.records), old(View()))
    {
      ghost var ids0, m0 := ids.records, View();
      var i := 0;
      while i < totalNumChannels
        invariant 0 <= i <= totalNumChannels == |m0.table|
        invariant Valid() && channelMap.nodes == old(channelMap.nodes) && fbtMap.nodes == old(fbtMap.nodes)
        invariant Outcome(ids.records, View(), Success) == DestroyFirst(ids0, m0, i)
      {
        DestroyAt(i);
        i := i + 1;
      }
      totalNumChannels := 0;
    }

    /** One round of cfg_channel_destroy_all. */
    method DestroyAt(i: nat)
      requires Valid() && i < totalNumChannels
      modifies ids, Objects()
      ensures Valid() && channelMap.nodes == old(channelMap.nodes) && fbtMap.nodes == old(fbtMap.nodes)
      ensures totalNumChannels == old(totalNumChannels)
      ensures Outcome(ids.records, View(), Success) ==
              if old(handles[i]) == ILLEGAL_ID then Outcome(old(ids.records), old(View()), Success)
              else ManagerSpec.Delete(old(ids.records), old(View()), old(handles[i])).(code := Success)
    {
      if handles[i] != ILLEGAL_ID {
        var code := Delete(handles[i]);
      }
    }
  }

  /** The keys after the first, group by group. */
  lemma {:induction false} OthersInTurn(ix: Index, c: ChannelCfg, h: Handle)
    ensures var (ix1, ok1) := TryAll(ix, When(c.orig.rtcpPort != 0, Chan(Key(c.orig.addr, c.orig.rtcpPort))), h);
            var (ix2, ok2) := TryAll(ix1, FbtSlots(c), h);
            TryAll(ix, Attempted(c)[1..], h) ==
            if !ok1 then (ix1, ok1) else if !ok2 then (ix2, ok2) else TryAll(ix2, FecSlots(c), h)
  {
    var first := When(c.orig.rtcpPort != 0, Chan(Key(c.orig.addr, c.orig.rtcpPort)));
    assert Attempted(c)[1..] == first + FbtSlots(c) + FecSlots(c);
    TryAllAppend(ix, first + FbtSlots(c), FecSlots(c), h);
    TryAllAppend(ix, first, FbtSlots(c), h);
  }

  lemma {:induction false} FirstThenOthers(ix: Index, c: ChannelCfg, h: Handle)
    ensures Attempted(c) == When(true, Chan(Key(c.orig.addr, c.orig.port))) + Attempted(c)[1..]
    ensures Attempted(c)[0] == Chan(Key(c.orig.addr, c.orig.port))
    ensures var (ix1, ok1) := TryAll(ix, When(true, Attempted(c)[0]), h);
            && ok1 == Free(ix, Attempted(c)[0])
            && TryAll(ix, Attempted(c), h) == if !ok1 then (ix, ok1) else TryAll(ix1, Attempted(c)[1..], h)
  {
    TryOne(ix, Attempted(c)[0], h);
  }
}
