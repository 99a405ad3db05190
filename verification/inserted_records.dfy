/**
 What additions and insertions leave in the records and the handle table, field by field, and when each of
 their codes is returned.
 */
module InsertedRecords {
  import opened Sequences
  import opened ChannelMap
  import opened Channels
  import opened Registration
  import opened RegisteredKeys
  import opened ManagerSpec

  /** The two records agree in all fields but the use mark and the re-sourced bandwidths. */
  predicate SameContent(c: ChannelCfg, d: ChannelCfg) {
    && d.name == c.name && d.sessionKey == c.sessionKey && d.version == c.version && d.chksum == c.chksum
    && d.active == c.active && d.mode == c.mode && d.role == c.role
    && d.orig == c.orig && d.fbtAddr == c.fbtAddr && d.rtx == c.rtx
    && d.reSourced.addr == c.reSourced.addr && d.reSourced.payloadType == c.reSourced.payloadType
    && d.reSourced.rtpPort == c.reSourced.rtpPort && d.reSourced.rtcpPort == c.reSourced.rtcpPort
    && d.erEnable == c.erEnable && d.fccEnable == c.fccEnable
    && d.fecEnable == c.fecEnable && d.fecMode == c.fecMode && d.fec1 == c.fec1 && d.fec2 == c.fec2
  }

  /** The record that an insertion creates: the content is copied, the other three fields stay cleared. */
  predicate Installed(c: ChannelCfg, d: ChannelCfg) {
    SameContent(c, d) && !d.used && d.reSourced.sndrBw == 0 && d.reSourced.rcvrBw == 0
  }

  /** The handle takes the first hole of the table, or its end if there is none and room for it. */
  ghost predicate Placed(t: seq<Handle>, t': seq<Handle>, h: Handle) {
    if ILLEGAL_ID in t then
      && |t'| == |t|
      && forall i :: 0 <= i < |t| ==> t'[i] == if t[i] == ILLEGAL_ID && ILLEGAL_ID !in t[..i] then h else t[i]
    else |t| < MAX_CHANNELS && t' == t + [h]
  }

  ghost predicate Registrable(ix: Index, c: ChannelCfg) {
    OwnKeysOk(c) && !Taken(ix, c) && c.sessionKey !in ix.keys
  }

  /** A record is new under h; the others are as they were. */
  ghost predicate OneRecordMore(ids: Records, ids': Records, h: Handle) {
    ids'.Keys == ids.Keys + {h} && forall x :: x in ids && x != h ==> ids'[x] == ids[x]
  }

  lemma {:induction false} RegistrableIff(ix: Index, c: ChannelCfg, h: Handle)
    ensures Register(ix, c, h).1 <==> Registrable(ix, c)
  {
    RegisterSucceedsIff(ix, c, h);
    TakenIff(ix, c);
  }

  lemma {:induction false} CopyIsInstalled(c: ChannelCfg)
    ensures Installed(c, Copy(c))
  {
  }

  /** The copy claims what the channel claims. */
  lemma {:induction false} CopyClaimsByField(c: ChannelCfg, ix: Index, ix': Index, h: Handle)
    ensures Registrable(ix, Copy(c)) <==> Registrable(ix, c)
    ensures LeadsByField(ix, ix', Copy(c), h) <==> LeadsByField(ix, ix', c, h)
  {
    var d := Copy(c);
    assert Attempted(d) == Attempted(c);
    assert forall k :: StreamKey(d, k) <==> StreamKey(c, k);
    assert forall k :: FeedbackKey(d, k) <==> FeedbackKey(c, k);
  }

  lemma {:induction false} InsertedRecord(ids: Records, m: Mgr, c: ChannelCfg, h: Handle)
    requires Fresh(ids, h)
    ensures var o := Insert(ids, m, c, h);
            o.code == Success ==> OneRecordMore(ids, o.ids, h) && Installed(c, o.ids[h])
  {
    CopyIsInstalled(c);
  }

  /**
   An insertion succeeds exactly when the channel can be registered and there is a place for it. It then has a
   record with the same content under h, h is in the table, and its addresses and ports lead there. Otherwise
   records and table are as they were.
   */
  lemma {:induction false} InsertByField(ids: Records, m: Mgr, c: ChannelCfg, h: Handle)
    requires Fresh(ids, h)
    ensures var o := Insert(ids, m, c, h);
            && (o.code == Success <==> Registrable(m.ix, c) && (ILLEGAL_ID in m.table || |m.table| < MAX_CHANNELS))
            && (o.code == Success ==>
                && OneRecordMore(ids, o.ids, h) && Installed(c, o.ids[h]) && Placed(m.table, o.mgr.table, h)
                && LeadsByField(m.ix, o.mgr.ix, c, h) && o.mgr.ix.keys == m.ix.keys[c.sessionKey := h])
            && (o.code != Success ==>
                && o.ids == ids && (h !in m.table ==> o.mgr.table == m.table)
                && o.code == if Registrable(m.ix, c) then ExceedMax else FailedAddMap)
  {
    CopyIsRegistered(m.ix, c, h);
    PlaceIs(m.table, h);
    var o := Insert(ids, m, c, h);
    if o.code == Success {
      InsertedRecord(ids, m, c, h);
    } else {
      RefusedInsert(ids, m, c, h);
    }
  }

  lemma {:induction false} RefusedInsert(ids: Records, m: Mgr, c: ChannelCfg, h: Handle)
    requires Fresh(ids, h) && Insert(ids, m, c, h).code != Success
    ensures var o := Insert(ids, m, c, h);
            && o.ids == ids && (h !in m.table ==> o.mgr.table == m.table)
            && o.code == if Register(m.ix, Copy(c), h).1 then ExceedMax else FailedAddMap
  {
    assert ids[h := Copy(c)] - {h} == ids;
  }

  lemma {:induction false} CopyIsRegistered(ix: Index, c: ChannelCfg, h: Handle)
    ensures var (ix', ok) := Register(ix, Copy(c), h);
            && (ok <==> Registrable(ix, c))
            && (ok ==> LeadsByField(ix, ix', c, h) && ix'.keys == ix.keys[c.sessionKey := h])
  {
    CopyClaimsByField(c, ix, Register(ix, Copy(c), h).0, h);
    RegistrableIff(ix, Copy(c), h);
    RegisterByField(ix, Copy(c), h);
  }

  lemma {:induction false} PlaceIs(t: seq<Handle>, h: Handle)
    ensures var k := IndexOf(t, ILLEGAL_ID);
            && (ILLEGAL_ID in t <==> k < |t|)
            && (k < |t| ==> Placed(t, t[k := h], h))
            && (k == |t| && |t| < MAX_CHANNELS ==> Placed(t, t + [h], h))
  {
    FirstPlace(t, ILLEGAL_ID);
  }

  /**
   An addition: the tests in their order with their codes; a new channel is stored as validation gave it, at
   the end of the table, and a refused one leaves records and table alone.
   */
  lemma {:induction false} AddByField(ids: Records, m: Mgr, s: Session, h: Handle)
    requires Fresh(ids, h)
    ensures var o := Add(ids, m, s, h);
            && (o.code == Exist <==> s.key in m.ix.keys)
            && (o.code == ExceedMax <==> s.key !in m.ix.keys && |m.table| >= MAX_CHANNELS)
            && (o.code == FailedGetInfo <==>
                s.key !in m.ix.keys && |m.table| < MAX_CHANNELS && s.validated.None?)
            && (o.code == Success <==>
                && s.key !in m.ix.keys && |m.table| < MAX_CHANNELS
                && s.validated.Some? && Registrable(m.ix, s.validated.value))
            && o.code in {Exist, ExceedMax, FailedGetInfo, FailedAddMap, Success}
            && (o.code == Success ==>
                && OneRecordMore(ids, o.ids, h) && o.ids[h] == s.validated.value && o.mgr.table == m.table + [h]
                && LeadsByField(m.ix, o.mgr.ix, s.validated.value, h)
                && o.mgr.ix.keys == m.ix.keys[s.validated.value.sessionKey := h])
            && (o.code != Success ==> o.ids == ids && o.mgr.table == m.table)
            && (o.code != Success && o.code != FailedAddMap ==> o.mgr == m)
  {
    if s.validated.Some? {
      RegistrableIff(m.ix, s.validated.value, h);
      RegisterByField(m.ix, s.validated.value, h);
    }
  }

  /** A deletion takes out the record, its place in the table, its addresses and ports, and its session key. */
  lemma {:induction false} DeleteByField(ids: Records, m: Mgr, h: Handle)
    ensures var o := Delete(ids, m, h);
            if h !in ids then o == Outcome(ids, m, InvalidHandle)
            else
              && o.code == Success && o.ids == ids - {h} && GoneByField(m.ix, o.mgr.ix, ids[h])
              && |o.mgr.table| == |m.table|
              && (forall i :: 0 <= i < |m.table| ==>
                  o.mgr.table[i] == if m.table[i] == h && h !in m.table[..i] then ILLEGAL_ID else m.table[i])
  {
    if h in ids {
      UnregisterByField(m.ix, ids[h]);
      FirstPlace(m.table, h);
    }
  }

  lemma {:induction false} FirstPlace(t: seq<Handle>, h: Handle)
    ensures forall i :: 0 <= i < |t| ==> ((t[i] == h && h !in t[..i]) <==> i == IndexOf(t, h))
  {
    var k := IndexOf(t, h);
    forall i | 0 <= i < |t| ensures (t[i] == h && h !in t[..i]) <==> i == k {
      if k < i {
        assert t[..i][k] == h;
      }
    }
  }
}
