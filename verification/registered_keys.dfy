/**
 The index keys of a channel field by field: which addresses and ports a registration brings in and a removal
 takes out.
 */
module RegisteredKeys {
  import opened ChannelMap
  import opened Channels
  import opened Registration

  /** A key of the channel map: the original, first FEC or second FEC stream with its RTP port or, if set, RTCP port. */
  predicate StreamKey(c: ChannelCfg, k: Key) {
    || k == Key(c.orig.addr, c.orig.port)
    || (c.orig.rtcpPort != 0 && k == Key(c.orig.addr, c.orig.rtcpPort))
    || (c.fecEnable && k == Key(c.fec1.addr, c.fec1.rtpPort))
    || (c.fecEnable && c.fec1.rtcpPort != 0 && k == Key(c.fec1.addr, c.fec1.rtcpPort))
    || (c.fecEnable && c.fecMode == Fec2D && k == Key(c.fec2.addr, c.fec2.rtpPort))
    || (c.fecEnable && c.fecMode == Fec2D && c.fec2.rtcpPort != 0 && k == Key(c.fec2.addr, c.fec2.rtcpPort))
  }

  /**
   A key of the feedback map: the feedback target with the RTCP port of the stream that is repaired, the
   retransmission RTP port unless it is the original RTCP port, and the retransmission RTCP port.
   */
  predicate FeedbackKey(c: ChannelCfg, k: Key) {
    k.addr == c.fbtAddr &&
    (|| (c.mode == SourceMode && k.port == c.reSourced.rtcpPort)
     || (c.mode == LookasideMode && k.port == c.orig.rtcpPort)
     || (c.mode in {SourceMode, LookasideMode} && c.rtx.rtpPort != c.orig.rtcpPort && k.port == c.rtx.rtpPort)
     || (c.mode in {SourceMode, LookasideMode} && k.port == c.rtx.rtcpPort))
  }

  /** Removal takes the retransmission RTP port out in any case. */
  predicate FeedbackRemoved(c: ChannelCfg, k: Key) {
    FeedbackKey(c, k) || (c.mode in {SourceMode, LookasideMode} && k == Key(c.fbtAddr, c.rtx.rtpPort))
  }

  lemma {:induction false} StreamSlotsHave(a: Addr, rtp: Port, rtcp: Port, s: Slot)
    ensures s in StreamSlots(a, rtp, rtcp) <==>
            s == Chan(Key(a, rtp)) || (rtcp != 0 && s == Chan(Key(a, rtcp)))
  {
    var t := StreamSlots(a, rtp, rtcp);
    assert t[0] == Chan(Key(a, rtp));
    assert rtcp != 0 ==> t[1] == Chan(Key(a, rtcp));
  }

  lemma {:induction false} FbtSlotsHave(c: ChannelCfg, s: Slot)
    ensures s in FbtSlots(c) <==> s.Fbt? && FeedbackKey(c, s.key)
  {
    var t := FbtSlots(c);
    if UsesRtx(c.mode) {
      assert t[0] == Fbt(Key(c.fbtAddr, FbtRtcpPort(c))) && t[|t| - 1] == Fbt(Key(c.fbtAddr, c.rtx.rtcpPort));
      assert c.rtx.rtpPort != c.orig.rtcpPort ==> t[1] == Fbt(Key(c.fbtAddr, c.rtx.rtpPort));
      assert s.Fbt? ==> s == Fbt(Key(s.key.addr, s.key.port));
    }
  }

  /** The keys that registration attempts, by field. */
  lemma {:induction false} AttemptedByField(c: ChannelCfg, s: Slot)
    ensures s in Attempted(c) <==> (match s case Chan(k) => StreamKey(c, k) case Fbt(k) => FeedbackKey(c, k))
  {
    StreamSlotsHave(c.orig.addr, c.orig.port, c.orig.rtcpPort, s);
    StreamSlotsHave(c.fec1.addr, c.fec1.rtpPort, c.fec1.rtcpPort, s);
    StreamSlotsHave(c.fec2.addr, c.fec2.rtpPort, c.fec2.rtcpPort, s);
    FbtSlotsHave(c, s);
    assert s in Attempted(c) <==> s in OrigSlots(c) || s in FbtSlots(c) || s in FecSlots(c);
  }

  lemma {:induction false} RemovedByField(c: ChannelCfg, s: Slot)
    ensures s in Removed(c) <==> (match s case Chan(k) => StreamKey(c, k) case Fbt(k) => FeedbackRemoved(c, k))
  {
    AttemptedByField(c, s);
    AttemptedIsRemoved(c);
    assert s.Fbt? ==> s == Fbt(Key(s.key.addr, s.key.port));
  }

  /** All keys of the channel lead to h in the new index, and everything else is as in the old one. */
  ghost predicate LeadsByField(ix: Index, ix': Index, c: ChannelCfg, h: Handle) {
    && (forall k :: StreamKey(c, k) ==> k in ix'.chan && ix'.chan[k] == h)
    && (forall k :: !StreamKey(c, k) ==> (k in ix'.chan <==> k in ix.chan))
    && (forall k :: !StreamKey(c, k) && k in ix.chan ==> ix'.chan[k] == ix.chan[k])
    && (forall k :: FeedbackKey(c, k) ==> k in ix'.fbt && ix'.fbt[k] == h)
    && (forall k :: !FeedbackKey(c, k) ==> (k in ix'.fbt <==> k in ix.fbt))
    && (forall k :: !FeedbackKey(c, k) && k in ix.fbt ==> ix'.fbt[k] == ix.fbt[k])
  }

  lemma {:induction false} GainedByField(ix: Index, ix': Index, c: ChannelCfg, h: Handle)
    requires forall x :: Has(ix', x) <==> Has(ix, x) || x in Attempted(c)
    requires forall x :: Has(ix', x) ==> Owner(ix', x) == if x in Attempted(c) then h else Owner(ix, x)
    ensures LeadsByField(ix, ix', c, h)
  {
    forall k
      ensures k in ix'.chan <==> k in ix.chan || StreamKey(c, k)
      ensures k in ix'.chan ==> ix'.chan[k] == if StreamKey(c, k) then h else ix.chan[k]
    {
      AttemptedByField(c, Chan(k));
      assert Has(ix', Chan(k)) <==> k in ix'.chan;
    }
    forall k
      ensures k in ix'.fbt <==> k in ix.fbt || FeedbackKey(c, k)
      ensures k in ix'.fbt ==> ix'.fbt[k] == if FeedbackKey(c, k) then h else ix.fbt[k]
    {
      AttemptedByField(c, Fbt(k));
      assert Has(ix', Fbt(k)) <==> k in ix'.fbt;
    }
  }

  /** A key of the channel is taken. */
  ghost predicate Taken(ix: Index, c: ChannelCfg) {
    (exists k :: StreamKey(c, k) && k in ix.chan) || (exists k :: FeedbackKey(c, k) && k in ix.fbt)
  }

  lemma {:induction false} TakenIff(ix: Index, c: ChannelCfg)
    ensures KeysFree(ix, c) <==> !Taken(ix, c)
  {
    forall s ensures s in Attempted(c) <==> (match s case Chan(k) => StreamKey(c, k) case Fbt(k) => FeedbackKey(c, k)) {
      AttemptedByField(c, s);
    }
    if k :| StreamKey(c, k) && k in ix.chan {
      assert Chan(k) in Attempted(c) && Has(ix, Chan(k));
    }
    if k :| FeedbackKey(c, k) && k in ix.fbt {
      assert Fbt(k) in Attempted(c) && Has(ix, Fbt(k));
    }
  }

  /**
   A successful registration makes every address and port of the channel lead to its handle, in the map it
   belongs to, gains its session key, and changes nothing else. None of them was taken before.
   */
  lemma {:induction false} RegisterByField(ix: Index, c: ChannelCfg, h: Handle)
    ensures Register(ix, c, h).1 ==>
            var ix' := Register(ix, c, h).0;
            LeadsByField(ix, ix', c, h) && ix'.keys == ix.keys[c.sessionKey := h] && !Taken(ix, c)
  {
    RegisterSucceedsIff(ix, c, h);
    if Register(ix, c, h).1 {
      GainedByField(ix, Register(ix, c, h).0, c, h);
    }
    TakenIff(ix, c);
  }

  /** A channel one of whose addresses and ports is taken, or whose session key is, is refused. */
  lemma {:induction false} TakenIsRefused(ix: Index, c: ChannelCfg, h: Handle)
    requires Taken(ix, c) || c.sessionKey in ix.keys
    ensures !Register(ix, c, h).1
  {
    RegisterSucceedsIff(ix, c, h);
    TakenIff(ix, c);
  }

  /** The addresses and ports of the channel are gone, whoever owned them, and so is its session key. */
  ghost predicate GoneByField(ix: Index, ix': Index, c: ChannelCfg) {
    && ix'.keys == ix.keys - {c.sessionKey}
    && (forall k :: k in ix'.chan <==> k in ix.chan && !StreamKey(c, k))
    && (forall k :: k in ix'.chan ==> ix'.chan[k] == ix.chan[k])
    && (forall k :: k in ix'.fbt <==> k in ix.fbt && !FeedbackRemoved(c, k))
    && (forall k :: k in ix'.fbt ==> ix'.fbt[k] == ix.fbt[k])
  }

  lemma {:induction false} UnregisterByField(ix: Index, c: ChannelCfg)
    ensures GoneByField(ix, Unregister(ix, c), c)
  {
    var ix' := Unregister(ix, c);
    forall k
      ensures k in ix'.chan <==> k in ix.chan && !StreamKey(c, k)
      ensures k in ix'.chan ==> ix'.chan[k] == ix.chan[k]
    {
      RemovedByField(c, Chan(k));
      UnregisterHas(ix, c, Chan(k));
      assert Has(ix', Chan(k)) <==> k in ix'.chan;
    }
    forall k
      ensures k in ix'.fbt <==> k in ix.fbt && !FeedbackRemoved(c, k)
      ensures k in ix'.fbt ==> ix'.fbt[k] == ix.fbt[k]
    {
      RemovedByField(c, Fbt(k));
      UnregisterHas(ix, c, Fbt(k));
      assert Has(ix', Fbt(k)) <==> k in ix'.fbt;
    }
  }

  // ----- a channel's own keys -----

  lemma {:induction false} FbtInOrder(c: ChannelCfg)
    ensures FbtSlots(c) ==
            When(c.mode == SourceMode, Fbt(Key(c.fbtAddr, c.reSourced.rtcpPort)))
            + When(c.mode == LookasideMode, Fbt(Key(c.fbtAddr, c.orig.rtcpPort)))
            + When(c.mode in {SourceMode, LookasideMode} && c.rtx.rtpPort != c.orig.rtcpPort,
                   Fbt(Key(c.fbtAddr, c.rtx.rtpPort)))
            + When(c.mode in {SourceMode, LookasideMode}, Fbt(Key(c.fbtAddr, c.rtx.rtcpPort)))
  {
  }

  lemma {:induction false} FecInOrder(c: ChannelCfg)
    ensures FecSlots(c) ==
            When(c.fecEnable, Chan(Key(c.fec1.addr, c.fec1.rtpPort)))
            + When(c.fecEnable && c.fec1.rtcpPort != 0, Chan(Key(c.fec1.addr, c.fec1.rtcpPort)))
            + (When(c.fecEnable && c.fecMode == Fec2D, Chan(Key(c.fec2.addr, c.fec2.rtpPort)))
               + When(c.fecEnable && c.fecMode == Fec2D && c.fec2.rtcpPort != 0,
                      Chan(Key(c.fec2.addr, c.fec2.rtcpPort))))
  {
  }

  /** The keys in the order in which they are tried, field by field. */
  lemma {:induction false} AttemptedInOrder(c: ChannelCfg)
    ensures Attempted(c) ==
            [Chan(Key(c.orig.addr, c.orig.port))]
            + When(c.orig.rtcpPort != 0, Chan(Key(c.orig.addr, c.orig.rtcpPort)))
            + (When(c.mode == SourceMode, Fbt(Key(c.fbtAddr, c.reSourced.rtcpPort)))
               + When(c.mode == LookasideMode, Fbt(Key(c.fbtAddr, c.orig.rtcpPort)))
               + When(c.mode in {SourceMode, LookasideMode} && c.rtx.rtpPort != c.orig.rtcpPort,
                      Fbt(Key(c.fbtAddr, c.rtx.rtpPort)))
               + When(c.mode in {SourceMode, LookasideMode}, Fbt(Key(c.fbtAddr, c.rtx.rtcpPort))))
            + (When(c.fecEnable, Chan(Key(c.fec1.addr, c.fec1.rtpPort)))
               + When(c.fecEnable && c.fec1.rtcpPort != 0, Chan(Key(c.fec1.addr, c.fec1.rtcpPort)))
               + (When(c.fecEnable && c.fecMode == Fec2D, Chan(Key(c.fec2.addr, c.fec2.rtpPort)))
                  + When(c.fecEnable && c.fecMode == Fec2D && c.fec2.rtcpPort != 0,
                         Chan(Key(c.fec2.addr, c.fec2.rtcpPort)))))
  {
    FbtInOrder(c);
    FecInOrder(c);
  }
}
