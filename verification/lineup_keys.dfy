/** Addresses and ports that channels of a lineup have in common. */
module LineupKeys {
  import opened ChannelMap
  import opened Channels
  import opened Registration
  import opened RegisteredKeys
  import opened SlotLists
  import opened ManagerSpec
  import opened LineupSpec

  /** The channels have an address and port in common in one of the maps. */
  ghost predicate Clash(a: ChannelCfg, b: ChannelCfg) {
    (exists k :: StreamKey(a, k) && StreamKey(b, k)) || (exists k :: FeedbackKey(a, k) && FeedbackKey(b, k))
  }

  lemma {:induction false} ClashIff(a: ChannelCfg, b: ChannelCfg)
    ensures Disjoint(Attempted(a), Attempted(b)) <==> !Clash(a, b)
  {
    forall s
      ensures s in Attempted(a) <==> (match s case Chan(k) => StreamKey(a, k) case Fbt(k) => FeedbackKey(a, k))
      ensures s in Attempted(b) <==> (match s case Chan(k) => StreamKey(b, k) case Fbt(k) => FeedbackKey(b, k))
    {
      AttemptedByField(a, s);
      AttemptedByField(b, s);
    }
    if k :| StreamKey(a, k) && StreamKey(b, k) {
      assert Chan(k) in Attempted(a) && Chan(k) in Attempted(b);
    }
    if k :| FeedbackKey(a, k) && FeedbackKey(b, k) {
      assert Fbt(k) in Attempted(a) && Fbt(k) in Attempted(b);
    }
  }

  /**
   A load with two valid channels that clash is rejected. In an accepted one each address and port of a
   channel, those of a second FEC stream included, leads to that channel and to no other.
   */
  lemma {:induction false} LineupByField(ids: Records, items: seq<Item>, hs: seq<Handle>, i: nat, j: nat)
    requires |hs| == |items| && Supplied(ids, items, hs) && ProperItems(items) && AllValid(items)
    requires i < j < |items|
    ensures var l, a, b := LoadAll(ids, items, hs), ChannelsOf(items)[i], ChannelsOf(items)[j];
            && (Clash(a, b) ==> !Accepted(l))
            && (Accepted(l) ==>
                && !Clash(a, b) && j < |l.mgr.table|
                && LookedUp(l.mgr.ix, a, l.mgr.table[i]) && LookedUp(l.mgr.ix, b, l.mgr.table[j]))
  {
    AcceptedIff(ids, items, hs);
    var l, cs := LoadAll(ids, items, hs), ChannelsOf(items);
    ClashIff(cs[i], cs[j]);
    if Accepted(l) {
      CarriedByField(l.ids, l.mgr, cs, i);
      CarriedByField(l.ids, l.mgr, cs, j);
    }
  }

  /** Every address and port of the channel leads to h. */
  ghost predicate LookedUp(ix: Index, c: ChannelCfg, h: Handle) {
    && (forall k :: StreamKey(c, k) ==> k in ix.chan && ix.chan[k] == h)
    && (forall k :: FeedbackKey(c, k) ==> k in ix.fbt && ix.fbt[k] == h)
  }

  lemma {:induction false} CarriedByField(ids: Records, m: Mgr, cs: seq<ChannelCfg>, i: nat)
    requires Carries(ids, m, cs) && i < |cs|
    ensures LookedUp(m.ix, cs[i], m.table[i])
  {
    LedByField(m.table, m.ix, ListsOf(cs), cs[i], i);
  }

  lemma {:induction false} LedByField(table: seq<Handle>, ix: Index, lists: seq<seq<Slot>>, c: ChannelCfg, i: nat)
    requires Leads(table, ix, lists) && i < |lists| && lists[i] == Attempted(c)
    ensures LookedUp(ix, c, table[i])
  {
    forall k | StreamKey(c, k) ensures k in ix.chan && ix.chan[k] == table[i] {
      AttemptedByField(c, Chan(k));
      LeadsAt(table, ix, lists, i, Chan(k));
    }
    forall k | FeedbackKey(c, k) ensures k in ix.fbt && ix.fbt[k] == table[i] {
      AttemptedByField(c, Fbt(k));
      LeadsAt(table, ix, lists, i, Fbt(k));
    }
  }
}
