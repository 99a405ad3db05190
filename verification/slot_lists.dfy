/**
 Which keys lead to which handle, for a list of channels reduced to the keys they claim.
 */
module SlotLists {
  import opened ChannelMap
  import opened Channels
  import opened Registration

  /** The keys of each channel. */
  ghost function ListsOf(cs: seq<ChannelCfg>): (lists: seq<seq<Slot>>)
    ensures |lists| == |cs|
    ensures forall i :: 0 <= i < |cs| ==> lists[i] == Attempted(cs[i])
  {
    seq(|cs|, i requires 0 <= i < |cs| => Attempted(cs[i]))
  }

  lemma {:induction false} ListsOfSnoc(cs: seq<ChannelCfg>, c: ChannelCfg)
    ensures ListsOf(cs + [c]) == ListsOf(cs) + [Attempted(c)]
  {
  }

  ghost predicate Disjoint(a: seq<Slot>, b: seq<Slot>) {
    forall s :: s in a ==> s !in b
  }

  /** Each claimed key leads to its claimant. */
  ghost predicate Leads(table: seq<Handle>, ix: Index, lists: seq<seq<Slot>>) {
    && |table| == |lists|
    && forall i, s :: 0 <= i < |lists| && s in lists[i] ==> Has(ix, s) && Owner(ix, s) == table[i]
  }

  lemma {:induction false} LeadsAt(table: seq<Handle>, ix: Index, lists: seq<seq<Slot>>, i: nat, s: Slot)
    requires Leads(table, ix, lists) && i < |lists| && s in lists[i]
    ensures Has(ix, s) && Owner(ix, s) == table[i]
  {
  }

  /** Every entry is claimed. */
  ghost predicate Claimed(ix: Index, lists: seq<seq<Slot>>) {
    forall s :: Has(ix, s) ==> exists i :: 0 <= i < |lists| && s in lists[i]
  }

  lemma {:induction false} FreeIff(table: seq<Handle>, ix: Index, lists: seq<seq<Slot>>, a: seq<Slot>)
    requires Leads(table, ix, lists) && Claimed(ix, lists)
    ensures (forall s :: s in a ==> !Has(ix, s)) <==> forall i :: 0 <= i < |lists| ==> Disjoint(lists[i], a)
  {
    if forall i :: 0 <= i < |lists| ==> Disjoint(lists[i], a) {
      forall s | s in a ensures !Has(ix, s) {
      }
    }
  }

  lemma {:induction false} LeadsOneMore(table: seq<Handle>, ix: Index, lists: seq<seq<Slot>>, a: seq<Slot>,
                                        h: Handle, ix': Index)
    requires Leads(table, ix, lists) && forall s :: s in a ==> !Has(ix, s)
    requires forall x :: Has(ix', x) <==> Has(ix, x) || x in a
    requires forall x :: Has(ix', x) ==> Owner(ix', x) == if x in a then h else Owner(ix, x)
    ensures Leads(table + [h], ix', lists + [a])
  {
    var lists', table' := lists + [a], table + [h];
    forall i, s | 0 <= i < |lists'| && s in lists'[i] ensures Has(ix', s) && Owner(ix', s) == table'[i] {
      if i < |lists| {
        assert s in lists[i] && Has(ix, s);
      }
    }
  }
}
