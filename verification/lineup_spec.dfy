/**
 Loading a whole lineup into an empty manager (the loop of cfg_db_read_channels over its sessions) and
 when cfg_init and cfg_update accept it: the number of sessions read equals the number of channels held.
 */
module LineupSpec {
  import opened ChannelMap
  import opened Channels
  import opened Registration
  import opened ManagerSpec
  import opened SlotLists

  /** One session of the input: the SDP parser refuses it, or it is handed to cfg_channel_add. */
  datatype Item = Unparsed(syntaxError: bool) | Parsed(session: Session)

  ghost predicate ProperItem(it: Item) { it.Parsed? ==> ProperSession(it.session) }

  /** The manager being filled and its counters. */
  datatype Load = Load(
    ids: Records, mgr: Mgr,
    numInput: nat, numParsed: nat, numSyntaxErrors: nat, numValidated: nat)

  function LoadStep(l: Load, it: Item, h: Handle): Load {
    match it
    case Unparsed(syntax) =>
      l.(numInput := l.numInput + 1, numSyntaxErrors := l.numSyntaxErrors + if syntax then 1 else 0)
    case Parsed(s) =>
      var o := Add(l.ids, l.mgr, s, h);
      Load(o.ids, o.mgr, l.numInput + 1, l.numParsed + 1, l.numSyntaxErrors,
           l.numValidated + if o.code == Success then 1 else 0)
  }

  /** The load after all items, the i-th of them using the i-th handle of the id manager. */
  function LoadAll(ids: Records, items: seq<Item>, hs: seq<Handle>): Load
    requires |hs| == |items|
    decreases |items|
  {
    if items == [] then Load(ids, EMPTY_MGR, 0, 0, 0, 0)
    else
      var n := |items| - 1;
      LoadStep(LoadAll(ids, items[..n], hs[..n]), items[n], hs[n])
  }

  /** Each handle is free when it is given out. */
  predicate Supplied(ids: Records, items: seq<Item>, hs: seq<Handle>)
    requires |hs| == |items|
    decreases |items|
  {
    items == [] ||
    var n := |items| - 1;
    Supplied(ids, items[..n], hs[..n]) && Fresh(LoadAll(ids, items[..n], hs[..n]).ids, hs[n])
  }

  /** A number above all members of a set. */
  ghost function Above(s: set<Handle>): (n: Handle)
    ensures forall h :: h in s ==> h < n
  {
    if s == {} then 0
    else
      var h :| h in s;
      var n := Above(s - {h});
      assert forall x :: x in s ==> x == h || x in s - {h};
      if h < n then n else h + 1
  }

  /** The id manager can always give out a handle, so every load has a supply. */
  lemma {:induction false} SupplyExists(ids: Records, items: seq<Item>)
    ensures exists hs: seq<Handle> :: |hs| == |items| && Supplied(ids, items, hs)
    decreases |items|
  {
    if items == [] {
      var none: seq<Handle> := [];
      assert |none| == |items| && Supplied(ids, items, none);
    } else {
      var n := |items| - 1;
      SupplyExists(ids, items[..n]);
      var before: seq<Handle> :| |before| == n && Supplied(ids, items[..n], before);
      var h := Above(LoadAll(ids, items[..n], before).ids.Keys + {ILLEGAL_ID});
      var hs := before + [h];
      assert hs[..n] == before && hs[n] == h;
      assert |hs| == |items| && Supplied(ids, items, hs);
    }
  }

  ghost predicate ProperItems(items: seq<Item>) {
    forall i :: 0 <= i < |items| ==> ProperItem(items[i])
  }

  /** cfg_init and cfg_validate_all: every session made it into the manager. */
  predicate Accepted(l: Load) { l.numInput == |l.mgr.table| }

  // ----- what holds of every load -----

  /** Records outside the manager are those that were there before. */
  ghost predicate Apart(ids: Records, l: Load) {
    && ids.Keys !! Live(l.mgr)
    && l.ids.Keys == ids.Keys + Live(l.mgr)
    && (forall h :: h in ids ==> l.ids[h] == ids[h])
  }

  /** A load of n items so far: the counters add up and the table has no holes. */
  ghost predicate LoadOk(ids: Records, l: Load, n: nat) {
    && Inv(l.ids, l.mgr)
    && Apart(ids, l)
    && |l.mgr.table| == l.numValidated <= l.numParsed <= l.numInput == n
    && ILLEGAL_ID !in l.mgr.table
  }

  lemma {:induction false} LoadStepOk(ids: Records, l: Load, n: nat, it: Item, h: Handle)
    requires LoadOk(ids, l, n) && ProperItem(it) && Fresh(l.ids, h)
    ensures LoadOk(ids, LoadStep(l, it, h), n + 1)
  {
    if it.Parsed? {
      AddKeepsInv(l.ids, l.mgr, it.session, h);
      AddTouches(l.ids, l.mgr, it.session, h);
    }
  }

  /** An addition appends one handle with its record, or leaves table and records alone. */
  lemma {:induction false} AddTouches(ids: Records, m: Mgr, s: Session, h: Handle)
    ensures var o := Add(ids, m, s, h);
            if o.code == Success then
              s.validated.Some? && o.ids == ids[h := s.validated.value] && o.mgr.table == m.table + [h]
            else
              o.ids == ids && o.mgr.table == m.table
  {
  }

  lemma {:induction false} LoadInv(ids: Records, items: seq<Item>, hs: seq<Handle>)
    requires |hs| == |items| && Supplied(ids, items, hs) && ProperItems(items)
    ensures LoadOk(ids, LoadAll(ids, items, hs), |items|)
    decreases |items|
  {
    if items != [] {
      var n := |items| - 1;
      LoadInv(ids, items[..n], hs[..n]);
      LoadStepOk(ids, LoadAll(ids, items[..n], hs[..n]), n, items[n], hs[n]);
    }
  }

  predicate IsParsed(it: Item) { it.Parsed? }
  predicate IsSyntaxError(it: Item) { it.Unparsed? && it.syntaxError }

  /** How many items have a property. */
  ghost function Count(items: seq<Item>, p: Item -> bool): nat {
    |set i | 0 <= i < |items| && p(items[i])|
  }

  lemma {:induction false} CountSnoc(items: seq<Item>, it: Item, p: Item -> bool)
    ensures Count(items + [it], p) == Count(items, p) + if p(it) then 1 else 0
  {
    var t, n := items + [it], |items|;
    var before, after := set i | 0 <= i < n && p(items[i]), set i | 0 <= i < n + 1 && p(t[i]);
    assert after == before + if p(it) then {n} else {};
  }

  /** The counters count the sessions, those that parse, and those with a syntax error. */
  lemma {:induction false} LoadCounts(ids: Records, items: seq<Item>, hs: seq<Handle>)
    requires |hs| == |items|
    ensures var l := LoadAll(ids, items, hs);
            && l.numInput == |items| && l.numParsed == Count(items, IsParsed)
            && l.numSyntaxErrors == Count(items, IsSyntaxError)
    decreases |items|
  {
    if items != [] {
      var n := |items| - 1;
      assert items == items[..n] + [items[n]];
      LoadCounts(ids, items[..n], hs[..n]);
      CountSnoc(items[..n], items[n], IsParsed);
      CountSnoc(items[..n], items[n], IsSyntaxError);
    }
  }

  // ----- what acceptance means -----

  /** Rules 1 to 3 of the uniqueness rules and unique session keys, over a list of channels. */
  ghost predicate Compatible(cs: seq<ChannelCfg>) {
    && (forall i :: 0 <= i < |cs| ==> OwnKeysOk(cs[i]))
    && (forall i, j :: 0 <= i < j < |cs| ==>
        Disjoint(Attempted(cs[i]), Attempted(cs[j])) && cs[i].sessionKey != cs[j].sessionKey)
  }

  /** Every item is a valid channel. */
  ghost predicate AllValid(items: seq<Item>) {
    forall i :: 0 <= i < |items| ==> items[i].Parsed? && items[i].session.validated.Some?
  }

  /** Every item is a valid channel, and the channels can be registered together. */
  ghost predicate Acceptable(items: seq<Item>) {
    AllValid(items) && Compatible(ChannelsOf(items)) && |items| <= MAX_CHANNELS
  }

  ghost function ChannelsOf(items: seq<Item>): (cs: seq<ChannelCfg>)
    requires AllValid(items)
    ensures |cs| == |items|
  {
    seq(|items|, i requires 0 <= i < |items| => items[i].session.validated.value)
  }

  /** The handle table lists these channels in order, without holes. */
  ghost predicate Lists(ids: Records, m: Mgr, cs: seq<ChannelCfg>) {
    && |m.table| == |cs|
    && forall i :: 0 <= i < |cs| ==> m.table[i] != ILLEGAL_ID && m.table[i] in ids && ids[m.table[i]] == cs[i]
  }

  /** The manager carries exactly these channels, and each of their keys leads to its owner. */
  ghost predicate Carries(ids: Records, m: Mgr, cs: seq<ChannelCfg>) {
    Inv(ids, m) && Lists(ids, m, cs) && Leads(m.table, m.ix, ListsOf(cs))
  }

  /** Every index entry and every session key belongs to one of the channels. */
  lemma {:induction false} EntriesBelong(ids: Records, m: Mgr, cs: seq<ChannelCfg>)
    requires Inv(ids, m) && Lists(ids, m, cs)
    ensures Claimed(m.ix, ListsOf(cs))
    ensures forall k :: k in m.ix.keys <==> exists i :: 0 <= i < |cs| && cs[i].sessionKey == k
  {
    var lists := ListsOf(cs);
    forall s | Has(m.ix, s) ensures exists i :: 0 <= i < |lists| && s in lists[i] {
      var i :| 0 <= i < |m.table| && m.table[i] == Owner(m.ix, s);
      assert s in lists[i];
    }
    forall k | k in m.ix.keys ensures exists i :: 0 <= i < |cs| && cs[i].sessionKey == k {
      var i :| 0 <= i < |m.table| && m.table[i] == m.ix.keys[k];
      assert cs[i].sessionKey == k;
    }
    forall i | 0 <= i < |cs| ensures cs[i].sessionKey in m.ix.keys {
      assert m.table[i] in Live(m);
    }
  }

  /** The newcomer can be registered next to these channels. */
  ghost predicate Fits(cs: seq<ChannelCfg>, c: ChannelCfg) {
    && OwnKeysOk(c)
    && (forall i :: 0 <= i < |cs| ==> Disjoint(Attempted(cs[i]), Attempted(c)))
    && (forall i :: 0 <= i < |cs| ==> cs[i].sessionKey != c.sessionKey)
  }

  /** Registration next to these channels succeeds exactly when the newcomer fits. */
  lemma {:induction false} RegisterBesideIff(ids: Records, m: Mgr, cs: seq<ChannelCfg>, c: ChannelCfg, h: Handle)
    requires Carries(ids, m, cs)
    ensures Register(m.ix, c, h).1 <==> Fits(cs, c)
  {
    RegisterSucceedsIff(m.ix, c, h);
    EntriesBelong(ids, m, cs);
    var lists := ListsOf(cs);
    FreeIff(m.table, m.ix, lists, Attempted(c));
    assert (forall i :: 0 <= i < |lists| ==> Disjoint(lists[i], Attempted(c))) <==>
           forall i :: 0 <= i < |cs| ==> Disjoint(Attempted(cs[i]), Attempted(c));
  }

  /** A registered newcomer is carried with the others. */
  lemma {:induction false} CarriesOneMore(ids: Records, m: Mgr, cs: seq<ChannelCfg>, c: ChannelCfg, h: Handle)
    requires Carries(ids, m, cs) && Fresh(ids, h) && |cs| < MAX_CHANNELS && Register(m.ix, c, h).1
    ensures Carries(ids[h := c], Mgr(m.table + [h], Register(m.ix, c, h).0), cs + [c])
  {
    var m' := Mgr(m.table + [h], Register(m.ix, c, h).0);
    assert Inv(ids[h := c], m') by {
      AppendLive(m, h);
      SuccessKeepsInv(ids, m, c, h, m.table + [h]);
    }
    assert Leads(m'.table, m'.ix, ListsOf(cs + [c])) by {
      RegisterSucceedsIff(m.ix, c, h);
      ListsOfSnoc(cs, c);
      LeadsOneMore(m.table, m.ix, ListsOf(cs), Attempted(c), h, m'.ix);
    }
    assert Lists(ids[h := c], m', cs + [c]);
  }

  /**
   A load from empty is accepted exactly when every session parses and validates, the channels' own keys
   are usable, their key sets are pairwise disjoint in both maps, their session keys differ, and there are
   at most MAX_CHANNELS of them; and then every key looks up to its own channel. In particular acceptance
   means that no registration was rolled back on the way.
   */
  lemma {:induction false} AcceptedIff(ids: Records, items: seq<Item>, hs: seq<Handle>)
    requires |hs| == |items| && Supplied(ids, items, hs) && ProperItems(items)
    ensures AcceptedMeans(LoadAll(ids, items, hs), items)
    decreases |items|
  {
    if items != [] {
      var n := |items| - 1;
      AcceptedIff(ids, items[..n], hs[..n]);
      LoadInv(ids, items[..n], hs[..n]);
      AcceptedStep(ids, LoadAll(ids, items[..n], hs[..n]), items, hs[n]);
    }
  }

  ghost predicate AcceptedMeans(l: Load, items: seq<Item>) {
    && (Accepted(l) <==> Acceptable(items))
    && (Accepted(l) ==> Carries(l.ids, l.mgr, ChannelsOf(items)))
  }

  lemma {:induction false} AcceptedStep(ids: Records, l: Load, items: seq<Item>, h: Handle)
    requires items != [] && ProperItem(items[|items| - 1])
    requires LoadOk(ids, l, |items| - 1) && AcceptedMeans(l, items[..|items| - 1]) && Fresh(l.ids, h)
    ensures AcceptedMeans(LoadStep(l, items[|items| - 1], h), items)
  {
    var n := |items| - 1;
    var it, l' := items[n], LoadStep(l, items[n], h);
    AllValidSnoc(items);
    if it.Parsed? {
      AddTouches(l.ids, l.mgr, it.session, h);
      if AllValid(items) {
        CompatibleSnoc(ChannelsOf(items[..n]), it.session.validated.value);
        if Accepted(l) {
          AcceptStep(l, ChannelsOf(items[..n]), it.session, h);
        }
      }
    }
  }

  lemma {:induction false} AllValidSnoc(items: seq<Item>)
    requires items != []
    ensures var n := |items| - 1;
            && (AllValid(items) <==> AllValid(items[..n]) && items[n].Parsed? && items[n].session.validated.Some?)
            && (AllValid(items) ==> ChannelsOf(items) == ChannelsOf(items[..n]) + [items[n].session.validated.value])
  {
    var n := |items| - 1;
    assert forall i :: 0 <= i < n ==> items[..n][i] == items[i];
  }

  lemma {:induction false} CompatibleSnoc(cs: seq<ChannelCfg>, c: ChannelCfg)
    ensures Compatible(cs + [c]) <==> Compatible(cs) && Fits(cs, c)
  {
    var t := cs + [c];
    assert t[|cs|] == c && forall i :: 0 <= i < |cs| ==> t[i] == cs[i];
  }

  lemma {:induction false} AcceptStep(l: Load, cs: seq<ChannelCfg>, s: Session, h: Handle)
    requires Carries(l.ids, l.mgr, cs) && Fresh(l.ids, h) && ProperSession(s) && s.validated.Some?
    ensures var o := Add(l.ids, l.mgr, s, h);
            && (o.code == Success <==> |cs| < MAX_CHANNELS && Fits(cs, s.validated.value))
            && (o.code == Success ==> Carries(o.ids, o.mgr, cs + [s.validated.value]))
  {
    RegisterBesideIff(l.ids, l.mgr, cs, s.validated.value, h);
    EntriesBelong(l.ids, l.mgr, cs);
    if Add(l.ids, l.mgr, s, h).code == Success {
      CarriesOneMore(l.ids, l.mgr, cs, s.validated.value, h);
    }
  }
}
