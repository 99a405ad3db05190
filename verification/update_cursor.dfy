/**
 Walking a candidate lineup after a successful update (cfg_find_in_update and cfg_get_next_in_update):
 every active candidate is handed out by `next` once, unless `find` has claimed it.
 */
module UpdateCursor {
  import opened Options
  import opened ChannelMap
  import opened Channels
  import opened Registration
  import opened RegisteredKeys
  import opened ManagerSpec
  import opened LineupSpec
  import opened UpdateSpec
  import opened SlotLists
  import opened LineupKeys

  /** The candidate with its records, whose use marks change, and g_lastUsedChannel. */
  datatype Cursor = Cursor(ids: Records, cand: Mgr, last: nat)

  /** Marks the record of a handle as used. */
  function Marked(ids: Records, h: Handle): Records
    requires h in ids
  {
    ids[h := ids[h].(used := true)]
  }

  /** The active candidate that has the given channel's original address and port and session key. */
  function Match(cur: Cursor, c: ChannelCfg): (r: Option<Handle>)
    ensures r.Some? ==> r.value in cur.ids
  {
    var k := Key(c.orig.addr, c.orig.port);
    if cur.cand.table == [] || k !in cur.cand.ix.chan then None
    else
      var h := cur.cand.ix.chan[k];
      var p := ActiveRecord(cur.ids, h);
      if p.Some? && p.value.sessionKey == c.sessionKey then Some(h) else None
  }

  /** cfg_find_in_update. */
  function FindNamed(cur: Cursor, c: ChannelCfg): (Cursor, Option<Handle>) {
    var r := Match(cur, c);
    (if r.Some? then cur.(ids := Marked(cur.ids, r.value)) else cur, r)
  }

  predicate Unused(ids: Records, h: Handle) {
    var p := ActiveRecord(ids, h);
    p.Some? && !p.value.used
  }

  /** The first unused active candidate from position i on, or the length of the table. */
  function NextFrom(ids: Records, t: seq<Handle>, i: nat): (k: nat)
    requires i <= |t|
    ensures i <= k <= |t|
    ensures k < |t| ==> Unused(ids, t[k])
    ensures forall j :: i <= j < k ==> !Unused(ids, t[j])
    decreases |t| - i
  {
    if i == |t| || Unused(ids, t[i]) then i else NextFrom(ids, t, i + 1)
  }

  /**
   cfg_get_next_in_update: the search restarts at the last position it stopped at, which lies past the end
   if a later update was rejected and left fewer candidates.
   */
  function Next(cur: Cursor): (Cursor, Option<Handle>) {
    var t := cur.cand.table;
    var k := if cur.last <= |t| then NextFrom(cur.ids, t, cur.last) else |t|;
    if k == |t| then (cur, None)
    else (cur.(ids := Marked(cur.ids, cur.cand.table[k]), last := k), Some(cur.cand.table[k]))
  }

  // ----- interleavings -----

  datatype Call = Find(channel: ChannelCfg) | GetNext

  function After(cur: Cursor, call: Call): (Cursor, Option<Handle>) {
    match call case Find(c) => FindNamed(cur, c) case GetNext => Next(cur)
  }

  /** The cursor and the results after a sequence of calls. */
  ghost function Calls(cur: Cursor, calls: seq<Call>): (r: (Cursor, seq<Option<Handle>>))
    requires CursorInv(cur)
    ensures CursorInv(r.0) && |r.1| == |calls| && r.0.cand == cur.cand
  {
    if calls == [] then (cur, [])
    else
      var n := |calls| - 1;
      var (c, rs) := Calls(cur, calls[..n]);
      AfterKeepsInv(c, calls[n]);
      (After(c, calls[n]).0, rs + [After(c, calls[n]).1])
  }

  /** An active candidate. */
  predicate Candidate(cur: Cursor, h: Handle) {
    h in cur.cand.table && ActiveRecord(cur.ids, h).Some?
  }

  /** Entries of the index lead to listed candidates, and everything active before `last` is used. */
  ghost predicate CursorInv(cur: Cursor) {
    && cur.last <= |cur.cand.table|
    && (forall i :: 0 <= i < cur.last ==> !Unused(cur.ids, cur.cand.table[i]))
    && (forall k :: k in cur.cand.ix.chan ==> cur.cand.ix.chan[k] in cur.cand.table)
  }

  /** Each address and port of a candidate leads to it. */
  ghost predicate AllLead(ids: Records, cand: Mgr) {
    && (forall i :: 0 <= i < |cand.table| ==> cand.table[i] in ids)
    && (forall i, k :: 0 <= i < |cand.table| && StreamKey(ids[cand.table[i]], k) ==>
          k in cand.ix.chan && cand.ix.chan[k] == cand.table[i])
  }

  /** An entry of the channel map leads to a candidate that has that address and port. */
  ghost predicate AllBelong(ids: Records, cand: Mgr) {
    forall k :: k in cand.ix.chan ==>
      cand.ix.chan[k] in cand.table && cand.ix.chan[k] in ids && StreamKey(ids[cand.ix.chan[k]], k)
  }

  ghost predicate Indexed(cur: Cursor) { AllLead(cur.ids, cur.cand) && AllBelong(cur.ids, cur.cand) }

  /** A successful update leaves the cursor at the start with no candidate used. */
  ghost predicate AtStart(cur: Cursor) {
    && CursorInv(cur) && Indexed(cur) && cur.last == 0
    && forall h: Handle :: Candidate(cur, h) ==> !cur.ids[h].used
  }

  lemma {:induction false} UpdateStartsCursor(c: Config, items: seq<Item>, hs: seq<Handle>)
    requires ConfigInv(c) && |hs| == |items| && Supplied(c.ids - Live(c.cand), items, hs) && ProperItems(items)
    requires Update(c, items, hs).1
    ensures AtStart(Cursor(Update(c, items, hs).0.ids, Update(c, items, hs).0.cand, 0))
  {
    var c' := Update(c, items, hs).0;
    UpdateEffect(c, items, hs);
    forall k | k in c'.cand.ix.chan ensures c'.cand.ix.chan[k] in c'.cand.table {
      assert Has(c'.cand.ix, Chan(k)) && Owner(c'.cand.ix, Chan(k)) in Live(c'.cand);
    }
    forall i | 0 <= i < |items| ensures !c'.ids[c'.cand.table[i]].used {
      assert ProperItem(items[i]);
      assert Listed(c'.ids, c'.cand)[i] == ChannelsOf(items)[i];
    }
    ExactMeansLead(c'.ids, c'.cand);
    ExactMeansBelong(c'.ids, c'.cand);
  }

  lemma {:induction false} ExactBelongs(ids: Records, m: Mgr, k: Key)
    requires Exact(ids, m) && k in m.ix.chan
    ensures m.ix.chan[k] in m.table && m.ix.chan[k] in ids && StreamKey(ids[m.ix.chan[k]], k)
  {
    assert Has(m.ix, Chan(k)) && Owner(m.ix, Chan(k)) in Live(m);
    AttemptedByField(ids[m.ix.chan[k]], Chan(k));
  }

  lemma {:induction false} LeadsByKeys(ids: Records, m: Mgr, lists: seq<seq<Slot>>)
    requires Leads(m.table, m.ix, lists)
    requires forall i :: 0 <= i < |m.table| ==> m.table[i] in ids && lists[i] == Attempted(ids[m.table[i]])
    ensures AllLead(ids, m)
  {
    forall i, k | 0 <= i < |m.table| && StreamKey(ids[m.table[i]], k)
      ensures k in m.ix.chan && m.ix.chan[k] == m.table[i]
    {
      LedByField(m.table, m.ix, lists, ids[m.table[i]], i);
    }
  }

  lemma {:induction false} ExactMeansLead(ids: Records, m: Mgr)
    requires Exact(ids, m)
    ensures AllLead(ids, m)
  {
    LeadsByKeys(ids, m, ListsOf(Listed(ids, m)));
  }

  lemma {:induction false} ExactMeansBelong(ids: Records, m: Mgr)
    requires Exact(ids, m)
    ensures AllBelong(ids, m)
  {
    forall k | k in m.ix.chan
      ensures m.ix.chan[k] in m.table && m.ix.chan[k] in ids && StreamKey(ids[m.ix.chan[k]], k)
    {
      ExactBelongs(ids, m, k);
    }
  }

  /** What marking a record changes. */
  lemma {:induction false} MarkedEffect(ids: Records, h: Handle, x: Handle)
    requires ActiveRecord(ids, h).Some?
    ensures ActiveRecord(Marked(ids, h), x).Some? <==> ActiveRecord(ids, x).Some?
    ensures Unused(Marked(ids, h), x) <==> Unused(ids, x) && x != h
  {
  }

  /** A record with its use mark set, if it is the one returned. */
  function IfReturned(c: ChannelCfg, returned: bool): ChannelCfg { if returned then c.(used := true) else c }

  /** What one call does: it returns an active candidate, if any, and marks exactly that one. */
  lemma {:induction false} AfterEffect(cur: Cursor, call: Call)
    requires CursorInv(cur)
    ensures var (c, r) := After(cur, call);
            && c.cand == cur.cand && c.ids.Keys == cur.ids.Keys
            && (forall x :: x in cur.ids ==> c.ids[x] == IfReturned(cur.ids[x], r == Some(x)))
            && (r.Some? ==> Candidate(cur, r.value))
            && (forall x: Handle :: ActiveRecord(c.ids, x).Some? <==> ActiveRecord(cur.ids, x).Some?)
            && (forall x: Handle :: Unused(c.ids, x) <==> Unused(cur.ids, x) && r != Some(x))
  {
    var (c, r) := After(cur, call);
    if r.Some? {
      forall x: Handle
        ensures ActiveRecord(c.ids, x).Some? <==> ActiveRecord(cur.ids, x).Some?
        ensures Unused(c.ids, x) <==> Unused(cur.ids, x) && x != r.value
      {
        MarkedEffect(cur.ids, r.value, x);
      }
    }
  }

  lemma {:induction false} AfterKeepsInv(cur: Cursor, call: Call)
    requires CursorInv(cur)
    ensures CursorInv(After(cur, call).0)
  {
    AfterEffect(cur, call);
  }

  /** A candidate is unused as long as no call has returned it. */
  lemma {:induction false} UsedMeansReturned(cur: Cursor, calls: seq<Call>, h: Handle)
    requires AtStart(cur)
    ensures Candidate(Calls(cur, calls).0, h) <==> Candidate(cur, h)
    ensures Candidate(cur, h) ==> (Unused(Calls(cur, calls).0.ids, h) <==> Some(h) !in Calls(cur, calls).1)
    decreases |calls|
  {
    if calls != [] {
      var n := |calls| - 1;
      UsedMeansReturned(cur, calls[..n], h);
      AfterEffect(Calls(cur, calls[..n]).0, calls[n]);
    }
  }

  /** The calls change use marks only. */
  lemma {:induction false} CallsChangeMarks(cur: Cursor, calls: seq<Call>)
    requires AtStart(cur)
    ensures var c := Calls(cur, calls).0;
            && c.ids.Keys == cur.ids.Keys
            && forall x :: x in cur.ids ==> c.ids[x] == cur.ids[x].(used := c.ids[x].used)
    decreases |calls|
  {
    if calls != [] {
      var n := |calls| - 1;
      CallsChangeMarks(cur, calls[..n]);
      AfterEffect(Calls(cur, calls[..n]).0, calls[n]);
    }
  }

  /**
   Under any interleaving of calls after a successful update, `find` returns a candidate exactly if it is
   active, has the session key of the given channel, and has the channel's original address and port as those of
   its original stream or of an FEC stream.
   */
  lemma {:induction false} FindReturnsTheMatch(cur: Cursor, calls: seq<Call>, c: ChannelCfg, h: Handle)
    requires AtStart(cur)
    ensures FindNamed(Calls(cur, calls).0, c).1 == Some(h) <==>
            && Candidate(cur, h) && cur.ids[h].sessionKey == c.sessionKey
            && StreamKey(cur.ids[h], Key(c.orig.addr, c.orig.port))
  {
    CallsChangeMarks(cur, calls);
    var now, k := Calls(cur, calls).0, Key(c.orig.addr, c.orig.port);
    assert Candidate(now, h) <==> Candidate(cur, h);
    if Candidate(cur, h) && StreamKey(cur.ids[h], k) {
      var i :| 0 <= i < |cur.cand.table| && cur.cand.table[i] == h;
      assert k in cur.cand.ix.chan && cur.cand.ix.chan[k] == h;
    }
    if k in cur.cand.ix.chan {
      assert cur.cand.ix.chan[k] in cur.cand.table && StreamKey(cur.ids[cur.cand.ix.chan[k]], k);
    }
  }

  /** Every candidate listed before the first place of h has been returned. */
  ghost predicate FirstLeft(cur: Cursor, rs: seq<Option<Handle>>, h: Handle) {
    exists k :: 0 <= k < |cur.cand.table| && cur.cand.table[k] == h &&
      forall j :: 0 <= j < k && Candidate(cur, cur.cand.table[j]) ==> Some(cur.cand.table[j]) in rs
  }

  /**
   Under any interleaving of find and next after a successful update, `next` returns an active candidate
   that no call has returned before, the first of these in the table, and NULL exactly when none is left.
   */
  lemma {:induction false} NextReturnsTheRest(cur: Cursor, calls: seq<Call>)
    requires AtStart(cur)
    ensures var (c, rs) := Calls(cur, calls);
            var r := Next(c).1;
            && (r.Some? ==> Candidate(cur, r.value) && r !in rs && FirstLeft(cur, rs, r.value))
            && (r.None? <==> forall h: Handle :: Candidate(cur, h) ==> Some(h) in rs)
  {
    var (c, rs) := Calls(cur, calls);
    var r := Next(c).1;
    forall h: Handle
      ensures Candidate(c, h) <==> Candidate(cur, h)
      ensures Candidate(cur, h) ==> (Unused(c.ids, h) <==> Some(h) !in rs)
    {
      UsedMeansReturned(cur, calls, h);
    }
    if r.Some? {
      var k := NextFrom(c.ids, c.cand.table, c.last);
      assert Candidate(c, c.cand.table[k]);
      assert forall j :: 0 <= j < k ==> !Unused(c.ids, c.cand.table[j]);
      assert FirstLeft(cur, rs, r.value);
    } else {
      forall h | Candidate(c, h) ensures !Unused(c.ids, h) {
        var i :| 0 <= i < |c.cand.table| && c.cand.table[i] == h;
      }
    }
  }

  /** Once `next` has returned NULL it does so for ever, whatever is called in between. */
  lemma {:induction false} NullForEver(cur: Cursor, calls: seq<Call>, more: seq<Call>)
    requires AtStart(cur) && Next(Calls(cur, calls).0).1.None?
    ensures Next(Calls(cur, calls + more).0).1.None?
  {
    NextReturnsTheRest(cur, calls);
    NextReturnsTheRest(cur, calls + more);
    ResultsExtend(cur, calls, more);
  }

  lemma {:induction false} ResultsExtend(cur: Cursor, calls: seq<Call>, more: seq<Call>)
    requires CursorInv(cur)
    ensures Calls(cur, calls).1 <= Calls(cur, calls + more).1
    decreases |more|
  {
    if more == [] {
      assert calls + more == calls;
    } else {
      var n := |more| - 1;
      var all, before := calls + more, calls + more[..n];
      ResultsExtend(cur, calls, more[..n]);
      assert all[..|all| - 1] == before;
      assert Calls(cur, before).1 <= Calls(cur, all).1;
    }
  }
}
