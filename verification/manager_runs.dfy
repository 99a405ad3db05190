/** Every run of additions, insertions and deletions on one manager, including additions that roll back. */
module ManagerRuns {
  import opened Sequences
  import opened ChannelMap
  import opened Channels
  import opened Registration
  import opened ManagerSpec

  datatype Operation =
    | AddOp(session: Session, handle: Handle)
    | InsertOp(channel: ChannelCfg, handle: Handle)
    | DeleteOp(handle: Handle)

  datatype State = State(ids: Records, mgr: Mgr)

  function After(o: Outcome): State { State(o.ids, o.mgr) }

  function Step(st: State, op: Operation): State {
    match op
    case AddOp(s, h) => After(Add(st.ids, st.mgr, s, h))
    case InsertOp(c, h) => After(Insert(st.ids, st.mgr, c, h))
    case DeleteOp(h) => After(Delete(st.ids, st.mgr, h))
  }

  /** The state after a run from an empty manager. */
  function Run(ops: seq<Operation>): State {
    if ops == [] then State(map[], EMPTY_MGR) else Step(Run(ops[..|ops| - 1]), ops[|ops| - 1])
  }

  /** Handles come from the id manager, and sessions from the validation. */
  ghost predicate Offered(st: State, op: Operation) {
    match op
    case AddOp(s, h) => Fresh(st.ids, h) && ProperSession(s)
    case InsertOp(c, h) => Fresh(st.ids, h)
    case DeleteOp(h) => true
  }

  /** Every operation of the run is offered at its point. */
  ghost predicate OfferedRun(ops: seq<Operation>) {
    ops == [] || (OfferedRun(ops[..|ops| - 1]) && Offered(Run(ops[..|ops| - 1]), ops[|ops| - 1]))
  }

  /** Each map entry resolves to a live channel that has that key, and the table lists the live channels. */
  ghost predicate StateInv(st: State) {
    Inv(st.ids, st.mgr) && st.ids.Keys == Live(st.mgr)
  }

  predicate HarmlessOp(st: State, op: Operation) { op.InsertOp? ==> Harmless(st.mgr, op.channel) }

  /** An operation keeps the invariant exactly when it is not an insertion under a session key that is taken. */
  lemma {:induction false} StepKeepsInvIff(st: State, op: Operation)
    requires StateInv(st) && Offered(st, op)
    ensures StateInv(Step(st, op)) <==> HarmlessOp(st, op)
  {
    match op
    case AddOp(s, h) => AddKeepsInv(st.ids, st.mgr, s, h);
    case InsertOp(c, h) =>
      InsertKeepsInvIff(st.ids, st.mgr, c, h);
      if Register(st.mgr.ix, Copy(c), h).1 && |st.mgr.table| >= MAX_CHANNELS {
        FullTableKeepsInv(st.ids, st.mgr, Copy(c), h);
      }
    case DeleteOp(h) =>
      if h in st.ids {
        DeleteKeepsInv(st.ids, st.mgr, h);
      }
  }

  /** The invariant holds at every point of the run. */
  ghost predicate SafeRun(ops: seq<Operation>) {
    StateInv(Run(ops)) && (ops == [] || SafeRun(ops[..|ops| - 1]))
  }

  /** Every operation of the run is harmless at its point. */
  predicate HarmlessRun(ops: seq<Operation>) {
    ops == [] || (HarmlessRun(ops[..|ops| - 1]) && HarmlessOp(Run(ops[..|ops| - 1]), ops[|ops| - 1]))
  }

  /**
   Whatever was rejected or rolled back on the way, the invariant holds at every point of a run exactly
   when none of its insertions brings a session key that is taken with a first key that is free.
   */
  lemma {:induction false} SafeRunIff(ops: seq<Operation>)
    requires OfferedRun(ops)
    ensures SafeRun(ops) <==> HarmlessRun(ops)
  {
    if ops != [] {
      var before := ops[..|ops| - 1];
      SafeRunIff(before);
      if SafeRun(before) {
        StepKeepsInvIff(Run(before), ops[|ops| - 1]);
      }
    }
  }

  // ----- destroying everything -----

  /** What holds on every run, also after a harmful insertion. */
  ghost predicate Listed(st: State) { TableOk(st.ids, st.mgr) && st.ids.Keys == Live(st.mgr) }

  lemma {:induction false} StepKeepsListed(st: State, op: Operation)
    requires Listed(st) && Offered(st, op)
    ensures Listed(Step(st, op))
  {
    match op
    case AddOp(s, h) => AppendLive(st.mgr, h);
    case InsertOp(c, h) => InsertKeepsListed(st, c, h);
    case DeleteOp(h) =>
      var k := IndexOf(st.mgr.table, h);
      if h in st.ids {
        assert h in Live(st.mgr);
        HoleLive(st.mgr, k, h);
      }
  }

  lemma {:induction false} InsertKeepsListed(st: State, c: ChannelCfg, h: Handle)
    requires Listed(st) && Fresh(st.ids, h)
    ensures Listed(After(Insert(st.ids, st.mgr, c, h)))
  {
    var k, t := IndexOf(st.mgr.table, ILLEGAL_ID), st.mgr.table;
    assert h !in t by {
      assert h !in Live(st.mgr);
    }
    assert st.ids[h := Copy(c)] - {h} == st.ids;
    if k < |t| {
      FillLive(st.mgr, k, h);
    } else {
      AppendLive(st.mgr, h);
    }
  }

  lemma {:induction false} RunIsListed(ops: seq<Operation>)
    requires OfferedRun(ops)
    ensures Listed(Run(ops))
  {
    if ops != [] {
      RunIsListed(ops[..|ops| - 1]);
      StepKeepsListed(Run(ops[..|ops| - 1]), ops[|ops| - 1]);
    }
  }

  /**
   After any run, harmful insertions included, destroying all channels leaves no record. It empties both maps
   and the session keys exactly when no entry was stranded: each is among the removal keys of a live channel,
   and each session key belongs to one. After a safe run that is always so.
   */
  lemma {:induction false} DestroyAllEmptiesIff(ops: seq<Operation>)
    requires OfferedRun(ops)
    ensures var st := Run(ops);
            var d := Emptied(st.ids, st.mgr);
            && d.ids == map[]
            && (d.mgr == EMPTY_MGR <==>
                && (forall s :: Has(st.mgr.ix, s) ==> Covered(st.ids, Live(st.mgr), s))
                && (forall k :: k in st.mgr.ix.keys ==> KeyCovered(st.ids, Live(st.mgr), k)))
            && (HarmlessRun(ops) ==> d.mgr == EMPTY_MGR)
  {
    var st := Run(ops);
    RunIsListed(ops);
    EmptiedIff(st.ids, st.mgr);
    if HarmlessRun(ops) {
      SafeRunIff(ops);
      InvMeansEmptied(st.ids, st.mgr);
    }
  }
}
