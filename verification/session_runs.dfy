/**
 Both sessions of a channel under every interleaving of events: primary upcalls (which may notify the
 repair session), repair upcalls, member deletions on the repair session, and shutdown of the primary.
 */
module SessionRuns {
  import opened Options
  import opened RtpSource
  import P = PrimarySpec
  import R = RepairSpec
  import T = RepairTheorems

  /** A channel: its fixed settings and its two sessions. */
  datatype Channel = Channel(erEnabled: bool, isSsm: bool, primary: P.Primary, repair: R.Repair)

  datatype Event =
    | PrimaryUpcall(table: Table, answers: P.Answers, granted: Option<Keys>, accepts: SourceId -> bool)
    | RepairUpcall(keys: Keys, fetched: Option<Keys>, accepts: SourceId -> bool)
    | RepairDelete(id: SourceId, ipcOk: bool)
    | ShutdownPrimary

  ghost function Start(erEnabled: bool, isSsm: bool): (c: Channel)
    ensures Inv(c)
  {
    Channel(erEnabled, isSsm, P.CREATED, R.Initial())
  }

  /** Each session is well formed, and the repair filter follows the primary's packet-flow source. */
  ghost predicate Inv(c: Channel) {
    && P.Inv(c.primary)
    && R.Inv(c.repair)
    && Coupled(c)
  }

  /**
   If the primary has a packet-flow source and the repair filter is on, the filter is that source's SSRC,
   which is also the filter last granted by the repair dataplane and the source last permitted by the
   primary one. With error repair a repair session without a filter has then failed; without error repair the
   filter is never on.
   */
  ghost predicate Coupled(c: Channel) {
    && (c.primary.pktflow != NULL_ID && c.repair.filterOn ==>
          && c.repair.filter == c.primary.pktflow.ssrc
          && c.repair.installed == Some(c.primary.pktflow.ssrc)
          && c.primary.permitted == Some(c.primary.pktflow))
    && (c.primary.pktflow != NULL_ID && c.erEnabled && !c.repair.filterOn ==> c.repair.state == Error)
    && (!c.erEnabled ==> !c.repair.filterOn)
  }

  ghost function Step(c: Channel, e: Event): (c': Channel)
    requires Inv(c)
    ensures Inv(c')
  {
    match e
    case PrimaryUpcall(t, a, g, acc) =>
      PrimaryUpcallKeepsInv(c, t, a, g, acc);
      AfterPrimaryUpcall(c, t, a, g, acc)
    case RepairUpcall(k, f, acc) =>
      R.UpcallKeepsInv(c.repair, k, f, acc);
      c.(repair := R.Upcall(c.repair, k, f, acc))
    case RepairDelete(id, ok) =>
      R.MemberDeletedKeepsInv(c.repair, id, ok);
      c.(repair := R.MemberDeleted(c.repair, id, ok))
    case ShutdownPrimary =>
      c.(primary := P.ShutDown(c.primary))
  }

  /** A promotion is passed on to the repair session when error repair is enabled. */
  ghost function AfterPrimaryUpcall(c: Channel, t: Table, a: P.Answers, g: Option<Keys>, acc: SourceId -> bool): Channel
    requires R.CacheInv(c.repair)
  {
    var o := P.Upcall(c.primary, t, c.isSsm, a);
    c.(primary := o.next,
       repair := if o.promoted.Some? && c.erEnabled then R.PktflowUpdate(c.repair, o.promoted.value, g, acc)
                 else c.repair)
  }

  lemma {:induction false} PrimaryUpcallKeepsInv(c: Channel, t: Table, a: P.Answers, g: Option<Keys>,
                                                 acc: SourceId -> bool)
    requires Inv(c)
    ensures Inv(AfterPrimaryUpcall(c, t, a, g, acc))
  {
    var o := P.Upcall(c.primary, t, c.isSsm, a);
    P.UpcallKeepsInv(c.primary, t, c.isSsm, a);
    if o.promoted.Some? {
      R.PktflowKeepsInv(c.repair, o.promoted.value, g, acc);
    }
  }

  /** A promotion is passed on: its effect on the repair session is that of a filter install for its SSRC. */
  ghost predicate PassedOn(r: R.Repair, r': R.Repair, id: SourceId, g: Option<Keys>, acc: SourceId -> bool)
    requires R.CacheInv(r)
  {
    && (r'.filterOn <==>
        && g.Some? && R.Checked(r, g.value) && T.NullFree(g.value) && T.TakesAll(Ids(g.value) - R.Cached(r), acc))
    && (r'.filterOn ==>
        && r'.filter == id.ssrc && r'.installed == Some(id.ssrc) && R.Cached(r') == Ids(g.value)
        && r'.state == if g.value != [] then Active else r.state)
    && (!r'.filterOn ==> T.HasFailed(r'))
  }

  /** The repair session hears of a primary upcall exactly when it promotes a source and error repair is enabled. */
  lemma {:induction false} PromotionIsPassedOn(c: Channel, t: Table, a: P.Answers, g: Option<Keys>,
                                               acc: SourceId -> bool)
    requires Inv(c)
    ensures var c', o := Step(c, PrimaryUpcall(t, a, g, acc)), P.Upcall(c.primary, t, c.isSsm, a);
            && c' == c.(primary := o.next, repair := c'.repair)
            && if o.promoted in {None, Some(NULL_ID)} || !c.erEnabled then c'.repair == c.repair
               else PassedOn(c.repair, c'.repair, o.promoted.value, g, acc)
  {
    var o := P.Upcall(c.primary, t, c.isSsm, a);
    if o.promoted.Some? {
      T.PktflowSucceedsIff(c.repair, o.promoted.value, g, acc);
    }
  }

  /** The other events touch one session only, and what they come to. */
  lemma {:induction false} OtherEventsAre(c: Channel, e: Event)
    requires Inv(c) && !e.PrimaryUpcall?
    ensures var c' := Step(c, e);
            && c' == c.(primary := c'.primary, repair := c'.repair)
            && match e
               case RepairUpcall(t, f, acc) =>
                 c'.primary == c.primary && T.UpcallOutcome(c.repair, t, f, acc, c'.repair)
               case RepairDelete(id, ok) =>
                 c'.primary == c.primary && T.DeletionOutcome(c.repair, id, ok, c'.repair)
               case ShutdownPrimary =>
                 c'.repair == c.repair && c'.primary == c.primary.(state := SessionState.Shutdown)
  {
    match e
    case RepairUpcall(t, f, acc) => T.UpcallIs(c.repair, t, f, acc);
    case RepairDelete(id, ok) => T.MemberDeletedIs(c.repair, id, ok);
    case ShutdownPrimary =>
  }

  /**
   The channel after a sequence of events. The invariant, and with it the law that the filter follows the
   packet-flow source, holds on every run.
   */
  ghost function Run(c: Channel, events: seq<Event>): (c': Channel)
    requires Inv(c)
    ensures Inv(c')
    decreases |events|
  {
    if events == [] then c else Step(Run(c, events[..|events| - 1]), events[|events| - 1])
  }

  /** The dataplane answers the filter install for a promoted source with rows of that SSRC only. */
  ghost predicate Honest(c: Channel, e: Event) {
    e.PrimaryUpcall? && e.granted.Some? && P.Upcall(c.primary, e.table, c.isSsm, e.answers).promoted.Some? ==>
      T.OnlySsrc(e.granted.value, P.Upcall(c.primary, e.table, c.isSsm, e.answers).promoted.value.ssrc)
  }

  lemma {:induction false} StepKeepsFiltered(c: Channel, e: Event)
    requires Inv(c) && T.Filtered(c.repair) && Honest(c, e)
    ensures T.Filtered(Step(c, e).repair)
  {
    match e
    case PrimaryUpcall(t, a, g, acc) =>
      var o := P.Upcall(c.primary, t, c.isSsm, a);
      if o.promoted.Some? {
        T.StepKeepsFiltered(c.repair, T.PktflowEvent(o.promoted.value, g, acc));
      }
    case RepairUpcall(k, f, acc) => T.StepKeepsFiltered(c.repair, T.UpcallEvent(k, f, acc));
    case RepairDelete(id, ok) => T.StepKeepsFiltered(c.repair, T.DeleteEvent(id, ok));
    case ShutdownPrimary =>
  }

  /**
   Retransmissions stay tied to the original stream: on every run with an honest dataplane, while the
   filter is on and the primary has a packet-flow source, the repair session knows at most one source and
   it carries the primary's SSRC.
   */
  lemma {:induction false} RepairSharesPrimarySsrc(erEnabled: bool, isSsm: bool, events: seq<Event>)
    requires forall i :: 0 <= i < |events| ==> Honest(Run(Start(erEnabled, isSsm), events[..i]), events[i])
    ensures var c := Run(Start(erEnabled, isSsm), events);
            && T.Filtered(c.repair)
            && (c.repair.filterOn && c.primary.pktflow != NULL_ID ==>
                |R.Cached(c.repair)| <= 1 &&
                forall id :: id in R.Cached(c.repair) ==> id.ssrc == c.primary.pktflow.ssrc)
    decreases |events|
  {
    if events != [] {
      var n := |events| - 1;
      var before := events[..n];
      forall i | 0 <= i < n ensures Honest(Run(Start(erEnabled, isSsm), before[..i]), before[i]) {
        assert before[..i] == events[..i];
      }
      RepairSharesPrimarySsrc(erEnabled, isSsm, before);
      StepKeepsFiltered(Run(Start(erEnabled, isSsm), before), events[n]);
    }
  }

  // ----- the order of the primary's states over a run -----

  /** A later state q of a session that was once in p. */
  ghost predicate Later(p: P.Primary, q: P.Primary) {
    && (p.state != WaitFirst ==> q.state != WaitFirst)
    && (p.state == Error ==> q.state in {Error, Shutdown} && q.pktflow == NULL_ID)
    && (p.state == Shutdown ==> q == p)
  }

  lemma {:induction false} UpcallIsLater(p: P.Primary, t: Table, isSsm: bool, a: P.Answers)
    requires P.Inv(p)
    ensures Later(p, P.Upcall(p, t, isSsm, a).next)
  {
  }

  lemma {:induction false} StepIsLater(c: Channel, e: Event)
    requires Inv(c)
    ensures Later(c.primary, Step(c, e).primary)
  {
    if e.PrimaryUpcall? {
      UpcallIsLater(c.primary, e.table, c.isSsm, e.answers);
    }
  }

  /**
   First-wait is never re-entered, the error state is left only by shutdown and never regains a source,
   and shutdown is final: between any two points of any run.
   */
  lemma {:induction false} StatesOnlyAdvance(c: Channel, events: seq<Event>, i: nat)
    requires Inv(c) && i <= |events|
    ensures Later(Run(c, events[..i]).primary, Run(c, events).primary)
    decreases |events|
  {
    if i == |events| {
      assert events[..i] == events;
    } else {
      var before := events[..|events| - 1];
      assert before[..i] == events[..i];
      StatesOnlyAdvance(c, before, i);
      StepIsLater(Run(c, before), events[|events| - 1]);
    }
  }

  /** The dataplane reports real keys to the primary session. */
  ghost predicate RealKeys(e: Event) { e.PrimaryUpcall? ==> P.NoNullKeys(e.table) }

  /** With real keys an active primary session always has its source, the one permitted last. */
  lemma {:induction false} ActiveHasSource(erEnabled: bool, isSsm: bool, events: seq<Event>)
    requires forall i :: 0 <= i < |events| ==> RealKeys(events[i])
    ensures var p := Run(Start(erEnabled, isSsm), events).primary;
            p.state == Active ==> p.pktflow != NULL_ID && p.permitted == Some(p.pktflow)
    decreases |events|
  {
    if events != [] {
      var before, e := events[..|events| - 1], events[|events| - 1];
      ActiveHasSource(erEnabled, isSsm, before);
      var c := Run(Start(erEnabled, isSsm), before);
      if e.PrimaryUpcall? {
        P.UpcallKeepsSource(c.primary, e.table, c.isSsm, e.answers);
      }
    }
  }
}
