/**
 What a primary upcall comes to, row by row: which source it promotes, if any, and in which state it leaves
 the session.
 */
module PrimaryTheorems {
  import opened Options
  import opened RtpSource
  import opened PrimarySpec

  // ----- which row is promoted -----

  ghost predicate FirstPermitted(t: Table, k: nat) {
    k < |t| && t[k].pktflowPermitted && forall j :: 0 <= j < k ==> !t[j].pktflowPermitted
  }

  ghost predicate FirstBuffered(t: Table, k: nat) {
    k < |t| && t[k].bufferForFailover && forall j :: 0 <= j < k ==> !t[j].bufferForFailover
  }

  /** The source with packet flow in the dataplane is active. */
  ghost predicate PermittedIsActive(t: Table) { exists k: nat :: FirstPermitted(t, k) && t[k].active }

  /**
   The first permitted row if it is active; else the active row heard from last for an SSM session, and the
   first row buffered for failover for any other.
   */
  ghost predicate Promotable(t: Table, isSsm: bool, k: nat) {
    if PermittedIsActive(t) then FirstPermitted(t, k)
    else if isSsm then IsMostRecent(t, k)
    else FirstBuffered(t, k)
  }

  lemma {:induction false} FirstsAreFound(t: Table)
    ensures forall k: nat :: FirstPermitted(t, k) <==> k < |t| && k == PktflowEntry(t)
    ensures forall k: nat :: FirstBuffered(t, k) <==> k < |t| && k == FailoverEntry(t)
    ensures forall k: nat :: IsMostRecent(t, k) <==> k < |t| && k == MostRecentEntry(t)
  {
    forall k: nat | IsMostRecent(t, k) ensures k == MostRecentEntry(t) {
      MostRecentIsUnique(t, k);
    }
  }

  lemma {:induction false} ElectedIsPromotable(t: Table, isSsm: bool)
    ensures forall k: nat :: Promotable(t, isSsm, k) <==> k < |t| && k == Elected(t, isSsm)
  {
    FirstsAreFound(t);
    assert PermittedIsActive(t) <==> PktflowEntry(t) < |t| && t[PktflowEntry(t)].active by {
      if PktflowEntry(t) < |t| && t[PktflowEntry(t)].active {
        assert FirstPermitted(t, PktflowEntry(t));
      }
    }
  }

  // ----- what becomes of the session -----

  /** The session after the source of a row was promoted: permitted by the dataplane and taken by the RTP layer. */
  ghost predicate Promoted(q: Primary, e: Entry, a: Answers)
    requires a.permit.Some?
  {
    && q.state == Active && q.pktflow == e.key && q.threshCnt == e.threshCnt
    && q.seqOffset == a.permit.value && q.permitted == Some(e.key)
  }

  /** The session has failed; the source it had is dropped with its threshold count. */
  ghost predicate FailedFrom(p: Primary, q: Primary) {
    q == p.(state := Error, pktflow := NULL_ID, threshCnt := if p.pktflow == NULL_ID then p.threshCnt else 0)
  }

  /** The election in a session p on the table t: what is promoted and what the session becomes. */
  ghost predicate ElectionIs(p: Primary, t: Table, isSsm: bool, a: Answers, o: Outcome) {
    && (forall k: nat :: Promotable(t, isSsm, k) ==>
          if a.permit.None? then o.promoted == None && FailedFrom(p, o.next)
          else if a.accepted then o.promoted == Some(t[k].key) && Promoted(o.next, t[k], a)
          else o.promoted == None && FailedFrom(p.(seqOffset := a.permit.value, permitted := Some(t[k].key)), o.next))
    && ((forall k: nat :: !Promotable(t, isSsm, k)) ==>
          o.promoted == None && o.next == if t != [] then p.(state := Inactive) else p)
  }

  lemma {:induction false} InstallIs(p: Primary, t: Table, isSsm: bool, a: Answers)
    ensures ElectionIs(p, t, isSsm, a, Install(p, t, isSsm, a))
  {
    ElectedIsPromotable(t, isSsm);
    var k := Elected(t, isSsm);
    assert k < |t| <==> Promotable(t, isSsm, k);
  }

  /** Row k is the session's own packet-flow source, permitted in the dataplane too. */
  ghost predicate OwnRow(p: Primary, t: Table, k: nat) {
    p.pktflow != NULL_ID && FirstPermitted(t, k) && t[k].key == p.pktflow
  }

  /** The session's own source, active in the table: it stays, and is added again if its threshold count moved. */
  ghost predicate RefreshIs(p: Primary, e: Entry, a: Answers, o: Outcome) {
    && o.promoted == None
    && o.next ==
       if e.threshCnt == p.threshCnt then p
       else if a.accepted then p.(threshCnt := e.threshCnt, state := Active)
       else p.(pktflow := NULL_ID, threshCnt := 0, state := Error)
  }

  /**
   What an upcall comes to. In the error and shutdown states nothing happens. An active own source stays; an
   inactive one is only the last known threshold count of the session that elects anew, and without an own
   source in the table there is an election too.
   */
  lemma {:induction false} UpcallIs(p: Primary, t: Table, isSsm: bool, a: Answers)
    requires Inv(p)
    ensures var o := Upcall(p, t, isSsm, a);
            && (p.state in {Error, Shutdown} ==> o == Outcome(p, None))
            && (p.state in {WaitFirst, Active, Inactive} ==>
                && (forall k: nat :: OwnRow(p, t, k) && t[k].active ==> RefreshIs(p, t[k], a, o))
                && (forall k: nat :: OwnRow(p, t, k) && !t[k].active ==>
                      ElectionIs(p.(threshCnt := t[k].threshCnt), t, isSsm, a, o))
                && ((forall k: nat :: !OwnRow(p, t, k)) ==> ElectionIs(p, t, isSsm, a, o)))
  {
    FirstsAreFound(t);
    var k := PktflowEntry(t);
    InstallIs(p, t, isSsm, a);
    if k < |t| {
      assert OwnRow(p, t, k) <==> p.pktflow != NULL_ID && t[k].key == p.pktflow;
      InstallIs(p.(threshCnt := t[k].threshCnt), t, isSsm, a);
    }
  }
}
