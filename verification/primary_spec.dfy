/**
 The primary session of eva/rtp_era_recv.c on values: electing a packet-flow source from a dataplane
 table (the searches are those of eva/vqec_rtp.c), promoting it, and the state machine around it.
 */
module PrimarySpec {
  import opened Options
  import opened RtpSource

  /** `permitted` records the last source the dataplane agreed to permit packet flow for. */
  datatype Primary = Primary(
    state: SessionState,
    pktflow: SourceId,
    threshCnt: nat,
    seqOffset: int,
    permitted: Option<SourceId>)

  /** What the outside answers during one event: the permit IPC with its sequence offset, and the RTP layer. */
  datatype Answers = Answers(permit: Option<int>, accepted: bool)

  /** The session after an event and the source it promoted, if any. */
  datatype Outcome = Outcome(next: Primary, promoted: Option<SourceId>)

  const CREATED := Primary(WaitFirst, NULL_ID, 0, 0, None)

  // ----- searching a table; the result |t| means none -----

  /** The first row with packet flow permitted. */
  function PktflowEntry(t: seq<Entry>): (k: nat)
    ensures k <= |t|
    ensures k < |t| ==> t[k].pktflowPermitted
    ensures forall j :: 0 <= j < k ==> !t[j].pktflowPermitted
  {
    if t == [] || t[0].pktflowPermitted then 0 else 1 + PktflowEntry(t[1..])
  }

  /** The first row buffered for failover. Unlike its comment, the source does not ask that it be active. */
  function FailoverEntry(t: seq<Entry>): (k: nat)
    ensures k <= |t|
    ensures k < |t| ==> t[k].bufferForFailover
    ensures forall j :: 0 <= j < k ==> !t[j].bufferForFailover
  {
    if t == [] || t[0].bufferForFailover then 0 else 1 + FailoverEntry(t[1..])
  }

  /** k is the active row heard from last; among equals the later row wins. */
  ghost predicate IsMostRecent(t: seq<Entry>, k: nat) {
    && k < |t| && t[k].active
    && (forall j :: 0 <= j < |t| && t[j].active ==> t[j].lastRxTime <= t[k].lastRxTime)
    && (forall j :: k < j < |t| && t[j].active ==> t[j].lastRxTime < t[k].lastRxTime)
  }

  function MostRecentEntry(t: seq<Entry>): (k: nat)
    ensures k <= |t|
    ensures k < |t| ==> IsMostRecent(t, k)
    ensures k == |t| ==> forall j :: 0 <= j < |t| ==> !t[j].active
  {
    if t == [] then 0
    else
      var n := |t| - 1;
      var k := MostRecentEntry(t[..n]);
      assert t == t[..n] + [t[n]];
      if t[n].active && (k == n || t[n].lastRxTime >= t[k].lastRxTime) then n
      else if k == n then |t|
      else k
  }

  lemma {:induction false} MostRecentIsUnique(t: seq<Entry>, k: nat)
    requires IsMostRecent(t, k)
    ensures MostRecentEntry(t) == k
  {
    var m := MostRecentEntry(t);
    assert m < |t|;
  }

  // ----- operations -----

  /** rtp_era_enter_error_state and the state change that follows it. */
  function Failed(p: Primary): Primary {
    if p.pktflow != NULL_ID then p.(pktflow := NULL_ID, threshCnt := 0, state := Error) else p.(state := Error)
  }

  /** The row to promote: the permitted one if it is active, else an election. */
  function Elected(t: Table, isSsm: bool): (k: nat)
    ensures k <= |t|
  {
    var k := PktflowEntry(t);
    if k < |t| && t[k].active then k
    else if isSsm then MostRecentEntry(t)
    else FailoverEntry(t)
  }

  /** rtp_era_install_new_pktflow_src, with the promotion of the elected row inlined. */
  function Install(p: Primary, t: Table, isSsm: bool, a: Answers): Outcome {
    var k := Elected(t, isSsm);
    if k == |t| then
      Outcome(if t != [] then p.(state := Inactive) else p, None)
    else if a.permit.None? then
      Outcome(Failed(p), None)
    else
      var q := p.(seqOffset := a.permit.value, permitted := Some(t[k].key));
      if !a.accepted then
        Outcome(Failed(q), None)
      else
        Outcome(q.(pktflow := t[k].key, threshCnt := t[k].threshCnt, state := Active), Some(t[k].key))
  }

  /** rtp_era_update_pktflow_src. */
  function Update(p: Primary, t: Table, isSsm: bool, a: Answers): Outcome {
    var k := PktflowEntry(t);
    if p.pktflow == NULL_ID || k == |t| || t[k].key != p.pktflow then
      Install(p, t, isSsm, a)
    else if !t[k].active then
      Install(p.(threshCnt := t[k].threshCnt), t, isSsm, a)
    else if p.threshCnt == t[k].threshCnt then
      Outcome(p, None)
    else if a.accepted then
      Outcome(p.(threshCnt := t[k].threshCnt, state := Active), None)
    else
      Outcome(Failed(p), None)
  }

  /** rtp_era_upcall_ev. */
  function Upcall(p: Primary, t: Table, isSsm: bool, a: Answers): Outcome {
    match p.state
    case WaitFirst => Install(p, t, isSsm, a)
    case Active => Update(p, t, isSsm, a)
    case Inactive => Update(p, t, isSsm, a)
    case Error => Outcome(p, None)
    case Shutdown => Outcome(p, None)
  }

  /** rtp_era_shutdown_allow_byes. */
  function ShutDown(p: Primary): Primary { p.(state := SessionState.Shutdown) }

  // ----- what every event keeps -----

  /** A packet-flow source is the one last permitted, and there is none before the first source or after an error. */
  ghost predicate Inv(p: Primary) {
    && (p.pktflow != NULL_ID ==> p.permitted == Some(p.pktflow))
    && (p.state in {WaitFirst, Error} ==> p.pktflow == NULL_ID)
  }

  ghost predicate NoNullKeys(t: Table) {
    forall i :: 0 <= i < |t| ==> t[i].key != NULL_ID
  }

  lemma {:induction false} UpcallKeepsInv(p: Primary, t: Table, isSsm: bool, a: Answers)
    requires Inv(p)
    ensures Inv(Upcall(p, t, isSsm, a).next)
    ensures Upcall(p, t, isSsm, a).promoted.Some? ==>
            Upcall(p, t, isSsm, a).next.pktflow == Upcall(p, t, isSsm, a).promoted.value
    ensures Upcall(p, t, isSsm, a).promoted.None? ==> Upcall(p, t, isSsm, a).next.pktflow in {p.pktflow, NULL_ID}
  {
  }

  /** With real keys only, the active state always has a packet-flow source. */
  lemma {:induction false} UpcallKeepsSource(p: Primary, t: Table, isSsm: bool, a: Answers)
    requires Inv(p) && NoNullKeys(t)
    requires p.state == Active ==> p.pktflow != NULL_ID
    ensures var q := Upcall(p, t, isSsm, a).next; q.state == Active ==> q.pktflow != NULL_ID
  {
    var k := Elected(t, isSsm);
    assert k < |t| ==> t[k].key != NULL_ID;
  }
}
