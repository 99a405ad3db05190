/**
 The primary session of eva/rtp_era_recv.c as an object that holds a reference to the channel's repair
 session and notifies it of promotions. Each method is proved to compute its counterpart in PrimarySpec,
 and the effect on the repair session is the one SessionRuns steps by.
 */
module PrimaryReceiver {
  import opened Options
  import opened RtpSource
  import opened PrimarySpec
  import opened PrimaryTheorems
  import R = RepairSpec
  import opened RepairReceiver

  class PrimarySession {
    const isSsm: bool
    const erEnabled: bool
    /** vqec_chan_get_repair_session: may be absent. */
    const repair: RepairSession?
    var state: SessionState
    var pktflowSrc: SourceId
    var threshCnt: nat
    var seqNumOffset: int
    var permitted: Option<SourceId>

    ghost function View(): Primary
      reads this
    {
      Primary(state, pktflowSrc, threshCnt, seqNumOffset, permitted)
    }

    /** The repair session's own footprint, empty when there is none. */
    ghost function RepairFootprint(): set<object> {
      if repair == null then {} else {repair, repair.srcIds}
    }

    ghost predicate Valid()
      reads this, RepairFootprint()
    {
      Inv(View()) && (repair != null ==> repair.Valid())
    }

    constructor (isSsm: bool, erEnabled: bool, repair: RepairSession?)
      requires repair != null ==> repair.Valid()
      ensures View() == CREATED && Valid()
      ensures this.isSsm == isSsm && this.erEnabled == erEnabled && this.repair == repair
    {
      this.isSsm, this.erEnabled, this.repair := isSsm, erEnabled, repair;
      state, pktflowSrc, threshCnt, seqNumOffset, permitted := WaitFirst, NULL_ID, 0, 0, None;
    }

    /** The repair session after the primary has promoted a source. */
    ghost predicate Notified(before: R.Repair, promoted: Option<SourceId>, granted: Option<Keys>,
                             accepts: SourceId -> bool)
      requires R.CacheInv(before) && repair != null
      reads repair, repair.srcIds
    {
      repair.View() ==
      if promoted.Some? && erEnabled then R.PktflowUpdate(before, promoted.value, granted, accepts) else before
    }

    /** vqec_rtp_src_table_find_pktflow_entry, as an index; |t| when there is none. */
    static method FindPktflowEntry(t: Table) returns (k: nat)
      ensures k == PktflowEntry(t)
    {
      k := 0;
      while k < |t| && !t[k].pktflowPermitted
        invariant k <= |t| && k + PktflowEntry(t[k..]) == PktflowEntry(t)
      {
        assert t[k..][1..] == t[k + 1..];
        k := k + 1;
      }
    }

    /** vqec_rtp_src_table_failover_src. */
    static method FindFailoverEntry(t: Table) returns (k: nat)
      ensures k == FailoverEntry(t)
    {
      k := 0;
      while k < |t| && !t[k].bufferForFailover
        invariant k <= |t| && k + FailoverEntry(t[k..]) == FailoverEntry(t)
      {
        assert t[k..][1..] == t[k + 1..];
        k := k + 1;
      }
    }

    /** vqec_rtp_src_table_most_recent_active_src. */
    static method FindMostRecentEntry(t: Table) returns (k: nat)
      ensures k == MostRecentEntry(t)
    {
      var best := -1;
      var i := 0;
      while i < |t|
        invariant 0 <= i <= |t|
        invariant best == -1 ==> forall j :: 0 <= j < i ==> !t[j].active
        invariant best != -1 ==> 0 <= best < i && IsMostRecent(t[..i], best)
      {
        assert t[..i + 1] == t[..i] + [t[i]];
        if t[i].active && (best == -1 || t[i].lastRxTime >= t[best].lastRxTime) {
          best := i;
        }
        i := i + 1;
      }
      assert t[..i] == t;
      if best == -1 {
        k := |t|;
      } else {
        k := best;
        MostRecentIsUnique(t, k);
      }
    }

    /** rtp_era_enter_error_state. The dataplane clean-up that follows does not touch the session. */
    method EnterErrorState()
      modifies this
      ensures View().(state := Error) == Failed(old(View())) && state == old(state)
      ensures pktflowSrc == NULL_ID && (old(pktflowSrc) == NULL_ID ==> View() == old(View()))
    {
      if pktflowSrc != NULL_ID {
        pktflowSrc, threshCnt := NULL_ID, 0;
      }
    }

    /** rtp_era_promote_src: permit in the dataplane, add to RTP, notify the repair session. */
    method PromoteSrc(entry: Entry, a: Answers, granted: Option<Keys>, accepts: SourceId -> bool) returns (ret: bool)
      requires repair != null ==> repair.Valid()
      modifies this, RepairFootprint()
      ensures repair != null ==> repair.Valid()
      ensures ret <==> a.permit.Some? && a.accepted
      ensures a.permit.None? ==> View() == old(View())
      ensures a.permit.Some? ==>
        var q := old(View()).(seqOffset := a.permit.value, permitted := Some(entry.key));
        View() == if ret then q.(pktflow := entry.key, threshCnt := entry.threshCnt) else q
      ensures repair != null ==> Notified(old(repair.View()), if ret then Some(entry.key) else None, granted, accepts)
    {
      if a.permit.None? {
        return false;
      }
      seqNumOffset := a.permit.value;
      permitted := Some(entry.key);
      ret := a.accepted;
      if ret {
        pktflowSrc, threshCnt := entry.key, entry.threshCnt;
      }
      if ret && erEnabled && repair != null {
        repair.PrimaryPktflowSrcUpdate(pktflowSrc, granted, accepts);
      }
    }

    /** The row to promote: the permitted one if it is active, else the most recent or the failover one. */
    static method Elect(t: Table, isSsm: bool) returns (k: nat)
      ensures k == Elected(t, isSsm)
    {
      k := FindPktflowEntry(t);
      if k == |t| || !t[k].active {
        if isSsm {
          k := FindMostRecentEntry(t);
        } else {
          k := FindFailoverEntry(t);
        }
      }
    }

    /** rtp_era_install_new_pktflow_src. */
    method InstallNewPktflowSrc(t: Table, a: Answers, granted: Option<Keys>, accepts: SourceId -> bool)
      returns (ret: bool)
      requires repair != null ==> repair.Valid()
      modifies this, RepairFootprint()
      ensures repair != null ==> repair.Valid()
      ensures View() == Install(old(View()), t, isSsm, a).next
      ensures repair != null ==>
              Notified(old(repair.View()), Install(old(View()), t, isSsm, a).promoted, granted, accepts)
      ensures ElectionIs(old(View()), t, isSsm, a, Outcome(View(), Install(old(View()), t, isSsm, a).promoted))
    {
      InstallIs(View(), t, isSsm, a);
      var k := Elect(t, isSsm);
      ret := true;
      if k != |t| {
        ret := PromoteSrc(t[k], a, granted, accepts);
      }
      if !ret {
        EnterErrorState();
        state := Error;
      } else if k != |t| {
        state := Active;
      } else if |t| != 0 {
        state := Inactive;
      }
    }

    /** rtp_era_update_pktflow_src. */
    method UpdatePktflowSrc(t: Table, a: Answers, granted: Option<Keys>, accepts: SourceId -> bool) returns (ret: bool)
      requires repair != null ==> repair.Valid()
      modifies this, RepairFootprint()
      ensures repair != null ==> repair.Valid()
      ensures View() == Update(old(View()), t, isSsm, a).next
      ensures repair != null ==>
              Notified(old(repair.View()), Update(old(View()), t, isSsm, a).promoted, granted, accepts)
    {
      if pktflowSrc == NULL_ID {
        ret := InstallNewPktflowSrc(t, a, granted, accepts);
        return;
      }
      var k := FindPktflowEntry(t);
      if k < |t| && t[k].key == pktflowSrc {
        if !t[k].active {
          threshCnt := t[k].threshCnt;
          ret := InstallNewPktflowSrc(t, a, granted, accepts);
        } else if threshCnt != t[k].threshCnt {
          ret := a.accepted;
          if ret {
            threshCnt := t[k].threshCnt;
          }
          if ret {
            state := Active;
          } else {
            EnterErrorState();
            state := Error;
          }
        } else {
          ret := true;
        }
      } else {
        ret := InstallNewPktflowSrc(t, a, granted, accepts);
      }
    }

    /** rtp_era_upcall_ev; its assertion that first-wait has no source is proved. */
    method UpcallEv(t: Table, a: Answers, granted: Option<Keys>, accepts: SourceId -> bool)
      requires Valid()
      modifies this, RepairFootprint()
      ensures Valid()
      ensures View() == Upcall(old(View()), t, isSsm, a).next
      ensures repair != null ==>
              Notified(old(repair.View()), Upcall(old(View()), t, isSsm, a).promoted, granted, accepts)
    {
      UpcallKeepsInv(View(), t, isSsm, a);
      var ret;
      match state {
        case WaitFirst =>
          assert pktflowSrc == NULL_ID;
          ret := InstallNewPktflowSrc(t, a, granted, accepts);
        case Active =>
          ret := UpdatePktflowSrc(t, a, granted, accepts);
        case Inactive =>
          ret := UpdatePktflowSrc(t, a, granted, accepts);
        case Error =>
        case Shutdown =>
      }
    }

    /** rtp_era_shutdown_allow_byes. */
    method ShutdownAllowByes()
      requires Valid()
      modifies this
      ensures Valid() && View() == ShutDown(old(View()))
      ensures forall t, a :: Upcall(View(), t, isSsm, a) == Outcome(View(), None)
    {
      state := SessionState.Shutdown;
    }
  }
}
