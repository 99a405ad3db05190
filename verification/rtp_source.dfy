/**
 Identities of RTP senders and the source tables that the dataplane reports about them
 (rtp/rtp_util.c, eva/vqec-dp/vqec_dp_api_types.h, eva/vqec_rtp.h).
 */
module RtpSource {
  /** VQEC_DP_RTP_MAX_KNOWN_SOURCES: capacity of a dataplane table and of the repair cache. */
  const MAX_KNOWN_SOURCES := 3

  /** SSRC, source address and source port; two ids are the same when all three agree. */
  datatype SourceId = SourceId(ssrc: nat, addr: nat, port: nat)

  /** The id whose three parts are zero marks an empty slot. */
  const NULL_ID := SourceId(0, 0, 0)

  /** One row of a dataplane source table, as far as the primary session reads it. */
  datatype Entry = Entry(
    key: SourceId,
    active: bool,
    pktflowPermitted: bool,
    bufferForFailover: bool,
    threshCnt: nat,
    lastRxTime: int)

  /** A dataplane table for the primary session. */
  type Table = t: seq<Entry> | |t| <= MAX_KNOWN_SOURCES

  /** The keys of a dataplane table, which is all the repair session looks at. */
  type Keys = t: seq<SourceId> | |t| <= MAX_KNOWN_SOURCES

  datatype SessionState = WaitFirst | Active | Inactive | Error | Shutdown

  /** Number of non-null ids. */
  function Occupied(s: seq<SourceId>): (n: nat)
    ensures n <= |s|
  {
    if s == [] then 0 else (if s[0] == NULL_ID then 0 else 1) + Occupied(s[1..])
  }

  /** The set of non-null ids. */
  function Ids(s: seq<SourceId>): set<SourceId> {
    set id | id in s && id != NULL_ID
  }

  /** No non-null id occurs twice. */
  ghost predicate Distinct(s: seq<SourceId>) {
    forall i, j :: 0 <= i < j < |s| && s[i] == s[j] ==> s[i] == NULL_ID
  }

  lemma {:induction false} OccupiedUpdate(s: seq<SourceId>, i: nat, id: SourceId)
    requires i < |s|
    ensures Occupied(s[i := id]) ==
            Occupied(s) - (if s[i] == NULL_ID then 0 else 1) + (if id == NULL_ID then 0 else 1)
  {
    if i == 0 {
      assert s[i := id][1..] == s[1..];
    } else {
      assert s[i := id][1..] == s[1..][i - 1 := id];
      OccupiedUpdate(s[1..], i - 1, id);
    }
  }

  /** Among distinct ids, counting slots counts ids. */
  lemma {:induction false} OccupiedIsCardinality(s: seq<SourceId>)
    requires Distinct(s)
    ensures Occupied(s) == |Ids(s)|
  {
    if s != [] {
      var t := s[1..];
      assert Distinct(t) by {
        forall i, j | 0 <= i < j < |t| && t[i] == t[j] ensures t[i] == NULL_ID {
          assert s[i + 1] == s[j + 1];
        }
      }
      OccupiedIsCardinality(t);
      assert s == [s[0]] + t;
      if s[0] == NULL_ID {
        assert Ids(s) == Ids(t);
      } else {
        assert forall j :: 0 <= j < |t| ==> t[j] == s[j + 1];
        assert s[0] !in Ids(t);
        assert Ids(s) == Ids(t) + {s[0]};
      }
    }
  }

  lemma {:induction false} OccupiedZero(s: seq<SourceId>)
    requires Occupied(s) == 0
    ensures forall i :: 0 <= i < |s| ==> s[i] == NULL_ID
  {
    if s != [] {
      OccupiedZero(s[1..]);
      assert s == [s[0]] + s[1..];
    }
  }

  lemma {:induction false} OccupiedFull(s: seq<SourceId>)
    ensures Occupied(s) == |s| <==> NULL_ID !in s
  {
    if s != [] {
      OccupiedFull(s[1..]);
      assert s == [s[0]] + s[1..];
    }
  }

  /** A subset of equal size is the whole set. */
  lemma {:induction false} SubsetOfSameSize<T>(a: set<T>, b: set<T>)
    requires a <= b && |a| == |b|
    ensures a == b
  {
    if x :| x in b && x !in a {
      SubsetSize(a, b - {x});
    }
  }

  lemma {:induction false} SubsetSize<T>(a: set<T>, b: set<T>)
    requires a <= b
    ensures |a| <= |b|
    decreases a
  {
    if x :| x in a {
      SubsetSize(a - {x}, b - {x});
    }
  }
}
