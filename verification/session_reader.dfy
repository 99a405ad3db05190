/**
 The line loop of cfg_db_read_channels: it cuts a lineup file into the texts of its sessions, and
 cfg_db_write_channels as its inverse.
 */
module SessionReader {
  import opened Sequences

  const MAX_LINE_LENGTH := 512
  const MAX_SESSION_SIZE := 4096

  type Line = string

  /** What fgets returns: at least one byte, and room for the terminating null. */
  predicate IsLine(l: Line) { 0 < |l| < MAX_LINE_LENGTH }

  predicate AreLines(ls: seq<Line>) { forall i :: 0 <= i < |ls| ==> IsLine(ls[i]) }

  predicate Boundary(l: Line) { |l| > 1 && l[0] == '-' && l[1] == '-' }

  /** Comments and blank lines are stripped. */
  predicate Kept(l: Line)
    requires |l| > 0
  {
    l[0] != '#' && l[0] != '\r' && l[0] != '\n' && l[0] != ' '
  }

  // ----- what the sessions of a file are -----

  /** The kept lines among ls, joined. */
  function Joined(ls: seq<Line>): string
    requires AreLines(ls)
  {
    if ls == [] then []
    else Joined(ls[..|ls| - 1]) + if Kept(ls[|ls| - 1]) then ls[|ls| - 1] else []
  }

  /** The text of a session: as many of its lines as stay below the size of the session buffer. */
  function Text(ls: seq<Line>): string
    requires AreLines(ls)
  {
    if ls == [] then []
    else if |Joined(ls)| < MAX_SESSION_SIZE then Joined(ls)
    else Text(ls[..|ls| - 1])
  }

  /** The lines after the last boundary. */
  function Tail(ls: seq<Line>): (t: seq<Line>)
    requires AreLines(ls)
    ensures AreLines(t)
  {
    if ls == [] || Boundary(ls[|ls| - 1]) then [] else Tail(ls[..|ls| - 1]) + [ls[|ls| - 1]]
  }

  function NonEmpty(t: string): seq<string> { if t == [] then [] else [t] }

  /** The texts of the sessions that a boundary has closed. */
  function Closed(ls: seq<Line>): seq<string>
    requires AreLines(ls)
  {
    if ls == [] then []
    else
      var init := ls[..|ls| - 1];
      Closed(init) + if Boundary(ls[|ls| - 1]) then NonEmpty(Text(Tail(init))) else []
  }

  /** The texts of all sessions; empty ones do not count. */
  function Sessions(ls: seq<Line>): seq<string>
    requires AreLines(ls)
  {
    Closed(ls) + NonEmpty(Text(Tail(ls)))
  }

  // ----- the loop -----

  /** Nothing is kept without being stored, as a single line always fits. */
  lemma {:induction false} TextEmptyIff(ls: seq<Line>)
    requires AreLines(ls)
    ensures Text(ls) == [] <==> Joined(ls) == []
    ensures |Text(ls)| < MAX_SESSION_SIZE
    ensures Text(ls) != [] ==> Text(ls)[0] != '\r' && Text(ls)[0] != '\n'
  {
    if Joined(ls) != [] {
      JoinedStart(ls);
    }
    if ls != [] && |Joined(ls)| >= MAX_SESSION_SIZE {
      var init := ls[..|ls| - 1];
      TextEmptyIff(init);
      assert |Joined(ls)| <= |Joined(init)| + |ls[|ls| - 1]|;
    }
  }

  lemma {:induction false} JoinedStart(ls: seq<Line>)
    requires AreLines(ls) && Joined(ls) != []
    ensures Joined(ls)[0] != '\r' && Joined(ls)[0] != '\n'
  {
    var init := ls[..|ls| - 1];
    if Joined(init) != [] {
      JoinedStart(init);
    }
  }

  /** One more line: it is stored if the length with it stays below the buffer size. */
  lemma {:induction false} TextOneMore(ls: seq<Line>, l: Line)
    requires AreLines(ls) && IsLine(l)
    ensures AreLines(ls + [l])
    ensures Joined(ls + [l]) == Joined(ls) + if Kept(l) then l else []
    ensures !Kept(l) ==> Text(ls + [l]) == Text(ls)
    ensures Kept(l) && |Joined(ls)| + |l| >= MAX_SESSION_SIZE ==> Text(ls + [l]) == Text(ls)
    ensures Kept(l) && |Joined(ls)| + |l| < MAX_SESSION_SIZE ==> Text(ls + [l]) == Text(ls) + l
  {
    var t := ls + [l];
    assert t[..|t| - 1] == ls && t[|t| - 1] == l;
    assert |Joined(ls)| < MAX_SESSION_SIZE ==> Text(ls) == Joined(ls);
  }

  /** What one more line does to what is closed, open and kept. */
  lemma {:induction false} LineRead(lines: seq<Line>, i: nat)
    requires AreLines(lines) && i < |lines|
    ensures var ls, l, ls' := lines[..i], lines[i], lines[..i + 1];
            if Boundary(l) then Tail(ls') == [] && Closed(ls') == Closed(ls) + NonEmpty(Text(Tail(ls)))
            else Tail(ls') == Tail(ls) + [l] && Closed(ls') == Closed(ls)
  {
    assert lines[..i + 1][..i] == lines[..i];
  }

  /** The loop of cfg_db_read_channels over its lines; the texts it hands on are the sessions of the file. */
  method ReadSessions(lines: seq<Line>) returns (sessions: seq<string>)
    requires AreLines(lines)
    ensures sessions == Sessions(lines)
    ensures forall i :: 0 <= i < |sessions| ==> 0 < |sessions[i]| < MAX_SESSION_SIZE
  {
    sessions := [];
    var sessionBuffer := "";
    var totalSessionLength := 0;
    ghost var tail: seq<Line> := [];
    var i := 0;
    while i < |lines|
      invariant 0 <= i <= |lines|
      invariant tail == Tail(lines[..i]) && sessions == Closed(lines[..i])
      invariant sessionBuffer == Text(tail) && totalSessionLength == |Joined(tail)|
      invariant forall j :: 0 <= j < |sessions| ==> 0 < |sessions[j]| < MAX_SESSION_SIZE
    {
      LineRead(lines, i);
      TextEmptyIff(tail);
      var closed;
      sessionBuffer, totalSessionLength, closed := ReadOne(lines[i], sessionBuffer, totalSessionLength, tail);
      sessions := sessions + closed;
      tail := if Boundary(lines[i]) then [] else tail + [lines[i]];
      i := i + 1;
    }
    assert lines[..i] == lines;
    TextEmptyIff(tail);
    if sessionBuffer != "" && sessionBuffer[0] != '\r' && sessionBuffer[0] != '\n' {
      sessions := sessions + [sessionBuffer];
    }
  }

  /** One line: a boundary hands the session on, another line is stripped, stored or dropped. */
  method ReadOne(line: Line, buffer: string, total: nat, ghost tail: seq<Line>)
    returns (buffer': string, total': nat, closed: seq<string>)
    requires IsLine(line) && AreLines(tail) && buffer == Text(tail) && total == |Joined(tail)|
    ensures Boundary(line) ==> buffer' == "" && total' == 0 && closed == NonEmpty(buffer)
    ensures !Boundary(line) ==>
              AreLines(tail + [line]) && buffer' == Text(tail + [line]) && total' == |Joined(tail + [line])|
              && closed == []
  {
    buffer', total', closed := buffer, total, [];
    TextEmptyIff(tail);
    if |line| > 1 && line[0] == '-' && line[1] == '-' {
      // An empty session leaves the length as it was, which is zero.
      if buffer == "" {
        return;
      }
      return "", 0, [buffer];
    }
    TextOneMore(tail, line);
    if line[0] != '#' && line[0] != '\r' && line[0] != '\n' && line[0] != ' ' {
      total' := total + |line|;
      if total' < MAX_SESSION_SIZE {
        buffer' := buffer + line;
      }
    }
  }

  // ----- writing and reading back -----

  const BLANK: Line := "\n"
  const DIVIDER: Line := "--50UBfW7LSCVLtggUPe5z\n"
  const SEPARATOR: seq<Line> := [BLANK, BLANK, DIVIDER, BLANK, BLANK]
  const HEADER: seq<Line> := ["#\n", "# Channel Configuration File\n", "#\n", BLANK]

  /** A session as it is printed: lines that are kept and no boundaries, within the size of the buffer. */
  predicate Printed(ls: seq<Line>) {
    && ls != []
    && AreLines(ls)
    && (forall i :: 0 <= i < |ls| ==> Kept(ls[i]) && !Boundary(ls[i]))
    && |Joined(ls)| < MAX_SESSION_SIZE
  }

  /** The lines cfg_db_write_channels emits for the channels before position n; an inactive channel has none. */
  function Written(chans: seq<seq<Line>>, n: nat): seq<Line>
    requires n <= |chans|
  {
    if n == 0 then HEADER
    else
      Written(chans, n - 1) + chans[n - 1] +
      if chans[n - 1] != [] && n != |chans| then SEPARATOR else []
  }

  /** The texts of the channels that are not left out. */
  function Texts(chans: seq<seq<Line>>, n: nat): seq<string>
    requires n <= |chans| && forall i :: 0 <= i < n ==> chans[i] == [] || Printed(chans[i])
  {
    if n == 0 then []
    else
      var c := chans[n - 1];
      Texts(chans, n - 1) + if c == [] then [] else assert Printed(c); [Joined(c)]
  }

  /** Lines without a boundary extend the open session. */
  lemma {:induction false} TailExtends(ls: seq<Line>, more: seq<Line>)
    requires AreLines(ls) && AreLines(more) && forall i :: 0 <= i < |more| ==> !Boundary(more[i])
    ensures AreLines(ls + more) && Tail(ls + more) == Tail(ls) + more && Closed(ls + more) == Closed(ls)
    decreases |more|
  {
    if more == [] {
      assert ls + more == ls;
    } else {
      var n, t := |more| - 1, ls + more;
      TailExtends(ls, more[..n]);
      assert t[..|t| - 1] == ls + more[..n] && t[|t| - 1] == more[n];
      assert more == more[..n] + [more[n]];
      Reassociate(Tail(ls), more[..n], [more[n]]);
    }
  }

  lemma {:induction false} JoinedAppend(a: seq<Line>, b: seq<Line>)
    requires AreLines(a) && AreLines(b)
    ensures AreLines(a + b) && Joined(a + b) == Joined(a) + Joined(b)
    decreases |b|
  {
    if b == [] {
      assert a + b == a;
    } else {
      var n, t := |b| - 1, a + b;
      var l := b[n];
      JoinedAppend(a, b[..n]);
      assert t[..|t| - 1] == a + b[..n] && t[|t| - 1] == l;
      Reassociate(Joined(a), Joined(b[..n]), if Kept(l) then l else []);
    }
  }

  lemma {:induction false} JoinedOfKept(ls: seq<Line>)
    requires AreLines(ls) && ls != [] && Kept(ls[|ls| - 1])
    ensures Joined(ls) != []
  {
  }

  lemma {:induction false} NothingKept(ls: seq<Line>)
    requires AreLines(ls) && forall i :: 0 <= i < |ls| ==> !Kept(ls[i])
    ensures Joined(ls) == []
  {
    if ls != [] {
      NothingKept(ls[..|ls| - 1]);
    }
  }

  lemma {:induction false} HeaderIsBlank()
    ensures AreLines(HEADER) && Tail(HEADER) == HEADER && Joined(HEADER) == [] && Closed(HEADER) == []
  {
    TailExtends([], HEADER);
    assert [] + HEADER == HEADER;
    NothingKept(HEADER);
  }

  /** Part way: the sessions so far are there, and what is open joins to nothing. */
  lemma {:induction false} WrittenSoFar(chans: seq<seq<Line>>, n: nat)
    requires n < |chans| && forall i :: 0 <= i < n ==> chans[i] == [] || Printed(chans[i])
    ensures var ls := Written(chans, n); AreLines(ls) && Joined(Tail(ls)) == [] && Closed(ls) == Texts(chans, n)
  {
    if n == 0 {
      HeaderIsBlank();
    } else {
      WrittenSoFar(chans, n - 1);
      var before, c := Written(chans, n - 1), chans[n - 1];
      if c != [] {
        SessionClosed(before, c);
        assert Written(chans, n) == before + c + SEPARATOR;
      } else {
        assert Written(chans, n) == before;
      }
    }
  }

  lemma {:induction false} SessionOpen(before: seq<Line>, c: seq<Line>)
    requires AreLines(before) && Joined(Tail(before)) == [] && Printed(c)
    ensures AreLines(before + c) && Closed(before + c) == Closed(before) && Text(Tail(before + c)) == Joined(c) != []
  {
    TailExtends(before, c);
    JoinedAppend(Tail(before), c);
    JoinedOfKept(c);
  }

  /** A separator closes the open session and leaves blank lines behind. */
  lemma {:induction false} Separated(ls: seq<Line>)
    requires AreLines(ls)
    ensures var t := ls + SEPARATOR;
            AreLines(t) && Joined(Tail(t)) == [] && Closed(t) == Closed(ls) + NonEmpty(Text(Tail(ls)))
  {
    DividedBy(ls, BLANK, DIVIDER);
    assert SEPARATOR == [BLANK, BLANK, DIVIDER, BLANK, BLANK];
  }

  lemma {:induction false} DividedBy(ls: seq<Line>, b: Line, d: Line)
    requires AreLines(ls) && IsLine(b) && !Kept(b) && !Boundary(b) && IsLine(d) && Boundary(d)
    ensures var t := ls + [b, b, d, b, b];
            AreLines(t) && Joined(Tail(t)) == [] && Closed(t) == Closed(ls) + NonEmpty(Text(Tail(ls)))
  {
    var t := ls + [b, b] + [d];
    BlankLines(ls, b);
    Closes(ls + [b, b], d);
    BlankLines(t, b);
    assert ls + [b, b, d, b, b] == t + [b, b];
  }

  /** A boundary closes the open session. */
  lemma {:induction false} Closes(ls: seq<Line>, d: Line)
    requires AreLines(ls) && IsLine(d) && Boundary(d)
    ensures var t := ls + [d]; AreLines(t) && Tail(t) == [] && Closed(t) == Closed(ls) + NonEmpty(Text(Tail(ls)))
  {
    var t := ls + [d];
    assert t[..|t| - 1] == ls && t[|t| - 1] == d;
  }

  /** Blank lines change neither the text of the open session nor what is closed. */
  lemma {:induction false} BlankLines(ls: seq<Line>, b: Line)
    requires AreLines(ls) && IsLine(b) && !Kept(b) && !Boundary(b)
    ensures var t := ls + [b, b];
            AreLines(t) && Closed(t) == Closed(ls)
            && Text(Tail(t)) == Text(Tail(ls)) && Joined(Tail(t)) == Joined(Tail(ls))
  {
    TailExtends(ls, [b, b]);
    TextOneMore(Tail(ls), b);
    TextOneMore(Tail(ls) + [b], b);
    assert Tail(ls) + [b] + [b] == Tail(ls) + [b, b];
  }

  lemma {:induction false} SessionClosed(before: seq<Line>, c: seq<Line>)
    requires AreLines(before) && Joined(Tail(before)) == [] && Printed(c)
    ensures var ls := before + c + SEPARATOR;
            AreLines(ls) && Joined(Tail(ls)) == [] && Closed(ls) == Closed(before) + [Joined(c)]
  {
    SessionOpen(before, c);
    Separated(before + c);
  }

  /** Reading what was written gives the printed channels back, in order and one session each. */
  lemma {:induction false} WriteThenRead(chans: seq<seq<Line>>)
    requires forall i :: 0 <= i < |chans| ==> chans[i] == [] || Printed(chans[i])
    ensures AreLines(Written(chans, |chans|)) && Sessions(Written(chans, |chans|)) == Texts(chans, |chans|)
  {
    if chans == [] {
      HeaderIsBlank();
      TextEmptyIff(HEADER);
    } else {
      var n := |chans| - 1;
      WrittenSoFar(chans, n);
      var before, c := Written(chans, n), chans[n];
      assert Written(chans, |chans|) == before + c;
      if c != [] {
        SessionOpen(before, c);
      } else {
        assert before + c == before;
        TextEmptyIff(Tail(before));
      }
    }
  }
}
