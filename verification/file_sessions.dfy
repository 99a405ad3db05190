/**
 What the sessions of a lineup file are, segment by segment: the texts between its boundary lines, without
 comments and blank lines, cut at the size of the session buffer, empty ones left out.
 */
module FileSessions {
  import opened SessionReader

  /** Comments and lines that are blank or begin with a blank. */
  predicate Stripped(l: Line)
    requires |l| > 0
  {
    l[0] in {'#', '\r', '\n', ' '}
  }

  /** The lines that are not stripped, in order. */
  ghost function Content(ls: seq<Line>): (r: seq<Line>)
    requires AreLines(ls)
    ensures |r| <= |ls| && AreLines(r)
  {
    if ls == [] then []
    else if Stripped(ls[0]) then Content(ls[1..])
    else [ls[0]] + Content(ls[1..])
  }

  /** One after the other. */
  ghost function Flat(ls: seq<Line>): string { if ls == [] then [] else ls[0] + Flat(ls[1..]) }

  /**
   The text stored for a segment: of its content the longest run of lines from the start that stays below the
   size of the buffer.
   */
  ghost predicate Stored(ls: seq<Line>, text: string)
    requires AreLines(ls)
  {
    exists n :: 0 <= n <= |Content(ls)| && StoredUpTo(Content(ls), n, text)
  }

  ghost predicate StoredUpTo(content: seq<Line>, n: nat, text: string)
    requires n <= |content|
  {
    && text == Flat(content[..n]) && |text| < MAX_SESSION_SIZE
    && (n < |content| ==> |Flat(content[..n + 1])| >= MAX_SESSION_SIZE)
  }

  lemma {:induction false} FlatAppend(a: seq<Line>, b: seq<Line>)
    ensures Flat(a + b) == Flat(a) + Flat(b)
    decreases |a|
  {
    if a == [] {
      assert a + b == b;
    } else {
      assert (a + b)[1..] == a[1..] + b;
      FlatAppend(a[1..], b);
    }
  }

  lemma {:induction false} ContentSnoc(ls: seq<Line>, l: Line)
    requires AreLines(ls) && IsLine(l)
    ensures AreLines(ls + [l]) && Content(ls + [l]) == if Stripped(l) then Content(ls) else Content(ls) + [l]
    decreases |ls|
  {
    var t := ls + [l];
    assert AreLines(t);
    if ls == [] {
      assert t == [l] && t[1..] == [];
    } else {
      assert t[1..] == ls[1..] + [l];
      ContentSnoc(ls[1..], l);
    }
  }

  lemma {:induction false} FlatOfOne(l: Line)
    ensures Flat([l]) == l
  {
    assert [l][1..] == [] && Flat([]) == "";
  }

  /** What is joined is the content. */
  lemma {:induction false} JoinedIsFlat(ls: seq<Line>)
    requires AreLines(ls)
    ensures Joined(ls) == Flat(Content(ls))
    decreases |ls|
  {
    if ls != [] {
      var init, l := ls[..|ls| - 1], ls[|ls| - 1];
      assert ls == init + [l];
      JoinedIsFlat(init);
      ContentSnoc(init, l);
      FlatAppend(Content(init), [l]);
      FlatOfOne(l);
    }
  }

  lemma {:induction false} StoredStays(content: seq<Line>, l: Line, n: nat, text: string)
    requires n <= |content| && StoredUpTo(content, n, text)
    requires |Flat(content)| + |l| >= MAX_SESSION_SIZE
    ensures StoredUpTo(content + [l], n, text)
  {
    var t := content + [l];
    assert t[..n] == content[..n];
    if n < |content| {
      assert t[..n + 1] == content[..n + 1];
    } else {
      assert content[..n] == content && t[..n + 1] == content + [l];
      FlatAppend(content, [l]);
      FlatOfOne(l);
    }
  }

  /** The text of a segment is what is stored for it. */
  lemma {:induction false} TextIsStored(ls: seq<Line>)
    requires AreLines(ls)
    ensures Stored(ls, Text(ls))
    decreases |ls|
  {
    JoinedIsFlat(ls);
    var content := Content(ls);
    if |Joined(ls)| < MAX_SESSION_SIZE {
      assert content[..|content|] == content;
      assert StoredUpTo(content, |content|, Text(ls));
    } else {
      var init, l := ls[..|ls| - 1], ls[|ls| - 1];
      assert ls == init + [l];
      TextIsStored(init);
      var n :| 0 <= n <= |Content(init)| && StoredUpTo(Content(init), n, Text(init));
      ContentSnoc(init, l);
      if !Stripped(l) {
        FlatAppend(Content(init), [l]);
        FlatOfOne(l);
        StoredStays(Content(init), l, n, Text(init));
      }
      assert StoredUpTo(Content(ls), n, Text(ls));
    }
  }

  // ----- a whole file -----

  /** Lines without a boundary. */
  predicate Segment(ls: seq<Line>) { AreLines(ls) && forall i :: 0 <= i < |ls| ==> !Boundary(ls[i]) }

  ghost predicate Segments(segs: seq<seq<Line>>, cuts: seq<Line>) {
    && |segs| == |cuts| + 1
    && (forall i :: 0 <= i < |segs| ==> Segment(segs[i]))
    && (forall i :: 0 <= i < |cuts| ==> IsLine(cuts[i]) && Boundary(cuts[i]))
  }

  /** The segments with a boundary line between each two. */
  ghost function Woven(segs: seq<seq<Line>>, cuts: seq<Line>): seq<Line>
    requires |segs| == |cuts| + 1
    decreases |cuts|
  {
    if cuts == [] then segs[0]
    else Woven(segs[..|cuts|], cuts[..|cuts| - 1]) + [cuts[|cuts| - 1]] + segs[|cuts|]
  }

  /** The texts that are not empty. */
  ghost function Filled(texts: seq<string>): seq<string> {
    if texts == [] then []
    else
      var n := |texts| - 1;
      Filled(texts[..n]) + NonEmpty(texts[n])
  }

  ghost predicate AllStored(segs: seq<seq<Line>>, texts: seq<string>) {
    && |texts| == |segs|
    && forall i :: 0 <= i < |segs| ==> AreLines(segs[i]) && Stored(segs[i], texts[i])
  }

  lemma {:induction false} AllStoredSnoc(segs: seq<seq<Line>>, texts: seq<string>, seg: seq<Line>)
    requires AllStored(segs, texts) && AreLines(seg)
    ensures AllStored(segs + [seg], texts + [Text(seg)])
    ensures Filled(texts + [Text(seg)]) == Filled(texts) + NonEmpty(Text(seg))
  {
    TextIsStored(seg);
    assert (texts + [Text(seg)])[..|texts|] == texts;
  }

  /** The closed sessions are those of all segments but the last, which is still open. */
  lemma {:induction false} WovenIs(segs: seq<seq<Line>>, cuts: seq<Line>) returns (texts: seq<string>)
    requires Segments(segs, cuts)
    ensures var ls := Woven(segs, cuts);
            AreLines(ls) && Tail(ls) == segs[|cuts|] && AllStored(segs[..|cuts|], texts) && Closed(ls) == Filled(texts)
    decreases |cuts|
  {
    var n := |cuts|;
    if n == 0 {
      TailExtends([], segs[0]);
      assert [] + segs[0] == segs[0] && segs[..0] == [];
      texts := [];
    } else {
      var before := Woven(segs[..n], cuts[..n - 1]);
      var ts := WovenIs(segs[..n], cuts[..n - 1]);
      assert segs[..n][..n - 1] == segs[..n - 1] && segs[..n] == segs[..n - 1] + [segs[n - 1]];
      OneMoreSegment(before, cuts[n - 1], segs[n]);
      AllStoredSnoc(segs[..n - 1], ts, segs[n - 1]);
      texts := ts + [Text(segs[n - 1])];
    }
  }

  lemma {:induction false} OneMoreSegment(ls: seq<Line>, cut: Line, seg: seq<Line>)
    requires AreLines(ls) && IsLine(cut) && Boundary(cut) && Segment(seg)
    ensures var t := ls + [cut] + seg;
            AreLines(t) && Tail(t) == seg && Closed(t) == Closed(ls) + NonEmpty(Text(Tail(ls)))
  {
    Closes(ls, cut);
    TailExtends(ls + [cut], seg);
    assert [] + seg == seg;
  }

  /**
   The sessions of a file are the stored texts of the segments between its boundary lines, in order, without the
   empty ones.
   */
  lemma {:induction false} SessionsAreStored(segs: seq<seq<Line>>, cuts: seq<Line>) returns (texts: seq<string>)
    requires Segments(segs, cuts)
    ensures AllStored(segs, texts) && AreLines(Woven(segs, cuts)) && Sessions(Woven(segs, cuts)) == Filled(texts)
  {
    var n := |cuts|;
    var ts := WovenIs(segs, cuts);
    assert segs == segs[..n] + [segs[n]];
    AllStoredSnoc(segs[..n], ts, segs[n]);
    texts := ts + [Text(segs[n])];
  }
}
