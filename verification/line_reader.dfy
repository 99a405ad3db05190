/**
 The line reader of cfg/cfg_config.c: it copies one line of a text buffer, ending it with LF whether the
 text has LF or CR LF, and returns where the next line starts.
 */
module LineReader {
  import opened Sequences

  /** A byte that ends a line. */
  predicate EndsLine(c: char) { c == '\n' || c == '\r' }

  /** The number of bytes before the first terminator, or all of them. */
  function Run(s: string): (n: nat)
    ensures n <= |s|
    ensures n < |s| ==> EndsLine(s[n])
    ensures forall i :: 0 <= i < n ==> !EndsLine(s[i])
  {
    if s == [] || EndsLine(s[0]) then 0 else 1 + Run(s[1..])
  }

  /** What follows the bytes of a line: CR is taken to be the first half of CR LF. */
  function TerminatorLength(s: string): nat {
    var n := Run(s);
    if n == |s| then 0 else if s[n] == '\n' then 1 else 2
  }

  /** The line at the front of s as it is handed out. */
  function LineText(s: string): string {
    s[..Run(s)] + if Run(s) < |s| then "\n" else ""
  }

  /** How far a read of a rest s with a buffer of max bytes advances: not at all if the line does not end in time. */
  function Advance(s: string, max: nat): nat {
    var n := Run(s);
    if n == |s| <= max then |s|
    else if n < max && n < |s| then n + TerminatorLength(s)
    else 0
  }

  /** What the read leaves in the buffer before the padding. */
  function Copied(s: string, max: nat): (t: string)
    ensures |t| <= max
  {
    if Run(s) < max then LineText(s) else s[..max]
  }

  function Padded(t: string, max: nat): (r: string)
    requires |t| <= max
    ensures |r| == max
  {
    t + seq(max - |t|, _ => '\0')
  }

  /** read_line. */
  method ReadLine(lineBuffer: array<char>, whole: string, start: nat) returns (next: int)
    modifies lineBuffer
    ensures start >= |whole| ==> next == -1 && lineBuffer[..] == old(lineBuffer[..])
    ensures start < |whole| ==>
              && next == start + Advance(whole[start..], lineBuffer.Length)
              && lineBuffer[..] == Padded(Copied(whole[start..], lineBuffer.Length), lineBuffer.Length)
  {
    if start >= |whole| {
      return -1;
    }
    ghost var s, max := whole[start..], lineBuffer.Length;
    forall i | 0 <= i < lineBuffer.Length {
      lineBuffer[i] := '\0';
    }
    var res, count := 0, 0;
    while start + count < |whole| && count < lineBuffer.Length
      invariant 0 <= count <= max && start + count <= |whole| && res == 0
      invariant count <= Run(s)
      invariant lineBuffer[..] == Padded(s[..count], max)
    {
      assert whole[start + count] == s[count];
      if whole[start + count] == '\n' {
        lineBuffer[count] := '\n';
        assert lineBuffer[..] == Padded(s[..count] + "\n", max);
        count := count + 1;
        res := count;
        break;
      }
      if whole[start + count] == '\r' {
        lineBuffer[count] := '\n';
        assert lineBuffer[..] == Padded(s[..count] + "\n", max);
        count := count + 2;
        res := count;
        break;
      }
      lineBuffer[count] := whole[start + count];
      assert s[..count + 1] == s[..count] + [s[count]];
      assert lineBuffer[..] == Padded(s[..count + 1], max);
      count := count + 1;
    }
    if res == 0 && start + count == |whole| {
      if count < lineBuffer.Length {
        lineBuffer[count] := '\0';
      }
      assert lineBuffer[..] == Padded(s[..count], max);
      return |whole|;
    }
    next := start + res;
  }

  /**
   A read makes no progress exactly when none of the next max bytes ends a line and the text goes on
   after them.
   */
  lemma {:induction false} StuckIff(s: string, max: nat)
    requires s != []
    ensures Advance(s, max) == 0 <==> |s| > max && forall i :: 0 <= i < max ==> !EndsLine(s[i])
  {
    var n := Run(s);
    if n < max && n < |s| {
      assert EndsLine(s[n]);
    }
  }

  // ----- reading a whole text -----

  /** Every line ends within the buffer, or with the text. */
  predicate LinesEnd(s: string, max: nat)
    decreases |s|
  {
    s == [] || ((Run(s) < max || |s| <= max) && LinesEnd(Rest(s), max))
  }

  /** What is left of the text at a position. */
  function At(whole: string, p: nat): string { if p < |whole| then whole[p..] else [] }

  /** Where the call after a call at p starts. */
  function NextPosition(whole: string, max: nat, p: nat): nat {
    if p >= |whole| then p else p + Advance(whole[p..], max)
  }

  /** Where the call after n calls starts. */
  function Position(whole: string, max: nat, n: nat): nat {
    if n == 0 then 0 else NextPosition(whole, max, Position(whole, max, n - 1))
  }

  /** What holds at a position if it holds at the next, holds at the start if it holds after n calls. */
  lemma {:induction false} HoldsFromStart(q: nat -> bool, whole: string, max: nat, n: nat)
    requires forall p: nat {:trigger NextPosition(whole, max, p)} :: q(NextPosition(whole, max, p)) ==> q(p)
    requires q(Position(whole, max, n))
    ensures q(0)
    decreases n
  {
    if n > 0 {
      HoldsFromStart(q, whole, max, n - 1);
    }
  }

  /** If every call keeps q and goes on, the calls come to the end. */
  lemma {:induction false} EndIsReached(q: nat -> bool, whole: string, max: nat, n: nat)
    requires forall p: nat {:trigger NextPosition(whole, max, p)} :: q(p) && p < |whole| ==>
               q(NextPosition(whole, max, p)) && NextPosition(whole, max, p) > p
    requires q(Position(whole, max, n))
    ensures exists k :: Position(whole, max, k) >= |whole|
    decreases |whole| - Position(whole, max, n)
  {
    if Position(whole, max, n) < |whole| {
      assert Position(whole, max, n + 1) == NextPosition(whole, max, Position(whole, max, n));
      EndIsReached(q, whole, max, n + 1);
    }
  }

  /** A call passes over the line at its position, or stays where it is. */
  lemma {:induction false} LineAt(whole: string, max: nat, p: nat)
    requires p < |whole|
    ensures var s, p' := At(whole, p), NextPosition(whole, max, p);
            if Run(s) < max || |s| <= max then p' > p && At(whole, p') == Rest(s) else p' == p
  {
    StuckIff(whole[p..], max);
    if Advance(whole[p..], max) > 0 {
      RestOf(whole, p, p + Run(whole[p..]) + TerminatorLength(whole[p..]));
    }
  }

  /** Going over a line keeps whether the lines end. */
  lemma {:induction false} EndsAt(whole: string, max: nat, p: nat)
    requires p < |whole|
    ensures var p' := NextPosition(whole, max, p);
            LinesEnd(At(whole, p), max) <==> p' > p && LinesEnd(At(whole, p'), max)
  {
    LineAt(whole, max, p);
  }

  /**
   Repeated reads reach the end of the text, where read_line returns -1, exactly when every line has its
   terminator within the buffer or, for the last line, ends with the text. Otherwise the reading loop hangs.
   */
  lemma {:induction false} ReadsEndIff(whole: string, max: nat)
    ensures (exists n :: Position(whole, max, n) >= |whole|) <==> LinesEnd(whole, max)
  {
    var q := (p: nat) => LinesEnd(At(whole, p), max);
    assert At(whole, 0) == whole;
    if LinesEnd(whole, max) {
      forall p: nat | q(p) && p < |whole| ensures q(NextPosition(whole, max, p)) && NextPosition(whole, max, p) > p {
        EndsAt(whole, max, p);
      }
      EndIsReached(q, whole, max, 0);
    }
    if n :| Position(whole, max, n) >= |whole| {
      ReachedFromStart(whole, max, n);
    }
  }

  lemma {:induction false} ReachedFromStart(whole: string, max: nat, n: nat)
    requires Position(whole, max, n) >= |whole|
    ensures LinesEnd(whole, max)
  {
    var q := (p: nat) => p >= |whole| || LinesEnd(At(whole, p), max);
    assert At(whole, 0) == whole;
    forall p: nat | q(NextPosition(whole, max, p)) ensures q(p) {
      if p < |whole| {
        StepBack(whole, max, p);
      }
    }
    HoldsFromStart(q, whole, max, n);
  }

  /** A call that stays where it is tells nothing new; one that goes on passes over a line that ends. */
  lemma {:induction false} StepBack(whole: string, max: nat, p: nat)
    requires p < |whole| && LinesEnd(At(whole, NextPosition(whole, max, p)), max)
    ensures LinesEnd(At(whole, p), max)
  {
    EndsAt(whole, max, p);
  }

  predicate CrBeforeLf(s: string) {
    forall i :: 0 <= i < |s| && s[i] == '\r' ==> i + 1 < |s| && s[i + 1] == '\n'
  }

  /** The text with CR LF replaced by LF. */
  function Normalized(s: string): string {
    if s == [] then []
    else if |s| > 1 && s[0] == '\r' && s[1] == '\n' then "\n" + Normalized(s[2..])
    else [s[0]] + Normalized(s[1..])
  }

  /** What is left after the first line. */
  function Rest(s: string): string {
    var n := Run(s) + TerminatorLength(s);
    s[if n < |s| then n else |s|..]
  }

  /** The lines of a text, in order, one after the other. */
  function AllText(s: string): string
    decreases |s|
  {
    if s == [] then [] else LineText(s) + AllText(Rest(s))
  }

  function CString(buffer: string): string {
    if buffer == [] || buffer[0] == '\0' then [] else [buffer[0]] + CString(buffer[1..])
  }

  lemma {:induction false} CStringOfPadded(t: string, max: nat)
    requires |t| <= max && '\0' !in t
    ensures CString(Padded(t, max)) == t
  {
    var p := Padded(t, max);
    if t != [] {
      assert p[1..] == Padded(t[1..], max - 1);
      CStringOfPadded(t[1..], max - 1);
    }
  }

  /** A line that ends in time is passed over, and its text is what the buffer holds as a C string. */
  lemma {:induction false} FittingLine(s: string, max: nat)
    requires s != [] && LinesEnd(s, max) && '\0' !in s
    ensures Advance(s, max) == Run(s) + TerminatorLength(s) > 0
    ensures CString(Padded(Copied(s, max), max)) == LineText(s)
    ensures '\0' !in Rest(s)
  {
    assert Copied(s, max) == LineText(s);
    CStringOfPadded(LineText(s), max);
  }

  /** What is left of the text is left of its rest. */
  lemma {:induction false} RestOf(whole: string, start: nat, next: nat)
    requires start < |whole| && next == start + Run(whole[start..]) + TerminatorLength(whole[start..])
    ensures Rest(whole[start..]) == if next < |whole| then whole[next..] else []
  {
  }

  /** The read-line loop of cfg_parse_all_channel_data, collecting the lines as C strings; it ends if the lines do. */
  method ReadAll(whole: string, maxLength: nat) returns (text: string)
    requires LinesEnd(whole, maxLength) && '\0' !in whole
    ensures text == AllText(whole)
    ensures text == Normalized(whole) <==> CrBeforeLf(whole)
  {
    AllTextIff(whole);
    var lineBuffer := new char[maxLength](_ => '\0');
    var start := 0;
    text := [];
    ghost var rest := whole;
    while true
      invariant 0 <= start
      invariant rest == if start < |whole| then whole[start..] else []
      invariant LinesEnd(rest, maxLength)
      invariant text + AllText(rest) == AllText(whole) && '\0' !in rest
      decreases |rest|
    {
      var next := ReadLine(lineBuffer, whole, start);
      if next == -1 {
        return;
      }
      FittingLine(rest, maxLength);
      RestOf(whole, start, next);
      var line := CString(lineBuffer[..]);
      assert line == LineText(rest);
      Reassociate(text, line, AllText(Rest(rest)));
      text := text + line;
      start := next;
      rest := Rest(rest);
    }
  }

  lemma {:induction false} NormalizedRun(s: string, n: nat)
    requires n <= Run(s)
    ensures Normalized(s) == s[..n] + Normalized(s[n..])
  {
    if n > 0 {
      NormalizedRun(s[1..], n - 1);
      assert s[..n] == [s[0]] + s[1..][..n - 1] && s[1..][n - 1..] == s[n..];
    } else {
      assert s[n..] == s;
    }
  }

  /** The text of a first line that ends. */
  lemma {:induction false} FirstLine(s: string)
    requires Run(s) < |s|
    ensures AllText(s) == s[..Run(s)] + (['\n'] + AllText(Rest(s)))
  {
    assert LineText(s) == s[..Run(s)] + ['\n'];
    Reassociate(s[..Run(s)], ['\n'], AllText(Rest(s)));
  }

  /** A first line that ends well is normalized by itself. */
  lemma {:induction false} FirstLineNormalized(s: string)
    requires Run(s) < |s| && (s[Run(s)] == '\n' || (Run(s) + 1 < |s| && s[Run(s) + 1] == '\n'))
    ensures Normalized(s) == s[..Run(s)] + (['\n'] + Normalized(Rest(s)))
  {
    var n := Run(s);
    NormalizedRun(s, n);
    var t := s[n..];
    assert t[0] == s[n];
    if s[n] == '\n' {
      assert t[1..] == Rest(s);
    } else {
      assert t[1] == s[n + 1] == '\n';
      assert t[2..] == s[n + 2..] == Rest(s);
    }
  }

  /** A CR on its own is kept by normalizing, and becomes an LF in the line. */
  lemma {:induction false} LoneCr(s: string)
    requires Run(s) < |s| && s[Run(s)] == '\r' && !(Run(s) + 1 < |s| && s[Run(s) + 1] == '\n')
    ensures AllText(s) != Normalized(s)
  {
    var n := Run(s);
    FirstLine(s);
    NormalizedRun(s, n);
    assert s[n..][0] == '\r';
    assert AllText(s)[n] == '\n';
    assert Normalized(s)[n] == Normalized(s[n..])[0];
  }

  /**
   The lines joined together are the text with CR LF replaced by LF exactly when every CR precedes an LF;
   a lone CR swallows the byte after it.
   */
  lemma {:induction false} AllTextIff(s: string)
    ensures AllText(s) == Normalized(s) <==> CrBeforeLf(s)
    decreases |s|
  {
    var n := Run(s);
    if n == |s| {
      OneLine(s);
    } else if s[n] == '\n' || (n + 1 < |s| && s[n + 1] == '\n') {
      AllTextIff(Rest(s));
      FirstLineIff(s);
      CrTail(s, n, if s[n] == '\n' then 1 else 2);
    } else {
      LoneCr(s);
      assert s[n] == '\r';
    }
  }

  /** Past a well-formed line the texts agree if they do from there on. */
  lemma {:induction false} FirstLineIff(s: string)
    requires Run(s) < |s| && (s[Run(s)] == '\n' || (Run(s) + 1 < |s| && s[Run(s) + 1] == '\n'))
    ensures AllText(s) == Normalized(s) <==> AllText(Rest(s)) == Normalized(Rest(s))
  {
    FirstLine(s);
    FirstLineNormalized(s);
    SameTail(s[..Run(s)], '\n', AllText(Rest(s)), Normalized(Rest(s)));
  }

  lemma {:induction false} OneLine(s: string)
    requires Run(s) == |s|
    ensures AllText(s) == s == Normalized(s)
  {
    NormalizedRun(s, |s|);
    assert s[..|s|] == s && s[|s|..] == [];
    assert s != [] ==> LineText(s) == s && Rest(s) == [];
  }

  lemma {:induction false} SameTail(a: string, c: char, x: string, y: string)
    ensures a + ([c] + x) == a + ([c] + y) <==> x == y
  {
    assert (a + ([c] + x))[|a| + 1..] == x && (a + ([c] + y))[|a| + 1..] == y;
  }

  /** Past a well-formed line only the rest matters. */
  lemma {:induction false} CrTail(s: string, n: nat, k: nat)
    requires n == Run(s) && n + k <= |s| && ((k == 1 && s[n] == '\n') || (k == 2 && s[n] == '\r' && s[n + 1] == '\n'))
    ensures CrBeforeLf(s) <==> CrBeforeLf(s[n + k..])
  {
    var t := s[n + k..];
    assert forall i :: 0 <= i < |t| ==> t[i] == s[n + k + i];
    if CrBeforeLf(t) {
      forall i | 0 <= i < |s| && s[i] == '\r' ensures i + 1 < |s| && s[i + 1] == '\n' {
        if i >= n + k {
          assert t[i - n - k] == '\r';
        }
      }
    }
  }
}
