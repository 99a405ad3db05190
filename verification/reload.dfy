/**
 From descriptions to lineups: what cfg_channel_add is given for a description, and what becomes of a
 lineup that is written out channel by channel and loaded again.
 */
module Reload {
  import opened Options
  import opened ChannelMap
  import opened Channels
  import opened Registration
  import opened ManagerSpec
  import opened SlotLists
  import opened LineupSpec
  import opened SdpDescription
  import opened SdpValidation
  import opened SdpPrinter
  import opened SdpSound
  import opened RoundTrip
  import opened SessionReader
  import SdpHandle

  /** The session that a description and the checksum of its text stand for. */
  function SessionOf(d: Description, chksum: nat): Session { Session(SessionKeyOf(d), Validate(d, chksum)) }

  /** Validation extracts the key that is looked up beforehand, and leaves the use mark clear. */
  lemma {:induction false} SessionIsProper(d: Description, chksum: nat)
    ensures ProperSession(SessionOf(d, chksum))
  {
  }

  /** An active channel that can be written: one that validation accepts, with a well-formed session key. */
  ghost predicate Writable(c: ChannelCfg) { c.active && Sound(c) && SdpHandle.WellFormed(c.sessionKey) }

  ghost predicate AllWritable(cs: seq<ChannelCfg>) { forall i :: 0 <= i < |cs| ==> Writable(cs[i]) }

  predicate AllPrintable(cs: seq<ChannelCfg>) { forall i :: 0 <= i < |cs| ==> Printable(cs[i]) }

  /** The channels as they come back. */
  function ReadBacks(cs: seq<ChannelCfg>, sums: seq<nat>): (rs: seq<ChannelCfg>)
    requires |sums| == |cs| && AllPrintable(cs)
    ensures |rs| == |cs|
  {
    seq(|cs|, i requires 0 <= i < |cs| => ReadBack(cs[i], sums[i]))
  }

  /** The sessions of a lineup written out channel by channel, with the checksums of their texts. */
  function Reprinted(cs: seq<ChannelCfg>, sums: seq<nat>): (items: seq<Item>)
    requires |sums| == |cs|
    ensures |items| == |cs|
  {
    seq(|cs|, i requires 0 <= i < |cs| => Parsed(SessionOf(Print(cs[i]), sums[i])))
  }

  lemma {:induction false} ReprintedAt(cs: seq<ChannelCfg>, sums: seq<nat>, i: nat)
    requires |sums| == |cs| && i < |cs| && Writable(cs[i])
    ensures var r := if Printable(cs[i]) then Some(ReadBack(cs[i], sums[i])) else None;
            Reprinted(cs, sums)[i] == Parsed(Session(cs[i].sessionKey, r))
  {
    PrintThenValidate(cs[i], sums[i]);
    SessionRead(cs[i]);
  }

  /** The reprinted sessions are proper; they are valid exactly when the channels are printable. */
  lemma {:induction false} ReprintedIs(cs: seq<ChannelCfg>, sums: seq<nat>, items: seq<Item>)
    requires |sums| == |cs| && AllWritable(cs) && items == Reprinted(cs, sums)
    ensures ProperItems(items) && (AllValid(items) <==> AllPrintable(cs))
    ensures AllPrintable(cs) ==> ChannelsOf(items) == ReadBacks(cs, sums)
  {
    forall i | 0 <= i < |cs|
      ensures items[i].Parsed? && ProperItem(items[i]) && (items[i].session.validated.Some? <==> Printable(cs[i]))
      ensures Printable(cs[i]) ==> items[i].session.validated == Some(ReadBack(cs[i], sums[i]))
    {
      ReprintedAt(cs, sums, i);
      SessionIsProper(Print(cs[i]), sums[i]);
    }
  }

  /**
   Channels that were written out are accepted again exactly when all of them are printable and what comes
   back is compatible; then the lineup is what comes back.
   */
  lemma {:induction false} ReloadIff(
    ids: Records, cs: seq<ChannelCfg>, sums: seq<nat>, items: seq<Item>, hs: seq<Handle>)
    requires |sums| == |cs| == |hs| && AllWritable(cs) && items == Reprinted(cs, sums) && Supplied(ids, items, hs)
    ensures var l := LoadAll(ids, items, hs);
            && (Accepted(l) <==> AllPrintable(cs) && Compatible(ReadBacks(cs, sums)) && |cs| <= MAX_CHANNELS)
            && (Accepted(l) ==> Carries(l.ids, l.mgr, ReadBacks(cs, sums)))
  {
    ReprintedIs(cs, sums, items);
    AcceptedIff(ids, items, hs);
  }

  /** What comes back claims the same keys, or those before the FEC keys. */
  lemma {:induction false} FewerClaims(c: ChannelCfg, chksum: nat)
    requires Plain(c)
    ensures var r := PlainBack(c, chksum);
            Attempted(r) <= Attempted(c) && r.sessionKey == c.sessionKey && (OwnKeysOk(c) ==> OwnKeysOk(r))
  {
    PlainKeys(c, chksum);
    assert OrigSlots(c) + FbtSlots(c) <= Attempted(c);
    PrefixUsable(Attempted(PlainBack(c, chksum)), Attempted(c));
  }

  lemma {:induction false} PrefixUsable(a: seq<Slot>, b: seq<Slot>)
    requires a <= b
    ensures KeysUsable(b) ==> KeysUsable(a)
  {
    assert forall s :: s in a ==> s in b;
  }

  lemma {:induction false} PrefixesDisjoint(a: seq<Slot>, a': seq<Slot>, b: seq<Slot>, b': seq<Slot>)
    requires a' <= a && b' <= b && Disjoint(a, b)
    ensures Disjoint(a', b')
  {
    assert forall s :: s in a' ==> s in a;
    assert forall s :: s in b' ==> s in b;
  }

  /** Channels that claim less than compatible ones are compatible. */
  lemma {:induction false} FewerCompatible(cs: seq<ChannelCfg>, rs: seq<ChannelCfg>)
    requires |rs| == |cs| && Compatible(cs)
    requires forall i :: 0 <= i < |cs| ==>
      Attempted(rs[i]) <= Attempted(cs[i]) && rs[i].sessionKey == cs[i].sessionKey && OwnKeysOk(rs[i])
    ensures Compatible(rs)
  {
    forall i, j | 0 <= i < j < |rs|
      ensures Disjoint(Attempted(rs[i]), Attempted(rs[j])) && rs[i].sessionKey != rs[j].sessionKey
    {
      PrefixesDisjoint(Attempted(cs[i]), Attempted(rs[i]), Attempted(cs[j]), Attempted(rs[j]));
    }
  }

  ghost predicate AllPlain(cs: seq<ChannelCfg>) { forall i :: 0 <= i < |cs| ==> Plain(cs[i]) }

  /** Outside source mode, what comes back from compatible channels is compatible. */
  lemma {:induction false} ReadBacksCompatible(cs: seq<ChannelCfg>, sums: seq<nat>)
    requires |sums| == |cs| && AllPrintable(cs) && AllPlain(cs) && Compatible(cs)
    ensures Compatible(ReadBacks(cs, sums))
  {
    var rs := ReadBacks(cs, sums);
    forall i | 0 <= i < |cs|
      ensures Attempted(rs[i]) <= Attempted(cs[i]) && rs[i].sessionKey == cs[i].sessionKey && OwnKeysOk(rs[i])
    {
      assert Plain(cs[i]) && rs[i] == PlainBack(cs[i], sums[i]);
      FewerClaims(cs[i], sums[i]);
    }
    FewerCompatible(cs, rs);
  }

  // ----- through the file -----

  /** The active channels that a handle table lists, in order; holes and inactive channels are passed over. */
  function ActiveList(ids: Records, table: seq<Handle>): seq<ChannelCfg> {
    if table == [] then []
    else
      var c := ActiveRecord(ids, table[|table| - 1]);
      ActiveList(ids, table[..|table| - 1]) + if c.Some? then [c.value] else []
  }

  /** How many of the first n positions hold an active channel. */
  function ActiveHandles(ids: Records, table: seq<Handle>, n: nat): nat
    requires n <= |table|
  {
    if n == 0 then 0
    else
      var h := table[n - 1];
      ActiveHandles(ids, table, n - 1) + if h != ILLEGAL_ID && h in ids && ids[h].active then 1 else 0
  }

  lemma {:induction false} ActiveListSnoc(ids: Records, table: seq<Handle>, n: nat)
    requires 0 < n <= |table|
    ensures var h := table[n - 1];
            ActiveList(ids, table[..n]) ==
            if h != ILLEGAL_ID && h in ids && ids[h].active then ActiveList(ids, table[..n - 1]) + [ids[h]]
            else ActiveList(ids, table[..n - 1])
  {
    assert table[..n][..n - 1] == table[..n - 1] && table[..n][n - 1] == table[n - 1];
  }

  lemma {:induction false} ActiveListLength(ids: Records, table: seq<Handle>, n: nat)
    requires n <= |table|
    ensures |ActiveList(ids, table[..n])| == ActiveHandles(ids, table, n)
  {
    if n > 0 {
      ActiveListSnoc(ids, table, n);
      ActiveListLength(ids, table, n - 1);
    }
  }

  /** Each active channel is listed, after the active ones before it, and nothing else is. */
  lemma {:induction false} ActiveListIs(ids: Records, table: seq<Handle>, n: nat, i: nat)
    requires i < n <= |table| && table[i] != ILLEGAL_ID && table[i] in ids && ids[table[i]].active
    ensures var l, j := ActiveList(ids, table[..n]), ActiveHandles(ids, table, i);
            |l| == ActiveHandles(ids, table, n) && j < |l| && l[j] == ids[table[i]]
  {
    ActiveListSnoc(ids, table, n);
    ActiveListLength(ids, table, n);
    ActiveListLength(ids, table, n - 1);
    if i < n - 1 {
      ActiveListIs(ids, table, n - 1, i);
    }
  }

  /** What cfg_db_write_channels prints at each position of the table: nothing unless there is an active channel. */
  function PrintedTable(ids: Records, table: seq<Handle>, text: ChannelCfg -> seq<Line>): (chans: seq<seq<Line>>)
    ensures |chans| == |table|
  {
    seq(|table|, i requires 0 <= i < |table| =>
      var c := ActiveRecord(ids, table[i]); if c.Some? then text(c.value) else [])
  }

  /** The text of each channel can be written. */
  ghost predicate AllPrinted(cs: seq<ChannelCfg>, text: ChannelCfg -> seq<Line>) {
    forall i :: 0 <= i < |cs| ==> Printed(text(cs[i]))
  }

  /** The texts of the channels as single strings. */
  ghost function Joins(cs: seq<ChannelCfg>, text: ChannelCfg -> seq<Line>): (ts: seq<string>)
    requires AllPrinted(cs, text)
    ensures |ts| == |cs|
  {
    seq(|cs|, i requires 0 <= i < |cs| => JoinedText(cs[i], text))
  }

  ghost function JoinedText(c: ChannelCfg, text: ChannelCfg -> seq<Line>): string
    requires Printed(text(c))
  {
    Joined(text(c))
  }

  /** The checksums of the texts. */
  ghost function Sums(cs: seq<ChannelCfg>, text: ChannelCfg -> seq<Line>, sum: string -> nat): (sums: seq<nat>)
    requires AllPrinted(cs, text)
    ensures |sums| == |cs|
  {
    seq<nat>(|cs|, i requires 0 <= i < |cs| => sum(Joins(cs, text)[i]))
  }

  /** The parser reads each text as the description that was printed, with the checksum of that text. */
  ghost predicate Understood(
    cs: seq<ChannelCfg>, text: ChannelCfg -> seq<Line>, sum: string -> nat, parse: string -> Item)
  {
    && AllPrinted(cs, text)
    && forall i :: 0 <= i < |cs| ==>
      parse(Joins(cs, text)[i]) == Parsed(SessionOf(Print(cs[i]), sum(Joins(cs, text)[i])))
  }

  lemma {:induction false} JoinsSnoc(cs: seq<ChannelCfg>, c: ChannelCfg, text: ChannelCfg -> seq<Line>)
    requires AllPrinted(cs + [c], text)
    ensures AllPrinted(cs, text) && Printed(text(c)) && Joins(cs + [c], text) == Joins(cs, text) + [Joined(text(c))]
  {
    var t := cs + [c];
    assert t[|cs|] == c && forall i :: 0 <= i < |cs| ==> t[i] == cs[i];
  }

  /** Everything active before position n is printed, and nothing else is. */
  lemma {:induction false} PrintedTexts(ids: Records, table: seq<Handle>, text: ChannelCfg -> seq<Line>, n: nat)
    requires n <= |table| && AllPrinted(ActiveList(ids, table[..n]), text)
    ensures var chans := PrintedTable(ids, table, text);
            && (forall i :: 0 <= i < n ==> chans[i] == [] || Printed(chans[i]))
            && Texts(chans, n) == Joins(ActiveList(ids, table[..n]), text)
  {
    if n > 0 {
      var chans, c := PrintedTable(ids, table, text), ActiveRecord(ids, table[n - 1]);
      assert table[..n][..n - 1] == table[..n - 1];
      var before := ActiveList(ids, table[..n - 1]);
      if c.Some? {
        JoinsSnoc(before, c.value, text);
      } else {
        assert ActiveList(ids, table[..n]) == before;
      }
      PrintedTexts(ids, table, text, n - 1);
    }
  }

  /** What a file is loaded as: its sessions, each through the parser. */
  function LoadedItems(lines: seq<Line>, parse: string -> Item): (items: seq<Item>)
    requires AreLines(lines)
    ensures |items| == |Sessions(lines)|
  {
    seq(|Sessions(lines)|, i requires 0 <= i < |Sessions(lines)| => parse(Sessions(lines)[i]))
  }

  lemma {:induction false} FileItems(
    ids: Records, table: seq<Handle>, text: ChannelCfg -> seq<Line>, sum: string -> nat, parse: string -> Item)
    requires Understood(ActiveList(ids, table), text, sum, parse)
    ensures var cs, lines := ActiveList(ids, table), Written(PrintedTable(ids, table, text), |table|);
            AreLines(lines) && LoadedItems(lines, parse) == Reprinted(cs, Sums(cs, text, sum))
  {
    var n := |table|;
    assert table[..n] == table;
    PrintedTexts(ids, table, text, n);
    WriteThenRead(PrintedTable(ids, table, text));
  }

  /**
   Saving any handle table, with holes and inactive channels, and loading the file again: the file is
   accepted exactly when all active channels are printable and what comes back is compatible, and then the
   lineup is exactly the read-back active channels, in order. For compatible channels outside source mode being
   printable is enough. This holds whatever the parser does with other texts.
   */
  lemma {:induction false} SavedFileReloads(
    ids: Records, table: seq<Handle>, text: ChannelCfg -> seq<Line>, sum: string -> nat, parse: string -> Item,
    cs: seq<ChannelCfg>, items: seq<Item>, ids': Records, hs: seq<Handle>)
    requires cs == ActiveList(ids, table) && Understood(cs, text, sum, parse) && AllWritable(cs)
    requires AreLines(Written(PrintedTable(ids, table, text), |table|))
    requires items == LoadedItems(Written(PrintedTable(ids, table, text), |table|), parse)
    requires |hs| == |items| && Supplied(ids', items, hs)
    ensures var l, sums := LoadAll(ids', items, hs), Sums(cs, text, sum);
            && (Accepted(l) <==> AllPrintable(cs) && Compatible(ReadBacks(cs, sums)) && |cs| <= MAX_CHANNELS)
            && (Accepted(l) ==> Carries(l.ids, l.mgr, ReadBacks(cs, sums)))
            && (AllPlain(cs) && Compatible(cs) && |cs| <= MAX_CHANNELS ==> (Accepted(l) <==> AllPrintable(cs)))
  {
    FileItems(ids, table, text, sum, parse);
    ReloadIff(ids', cs, Sums(cs, text, sum), items, hs);
    if AllPrintable(cs) && AllPlain(cs) && Compatible(cs) {
      ReadBacksCompatible(cs, Sums(cs, text, sum));
    }
  }

  /** The active channels of an accepted lineup can be registered together, so the above applies to them. */
  lemma {:induction false} ActivesAreCompatible(ids: Records, table: seq<Handle>, cs: seq<ChannelCfg>)
    requires |table| == |cs| && Compatible(cs)
    requires forall i :: 0 <= i < |cs| ==> table[i] != ILLEGAL_ID && table[i] in ids && ids[table[i]] == cs[i]
    ensures Compatible(ActiveList(ids, table)) && |ActiveList(ids, table)| <= |cs|
    ensures forall c :: c in ActiveList(ids, table) ==> c in cs
    decreases |cs|
  {
    if cs != [] {
      var n, t := |cs| - 1, table[..|cs| - 1];
      var before, c := cs[..n], cs[n];
      assert cs == before + [c];
      assert Compatible(before) && Fits(before, c) by {
        CompatibleSnoc(before, c);
      }
      ActivesAreCompatible(ids, t, before);
      OneMoreActive(before, ActiveList(ids, t), c, cs);
    }
  }

  lemma {:induction false} OneMoreActive(
    before: seq<ChannelCfg>, actives: seq<ChannelCfg>, c: ChannelCfg, cs: seq<ChannelCfg>)
    requires cs == before + [c] && Compatible(actives) && Fits(before, c) && forall d :: d in actives ==> d in before
    ensures Compatible(actives + [c])
    ensures forall d :: d in actives || d in actives + [c] ==> d in cs
  {
    FitsBesideFewer(before, actives, c);
    CompatibleSnoc(actives, c);
  }

  /** What fits beside a list fits beside a part of it. */
  lemma {:induction false} FitsBesideFewer(cs: seq<ChannelCfg>, ds: seq<ChannelCfg>, c: ChannelCfg)
    requires Fits(cs, c) && forall d :: d in ds ==> d in cs
    ensures Fits(ds, c)
  {
    forall i | 0 <= i < |ds| ensures Disjoint(Attempted(ds[i]), Attempted(c)) && ds[i].sessionKey != c.sessionKey {
      assert ds[i] in cs;
    }
  }
}
