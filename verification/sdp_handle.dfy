/**
 SDP handles: the o= line of section 5.2 of RFC 4566 as an external name of a channel
 (cfg_alloc_SDP_handle_from_orig_src_addr, cfg_get_channel_cfg_from_SDP_hdl, cfg_SDP_handle_equivalent),
 made from a session key and taken apart again with strtok_r.
 */
module SdpHandle {
  import opened Sequences
  import opened Options
  import opened ChannelMap
  import opened Channels
  import opened ManagerSpec
  import opened UpdateSpec

  const MAX_KEY_LENGTH := 400
  const MAX_LINE_LENGTH := 512
  const SDP_MAX_STRING_LEN := 81
  const SDP_MAX_TYPE_LEN := 10

  /** A copy into a buffer of the given size, with room for the terminating null. */
  function Clip(s: string, size: nat): (r: string)
    requires size > 0
    ensures r <= s && |r| < size && (|s| < size ==> r == s)
  {
    if |s| < size then s else s[..size - 1]
  }

  // ----- tokens -----

  /** The number of characters before the first separator. */
  function Span(s: string, sep: char): (n: nat)
    ensures n <= |s| && (n < |s| ==> s[n] == sep) && sep !in s[..n]
  {
    if s == [] || s[0] == sep then 0
    else
      assert s[..1 + Span(s[1..], sep)] == [s[0]] + s[1..][..Span(s[1..], sep)];
      1 + Span(s[1..], sep)
  }

  /** What strtok_r hands out, call after call. */
  function Tokens(s: string, sep: char): seq<string>
    decreases |s|
  {
    if s == [] then []
    else if s[0] == sep then Tokens(s[1..], sep)
    else [s[..Span(s, sep)]] + Tokens(s[Span(s, sep)..], sep)
  }

  function Field(ts: seq<string>, i: nat): string { if i < |ts| then ts[i] else "" }

  /** A word that a separator cannot split. */
  predicate Word(w: string, sep: char) { w != [] && sep !in w }

  lemma {:induction false} SpanOfWord(w: string, sep: char, rest: string)
    requires sep !in w && (rest == [] || rest[0] == sep)
    ensures Span(w + rest, sep) == |w| && (w + rest)[..|w|] == w && (w + rest)[|w|..] == rest
  {
    var s := w + rest;
    if w != [] {
      assert s[1..] == w[1..] + rest;
      SpanOfWord(w[1..], sep, rest);
    }
  }

  /** A word, a separator and what follows. */
  function Sep(w: string, sep: char, rest: string): (r: string)
    ensures |r| == |w| + 1 + |rest|
    ensures forall c :: c in r <==> c in w || c == sep || c in rest
  {
    w + [sep] + rest
  }

  /** The word before a separator, which is passed over if it is empty. */
  lemma {:induction false} FirstToken(w: string, sep: char, rest: string)
    requires sep !in w
    ensures Tokens(Sep(w, sep, rest), sep) == Last(w) + Tokens(rest, sep)
  {
    SpanOfWord(w, sep, [sep] + rest);
    assert Sep(w, sep, rest) == w + ([sep] + rest);
    assert ([sep] + rest)[1..] == rest;
  }

  /** A word, if it is one. */
  function Last(w: string): seq<string> { if w == "" then [] else [w] }

  /** The words before a separator and those after it. */
  lemma {:induction false} TokensSep(w: string, sep: char, rest: string)
    ensures Tokens(Sep(w, sep, rest), sep) == Tokens(w, sep) + Tokens(rest, sep)
    decreases |w|
  {
    var s, n := Sep(w, sep, rest), Span(w, sep);
    if n == |w| {
      assert w[..n] == w;
      FirstToken(w, sep, rest);
      LastToken(w, sep);
    } else if n == 0 {
      assert s[1..] == Sep(w[1..], sep, rest);
      TokensSep(w[1..], sep, rest);
    } else {
      SpanOfWord(w[..n], sep, w[n..] + [sep] + rest);
      assert s == w[..n] + (w[n..] + [sep] + rest) && s[n..] == Sep(w[n..], sep, rest);
      TokensSep(w[n..], sep, rest);
    }
  }

  lemma {:induction false} LastToken(w: string, sep: char)
    requires sep !in w
    ensures Tokens(w, sep) == Last(w)
  {
    SpanOfWord(w, sep, []);
    assert w + [] == w;
  }

  /** Tokens are words over the characters of the text. */
  lemma {:induction false} TokensAreWords(s: string, sep: char)
    ensures forall t :: t in Tokens(s, sep) ==> Word(t, sep)
    ensures forall t, c :: t in Tokens(s, sep) && c in t ==> c in s
    decreases |s|
  {
    if s != [] {
      if s[0] == sep {
        TokensAreWords(s[1..], sep);
      } else {
        TokensAreWords(s[Span(s, sep)..], sep);
      }
    }
  }

  // ----- session keys -----

  datatype Origin = Origin(username: string, sessionId: string, nettype: string, addrtype: string, creator: string)

  /** The key of an o= line as it is looked up. */
  function KeyOf(o: Origin): string {
    Sep(o.nettype + o.addrtype, '#', Sep(o.username, '#', Sep(o.sessionId, '#', o.creator)))
  }

  /** The o= line of an IPv4 session. */
  function Internet(u: string, s: string, c: string): Origin { Origin(u, s, "IN", "IP4", c) }

  /** Taking a session key apart: its first word is skipped, and the buffers for the others are cleared before. */
  function OriginOf(key: string): Origin {
    var ts := Tokens(Clip(key, MAX_KEY_LENGTH), '#');
    Internet(Clip(Field(ts, 1), SDP_MAX_STRING_LEN), Clip(Field(ts, 2), SDP_MAX_STRING_LEN),
             Clip(Field(ts, 3), SDP_MAX_STRING_LEN))
  }

  /** cfg_channel_parse_session_key: a fifth word ends the loop early. */
  method ParseSessionKey(key: string) returns (u: string, s: string, c: string)
    ensures Internet(u, s, c) == OriginOf(key)
  {
    u, s, c := "", "", "";
    var rest := Clip(key, MAX_KEY_LENGTH);
    ghost var ts := Tokens(rest, '#');
    var i := 1;
    while rest != []
      invariant 1 <= i <= 5 && i - 1 <= |ts| && ts[i - 1..] == Tokens(rest, '#')
      invariant u == Clip(if i > 2 then ts[1] else "", SDP_MAX_STRING_LEN)
      invariant s == Clip(if i > 3 then ts[2] else "", SDP_MAX_STRING_LEN)
      invariant c == Clip(if i > 4 then ts[3] else "", SDP_MAX_STRING_LEN)
      decreases |rest|
    {
      if rest[0] == '#' {
        rest := rest[1..];
      } else {
        var n := Span(rest, '#');
        var token := rest[..n];
        assert ts[i - 1..][0] == token && ts[i - 1..][1..] == ts[i..];
        rest := rest[n..];
        match i {
          case 1 =>
          case 2 => u := Clip(token, SDP_MAX_STRING_LEN);
          case 3 => s := Clip(token, SDP_MAX_STRING_LEN);
          case 4 => c := Clip(token, SDP_MAX_STRING_LEN);
          case _ => return;
        }
        i := i + 1;
      }
    }
  }

  // ----- o= lines -----

  /** %llu. */
  function Decimal(n: nat): (d: string)
    ensures d != [] && forall c :: c in d ==> '0' <= c <= '9'
  {
    if n < 10 then ['0' + n as char] else Decimal(n / 10) + ['0' + (n % 10) as char]
  }

  /** The text after the first two characters of the first word; a shorter word runs over into what follows it. */
  function UserPart(l: string): string
    decreases |l|
  {
    if l == [] then ""
    else if l[0] == ' ' then UserPart(l[1..])
    else if Span(l, ' ') >= 2 then l[2..Span(l, ' ')]
    else if |l| >= 2 then l[2..] else ""
  }

  /** Taking an o= line apart: five or six words are accepted, the sixth being the creator's address. */
  function ReadOLine(line: string): Option<Origin> {
    var l := Clip(line, MAX_LINE_LENGTH);
    var ts := Tokens(l, ' ');
    if |ts| < 5 || |ts| > 6 then None
    else Some(Origin(Clip(UserPart(l), SDP_MAX_STRING_LEN), Clip(ts[1], SDP_MAX_STRING_LEN),
                     Clip(ts[3], SDP_MAX_TYPE_LEN), Clip(ts[4], SDP_MAX_TYPE_LEN),
                     Clip(Field(ts, 5), SDP_MAX_STRING_LEN)))
  }

  /** parse_sdp_o_line. */
  method ParseOLine(oLine: string) returns (r: Option<Origin>)
    ensures r == ReadOLine(oLine)
  {
    var rest := Clip(oLine, MAX_LINE_LENGTH);
    ghost var l, ts := rest, Tokens(rest, ' ');
    var u, s, n, a, c := "", "", "", "", "";
    var i := 1;
    while rest != []
      invariant 1 <= i <= 7 && i - 1 <= |ts| && ts[i - 1..] == Tokens(rest, ' ')
      invariant if i == 1 then UserPart(rest) == UserPart(l) else u == Clip(UserPart(l), SDP_MAX_STRING_LEN)
      invariant i > 2 ==> s == Clip(ts[1], SDP_MAX_STRING_LEN)
      invariant i > 4 ==> n == Clip(ts[3], SDP_MAX_TYPE_LEN)
      invariant i > 5 ==> a == Clip(ts[4], SDP_MAX_TYPE_LEN)
      invariant c == Clip(if i > 6 then ts[5] else "", SDP_MAX_STRING_LEN)
      decreases |rest|
    {
      if rest[0] == ' ' {
        rest := rest[1..];
      } else {
        var k := Span(rest, ' ');
        var token := rest[..k];
        assert ts[i - 1..][0] == token && ts[i - 1..][1..] == ts[i..];
        match i {
          case 1 => u := Clip(UserPart(rest), SDP_MAX_STRING_LEN);
          case 2 => s := Clip(token, SDP_MAX_STRING_LEN);
          case 3 =>
          case 4 => n := Clip(token, SDP_MAX_TYPE_LEN);
          case 5 => a := Clip(token, SDP_MAX_TYPE_LEN);
          case 6 => c := Clip(token, SDP_MAX_STRING_LEN);
          case _ => return None;
        }
        rest := rest[k..];
        i := i + 1;
      }
    }
    if i < 6 {
      return None;
    }
    r := Some(Origin(u, s, n, a, c));
  }

  /** An o= line after the user name. */
  function OLineRest(o: Origin, version: nat): string {
    Sep(o.sessionId, ' ', Sep(Decimal(version), ' ', Sep(o.nettype, ' ', Sep(o.addrtype, ' ', o.creator))))
  }

  /** An o= line. */
  function OLine(o: Origin, version: nat): string {
    Sep("o=" + o.username, ' ', OLineRest(o, version))
  }

  /** The handle of a channel with this session key and version. */
  function HandleText(key: string, version: nat): string {
    Clip(OLine(OriginOf(key), version), MAX_KEY_LENGTH)
  }

  /** The key a handle is looked up under. */
  function HandleKey(handle: string): Option<string> {
    var o := ReadOLine(handle);
    if o.None? then None else Some(Clip(KeyOf(o.value), MAX_KEY_LENGTH))
  }

  // ----- handles name channels -----

  const VERSIONS := 0x1_0000_0000_0000_0000

  /** A field that no buffer truncates and no separator splits. */
  predicate Good(f: string) { f != [] && ' ' !in f && '#' !in f && |f| < SDP_MAX_STRING_LEN }

  predicate GoodFields(u: string, s: string, c: string) { Good(u) && Good(s) && (c == "" || Good(c)) }

  /** The key of an IPv4 session with good fields; the creator's address may be missing. */
  ghost predicate WellFormed(key: string) {
    exists u, s, c :: GoodFields(u, s, c) && key == KeyOf(Internet(u, s, c))
  }

  function Pow10(k: nat): nat { if k == 0 then 1 else 10 * Pow10(k - 1) }

  lemma {:induction false} DecimalLength(n: nat, k: nat)
    requires 0 < k && n < Pow10(k)
    ensures |Decimal(n)| <= k
  {
    if n >= 10 {
      DecimalLength(n / 10, k - 1);
    }
  }

  lemma {:induction false} VersionLength(v: nat)
    requires v < VERSIONS
    ensures |Decimal(v)| <= 20
  {
    assert Pow10(5) == 100_000;
    assert Pow10(10) == 10_000_000_000;
    assert Pow10(15) == 1_000_000_000_000_000;
    assert Pow10(20) == 100_000_000_000_000_000_000;
    DecimalLength(v, 20);
  }

  /** The words of a key; an empty user name is passed over. */
  lemma {:induction false} KeyWords(o: Origin)
    requires Word(o.nettype + o.addrtype, '#') && '#' !in o.username && Word(o.sessionId, '#') && '#' !in o.creator
    ensures Tokens(KeyOf(o), '#') == [o.nettype + o.addrtype] + (Last(o.username) + ([o.sessionId] + Last(o.creator)))
  {
    var first, t3 := o.nettype + o.addrtype, Sep(o.sessionId, '#', o.creator);
    var t2 := Sep(o.username, '#', t3);
    assert Tokens(t3, '#') == [o.sessionId] + Last(o.creator) by {
      FirstToken(o.sessionId, '#', o.creator);
      LastToken(o.creator, '#');
    }
    assert Tokens(t2, '#') == Last(o.username) + ([o.sessionId] + Last(o.creator)) by {
      FirstToken(o.username, '#', t3);
    }
    FirstToken(first, '#', t2);
  }

  /** A session key with good fields comes apart into them. */
  lemma {:induction false} KeyComesApart(o: Origin)
    requires GoodFields(o.username, o.sessionId, o.creator) && Word(o.nettype + o.addrtype, '#')
    requires |o.nettype + o.addrtype| < 100
    ensures |KeyOf(o)| < MAX_KEY_LENGTH && OriginOf(KeyOf(o)) == Internet(o.username, o.sessionId, o.creator)
  {
    KeyWords(o);
    var ts := Tokens(KeyOf(o), '#');
    assert ts[1] == o.username && ts[2] == o.sessionId && Field(ts, 3) == o.creator;
  }

  /** The words of an o= line. */
  lemma {:induction false} OLineWords(o: Origin, v: nat)
    requires ' ' !in o.username && Word(o.sessionId, ' ')
             && Word(o.nettype, ' ') && Word(o.addrtype, ' ') && ' ' !in o.creator
    ensures Tokens(OLine(o, v), ' ') ==
            ["o=" + o.username] + ([o.sessionId, Decimal(v)] + ([o.nettype, o.addrtype] + Last(o.creator)))
  {
    var rest := Sep(o.nettype, ' ', Sep(o.addrtype, ' ', o.creator));
    TwoWords(o.nettype, o.addrtype, o.creator);
    LastToken(o.creator, ' ');
    TwoWords(o.sessionId, Decimal(v), rest);
    FirstToken("o=" + o.username, ' ', OLineRest(o, v));
  }

  lemma {:induction false} TwoWords(a: string, b: string, rest: string)
    requires Word(a, ' ') && Word(b, ' ')
    ensures Tokens(Sep(a, ' ', Sep(b, ' ', rest)), ' ') == [a, b] + Tokens(rest, ' ')
  {
    FirstToken(a, ' ', Sep(b, ' ', rest));
    FirstToken(b, ' ', rest);
  }

  lemma {:induction false} UserPartOf(u: string, rest: string)
    requires ' ' !in u
    ensures UserPart(Sep("o=" + u, ' ', rest)) == u
  {
    var first := "o=" + u;
    var l := Sep(first, ' ', rest);
    SpanOfWord(first, ' ', " " + rest);
    assert l == first + (" " + rest);
    assert l[0] == 'o' && l[2..|first|] == u;
  }

  /** No o= line made from bounded fields is cut off. */
  lemma {:induction false} OLineLength(o: Origin, v: nat)
    requires |o.username| < SDP_MAX_STRING_LEN && |o.sessionId| < SDP_MAX_STRING_LEN && |o.creator| < SDP_MAX_STRING_LEN
    requires o.nettype == "IN" && o.addrtype == "IP4" && v < VERSIONS
    ensures |OLine(o, v)| < MAX_KEY_LENGTH
  {
    VersionLength(v);
  }

  /** An o= line with good fields comes apart into them. */
  lemma {:induction false} OLineComesApart(o: Origin, v: nat)
    requires GoodFields(o.username, o.sessionId, o.creator) && v < VERSIONS
    requires o.nettype == "IN" && o.addrtype == "IP4"
    ensures |OLine(o, v)| < MAX_KEY_LENGTH && ReadOLine(OLine(o, v)) == Some(o)
  {
    OLineLength(o, v);
    OLineWords(o, v);
    UserPartOf(o.username, OLineRest(o, v));
  }

  /** A well-formed key survives the way through a handle. */
  lemma {:induction false} HandleKeepsKey(u: string, s: string, c: string, v: nat)
    requires GoodFields(u, s, c) && v < VERSIONS
    ensures HandleKey(HandleText(KeyOf(Internet(u, s, c)), v)) == Some(KeyOf(Internet(u, s, c)))
  {
    KeyComesApart(Internet(u, s, c));
    OLineComesApart(Internet(u, s, c), v);
  }

  /** What a session key comes apart into fits its buffers and has no '#'. */
  lemma {:induction false} OriginParts(key: string)
    ensures var o := OriginOf(key);
            && '#' !in o.username && '#' !in o.sessionId && '#' !in o.creator
            && |o.username| < SDP_MAX_STRING_LEN && |o.sessionId| < SDP_MAX_STRING_LEN
            && |o.creator| < SDP_MAX_STRING_LEN
  {
    var k := Clip(key, MAX_KEY_LENGTH);
    TokensAreWords(k, '#');
    PartOf(Tokens(k, '#'), 1);
    PartOf(Tokens(k, '#'), 2);
    PartOf(Tokens(k, '#'), 3);
  }

  lemma {:induction false} PartOf(ts: seq<string>, i: nat)
    requires forall t :: t in ts ==> Word(t, '#')
    ensures '#' !in Clip(Field(ts, i), SDP_MAX_STRING_LEN)
  {
    if i < |ts| {
      assert ts[i] in ts;
    }
  }

  /** A clipped word of a line without '#'. */
  lemma {:induction false} ClippedWord(l: string, i: nat, size: nat)
    requires '#' !in l && i < |Tokens(l, ' ')| && size > 1
    ensures var w := Clip(Tokens(l, ' ')[i], size); w != "" && ' ' !in w && '#' !in w
  {
    TokensAreWords(l, ' ');
    assert Tokens(l, ' ')[i] in Tokens(l, ' ');
  }

  lemma {:induction false} ClippedUser(u: string, rest: string)
    requires '#' !in u && '#' !in rest
    ensures var w := Clip(UserPart(Sep("o=" + u, ' ', rest)), SDP_MAX_STRING_LEN); ' ' !in w && '#' !in w
  {
    var l := Sep("o=" + u, ' ', rest);
    assert l[0] == 'o' && l[1..][0] == '=';
    var n := Span(l, ' ');
    assert l[2..n] == l[..n][2..];
  }

  /** What a line without '#' comes apart into. */
  lemma {:induction false} OLineParts(o: Origin, v: nat)
    requires '#' !in o.username && '#' !in OLineRest(o, v) && |OLine(o, v)| < MAX_LINE_LENGTH
    requires ReadOLine(OLine(o, v)).Some?
    ensures Parts(ReadOLine(OLine(o, v)).value)
  {
    var l := OLine(o, v);
    ClippedUser(o.username, OLineRest(o, v));
    ClippedWord(l, 1, SDP_MAX_STRING_LEN);
    ClippedWord(l, 3, SDP_MAX_TYPE_LEN);
    ClippedWord(l, 4, SDP_MAX_TYPE_LEN);
    if |Tokens(l, ' ')| == 6 {
      ClippedWord(l, 5, SDP_MAX_STRING_LEN);
    }
  }

  predicate Parts(r: Origin) {
    && Word(r.nettype + r.addrtype, '#') && |r.nettype + r.addrtype| < 100
    && '#' !in r.username && ' ' !in r.username && |r.username| < SDP_MAX_STRING_LEN
    && Good(r.sessionId) && (r.creator == "" || Good(r.creator))
  }

  /**
   The handle made from a session key leads back to that key exactly when the key is well formed: all of
   its fields but the creator's address are there, none has a space or a '#', and none is cut off.
   */
  lemma {:induction false} HandleResolvesIff(key: string, v: nat)
    requires |key| < MAX_KEY_LENGTH && v < VERSIONS
    ensures HandleKey(HandleText(key, v)) == Some(key) <==> WellFormed(key)
  {
    if WellFormed(key) {
      var u, s, c :| GoodFields(u, s, c) && key == KeyOf(Internet(u, s, c));
      HandleKeepsKey(u, s, c, v);
    }
    if HandleKey(HandleText(key, v)) == Some(key) {
      ResolvedIsWellFormed(key, v);
    }
  }

  lemma {:induction false} ResolvedIsWellFormed(key: string, v: nat)
    requires |key| < MAX_KEY_LENGTH && v < VERSIONS && HandleKey(HandleText(key, v)) == Some(key)
    ensures WellFormed(key)
  {
    var o := OriginOf(key);
    OriginParts(key);
    OLineLength(o, v);
    OLineParts(o, v);
    var r := ReadOLine(OLine(o, v)).value;
    assert key == KeyOf(r);
    UserNameIsThere(r, o.username, OLineRest(o, v));
    KeyComesApart(r);
    OLineComesApart(o, v);
    assert GoodFields(o.username, o.sessionId, o.creator) && key == KeyOf(Internet(o.username, o.sessionId, o.creator));
  }

  /** A key that lacks a user name would give the session id in its place. */
  lemma {:induction false} UserNameIsThere(r: Origin, u: string, rest: string)
    requires Parts(r) && |KeyOf(r)| < MAX_KEY_LENGTH && u == OriginOf(KeyOf(r)).username
    requires r.username == Clip(UserPart(Sep("o=" + u, ' ', rest)), SDP_MAX_STRING_LEN)
    ensures r.username != ""
  {
    if r.username == "" {
      KeyWords(r);
      UserPartOf(r.sessionId, rest);
    }
  }

  // ----- handles of a lineup -----

  /** cfg_alloc_SDP_handle_from_orig_src_addr. */
  function AllocHandle(ids: Records, m: Mgr, proto: Proto, k: Key): Option<string> {
    if k !in m.ix.chan then None
    else
      var c := ActiveRecord(ids, m.ix.chan[k]);
      if c.Some? && c.value.orig.proto == proto then Some(HandleText(c.value.sessionKey, c.value.version)) else None
  }

  /** cfg_get_channel_cfg_from_SDP_hdl: the handle of the channel it returns. */
  function Resolve(ids: Records, m: Mgr, handle: string): Option<Handle> {
    var k := HandleKey(handle);
    if k.None? || k.value !in m.ix.keys then None
    else
      var h := m.ix.keys[k.value];
      if ActiveRecord(ids, h).Some? then Some(h) else None
  }

  /** cfg_SDP_handle_equivalent. */
  predicate Equivalent(h1: string, h2: string) {
    var o1, o2 := ReadOLine(h1), ReadOLine(h2);
    o1.Some? && o2.Some? && o1 == o2
  }

  /**
   In an accepted lineup every active channel is given a handle under its original address, port and
   protocol and under no other protocol, and that handle resolves back to the channel exactly when its
   session key is well formed.
   */
  lemma {:induction false} ChannelHandles(ids: Records, m: Mgr, i: nat)
    requires Exact(ids, m) && i < |m.table| && ids[m.table[i]].active
    requires |ids[m.table[i]].sessionKey| < MAX_KEY_LENGTH && ids[m.table[i]].version < VERSIONS
    ensures var c := ids[m.table[i]];
            var k := Key(c.orig.addr, c.orig.port);
            && (forall p :: AllocHandle(ids, m, p, k).Some? <==> p == c.orig.proto)
            && (Resolve(ids, m, AllocHandle(ids, m, c.orig.proto, k).value) == Some(m.table[i])
               <==> WellFormed(c.sessionKey))
  {
    var h, c := m.table[i], ids[m.table[i]];
    ExactFinds(ids, m, i);
    HandleResolvesIff(c.sessionKey, c.version);
    assert h in Live(m);
  }

  /** A well-formed key and its handle stand for the same origin. */
  lemma {:induction false} HandleOrigin(key: string, v: nat)
    requires WellFormed(key) && v < VERSIONS
    ensures ReadOLine(HandleText(key, v)) == Some(OriginOf(key)) && KeyOf(OriginOf(key)) == key
  {
    var u, s, c :| GoodFields(u, s, c) && key == KeyOf(Internet(u, s, c));
    KeyComesApart(Internet(u, s, c));
    OLineComesApart(Internet(u, s, c), v);
  }

  // ----- equivalence -----

  lemma {:induction false} SepInjective(a: string, x: string, b: string, y: string, sep: char)
    requires sep !in a && sep !in b && Sep(a, sep, x) == Sep(b, sep, y)
    ensures a == b && x == y
  {
    SpanOfWord(a, sep, [sep] + x);
    SpanOfWord(b, sep, [sep] + y);
    assert Sep(a, sep, x) == a + ([sep] + x) && Sep(b, sep, y) == b + ([sep] + y);
    assert ([sep] + x)[1..] == x && ([sep] + y)[1..] == y;
  }

  /** Of the words of a handle, those before the version and those after the address type. */
  lemma {:induction false} HandleWords(o: Origin, v: nat)
    requires o.nettype == "IN" && o.addrtype == "IP4"
    ensures var before := Tokens("o=" + o.username, ' ') + Tokens(o.sessionId, ' ');
            before != [] && Tokens(OLine(o, v), ' ') == before + ([Decimal(v), "IN", "IP4"] + Tokens(o.creator, ' '))
  {
    WordsOf("o=" + o.username, o.sessionId, Decimal(v), o.nettype, o.addrtype, o.creator);
    assert ("o=" + o.username)[0] == 'o';
  }

  lemma {:induction false} WordsOf(u: string, s: string, d: string, n: string, a: string, c: string)
    requires Word(d, ' ') && Word(n, ' ') && Word(a, ' ')
    ensures Tokens(Sep(u, ' ', Sep(s, ' ', Sep(d, ' ', Sep(n, ' ', Sep(a, ' ', c))))), ' ') ==
            (Tokens(u, ' ') + Tokens(s, ' ')) + ([d, n, a] + Tokens(c, ' '))
  {
    var t := Sep(n, ' ', Sep(a, ' ', c));
    assert Tokens(Sep(d, ' ', t), ' ') == [d, n, a] + Tokens(c, ' ') by {
      FirstToken(d, ' ', t);
      TwoWords(n, a, c);
    }
    TokensSep(u, ' ', Sep(s, ' ', Sep(d, ' ', t)));
    TokensSep(s, ' ', Sep(d, ' ', t));
    Reassociate(Tokens(u, ' '), Tokens(s, ' '), [d, n, a] + Tokens(c, ' '));
  }

  /** Where the network and address type of a handle come from: two words in a row of version, IN, IP4, creator. */
  predicate NetParts(r: Origin, v: nat) {
    || (r.nettype == "IN" && r.addrtype == "IP4")
    || r.nettype == "IP4"
    || (r.nettype == Clip(Decimal(v), SDP_MAX_TYPE_LEN) && r.addrtype == "IN")
  }

  lemma {:induction false} HandleNetParts(o: Origin, v: nat)
    requires o.nettype == "IN" && o.addrtype == "IP4" && |OLine(o, v)| < MAX_LINE_LENGTH && ReadOLine(OLine(o, v)).Some?
    ensures NetParts(ReadOLine(OLine(o, v)).value, v)
  {
    HandleWords(o, v);
    var before := Tokens("o=" + o.username, ' ') + Tokens(o.sessionId, ' ');
    var after := [Decimal(v), "IN", "IP4"] + Tokens(o.creator, ' ');
    var ts := before + after;
    assert after[0] == Decimal(v) && after[1] == "IN" && after[2] == "IP4";
    assert 1 <= |before| <= 3 && ts[3] == after[3 - |before|] && ts[4] == after[4 - |before|];
  }

  /** The two types can be told apart when they are run together. */
  lemma {:induction false} NetPartsInjective(r: Origin, v: nat, q: Origin, w: nat)
    requires NetParts(r, v) && NetParts(q, w) && r.nettype + r.addrtype == q.nettype + q.addrtype
    ensures r.nettype == q.nettype && r.addrtype == q.addrtype
  {
    var x, y := r.nettype + r.addrtype, q.nettype + q.addrtype;
    Digits(v);
    Digits(w);
    assert x[0] == r.nettype[0] && y[0] == q.nettype[0];
    assert |r.nettype| == |q.nettype| by {
      if r.nettype in ["IN", "IP4"] {
        assert x[1] == r.nettype[1];
        assert q.nettype in ["IN", "IP4"] && y[1] == q.nettype[1];
      }
    }
    assert x[..|r.nettype|] == r.nettype && y[..|q.nettype|] == q.nettype;
    assert x[|r.nettype|..] == r.addrtype && y[|q.nettype|..] == q.addrtype;
  }

  lemma {:induction false} Digits(v: nat)
    ensures var d := Clip(Decimal(v), SDP_MAX_TYPE_LEN); d != "" && '0' <= d[0] <= '9'
  {
    assert Decimal(v)[0] in Decimal(v);
  }

  /** What is known of a handle that can be read. */
  lemma {:induction false} ReadHandle(key: string, v: nat)
    requires v < VERSIONS && ReadOLine(HandleText(key, v)).Some?
    ensures var r := ReadOLine(HandleText(key, v)).value;
            Parts(r) && NetParts(r, v) && HandleKey(HandleText(key, v)) == Some(KeyOf(r))
  {
    var o := OriginOf(key);
    OriginParts(key);
    OLineLength(o, v);
    OLineParts(o, v);
    HandleNetParts(o, v);
  }

  /**
   Whatever the keys and versions they were made from, two handles are equivalent exactly when both can be
   read and lead to the same session key; for well-formed keys, exactly when those are the same.
   */
  lemma {:induction false} EquivalentIff(k1: string, v1: nat, k2: string, v2: nat)
    requires v1 < VERSIONS && v2 < VERSIONS
    ensures var h1, h2 := HandleText(k1, v1), HandleText(k2, v2);
            && (Equivalent(h1, h2) <==> HandleKey(h1).Some? && HandleKey(h1) == HandleKey(h2))
            && (WellFormed(k1) && WellFormed(k2) ==> (Equivalent(h1, h2) <==> k1 == k2))
  {
    var h1, h2 := HandleText(k1, v1), HandleText(k2, v2);
    if HandleKey(h1).Some? && HandleKey(h1) == HandleKey(h2) {
      ReadHandle(k1, v1);
      ReadHandle(k2, v2);
      SameOrigin(ReadOLine(h1).value, v1, ReadOLine(h2).value, v2);
    }
    if WellFormed(k1) && WellFormed(k2) {
      HandleOrigin(k1, v1);
      HandleOrigin(k2, v2);
    }
  }

  lemma {:induction false} SameOrigin(r: Origin, v: nat, q: Origin, w: nat)
    requires Parts(r) && NetParts(r, v) && Parts(q) && NetParts(q, w) && KeyOf(r) == KeyOf(q)
    ensures r == q
  {
    var x, y := Sep(r.sessionId, '#', r.creator), Sep(q.sessionId, '#', q.creator);
    SepInjective(r.nettype + r.addrtype, Sep(r.username, '#', x), q.nettype + q.addrtype, Sep(q.username, '#', y), '#');
    SepInjective(r.username, x, q.username, y, '#');
    SepInjective(r.sessionId, r.creator, q.sessionId, q.creator, '#');
    NetPartsInjective(r, v, q, w);
  }
}
