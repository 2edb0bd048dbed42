/** The ClickHouse TabSeparated form of an event batch
    (src/audit/repository/clickhouse_event_serializer.cpp, src/audit/domain/event_id.cpp). */
module TabSeparated {
  import opened Types
  import opened Wire
  import opened Splitting

  const TAB: byte := 9
  const NEWLINE: byte := 10
  const BACKSLASH: byte := 92
  const QUOTE: byte := 39
  const COMMA: byte := 44
  const COLON: byte := 58
  const OPEN: byte := 123
  const CLOSE: byte := 125

  /** `\N`, the null marker. */
  const NULL_MARKER: text := [92, 78]

  // ---- Escaping --------------------------------------------------------------------------------

  function EscapeByte(b: byte): text {
    if b == TAB then [BACKSLASH, 't' as nat]
    else if b == NEWLINE then [BACKSLASH, 'n' as nat]
    else if b == BACKSLASH then [BACKSLASH, BACKSLASH]
    else if b == 0 then [BACKSLASH, '0' as nat]
    else [b]
  }

  function Escape(s: text): text {
    if s == [] then [] else EscapeByte(s[0]) + Escape(s[1..])
  }

  /** The byte an escape sequence stands for; -1 if the second byte makes none. */
  function Unescaped(b: byte): (r: int)
    ensures -1 <= r < 256
  {
    if b == 't' as nat then TAB else if b == 'n' as nat then NEWLINE
    else if b == '0' as nat then 0 else if b == BACKSLASH then BACKSLASH else -1
  }

  function Unescape(s: text): text {
    if s == [] then []
    else if s[0] == BACKSLASH && |s| > 1 && Unescaped(s[1]) >= 0 then [Unescaped(s[1])] + Unescape(s[2..])
    else [s[0]] + Unescape(s[1..])
  }

  method EscapeText(input: text) returns (escaped: text)
    ensures escaped == Escape(input)
  {
    escaped := [];
    assert input[0..] == input;
    for i := 0 to |input|
      invariant escaped + Escape(input[i..]) == Escape(input)
    {
      assert input[i..][0] == input[i] && input[i..][1..] == input[i + 1..];
      assert escaped + (EscapeByte(input[i]) + Escape(input[i + 1..])) ==
             escaped + EscapeByte(input[i]) + Escape(input[i + 1..]);
      escaped := escaped + EscapeByte(input[i]);
    }
  }

  lemma UnescapeAt(s: text, i: nat)
    requires i < |s|
    ensures Unescape(s[i..]) ==
            if s[i] == BACKSLASH && i + 1 < |s| &&
               Unescaped(s[i + 1]) >= 0 then [Unescaped(s[i + 1])] + Unescape(s[i + 2..])
            else [s[i]] + Unescape(s[i + 1..])
  {
    assert s[i..][1..] == s[i + 1..];
    if i + 1 < |s| {
      assert s[i..][2..] == s[i + 2..];
    }
  }

  method UnescapeText(input: text) returns (result: text)
    ensures result == Unescape(input)
  {
    result := [];
    var i := 0;
    assert input[0..] == input && Unescape(input[|input|..]) == [];
    hide Unescape;
    while i < |input|
      invariant i <= |input| && result + Unescape(input[i..]) == Unescape(input)
    {
      UnescapeAt(input, i);
      if input[i] == BACKSLASH && i + 1 < |input| && Unescaped(input[i + 1]) >= 0 {
        Assoc(result, Unescaped(input[i + 1]), Unescape(input[i + 2..]));
        result := result + [Unescaped(input[i + 1])];
        i := i + 2;
      } else {
        Assoc(result, input[i], Unescape(input[i + 1..]));
        result := result + [input[i]];
        i := i + 1;
      }
    }
  }

  lemma UnescapeStep(b: byte, rest: text)
    ensures Unescape(EscapeByte(b) + rest) == [b] + Unescape(rest)
  {
    var s := EscapeByte(b) + rest;
    if |EscapeByte(b)| == 2 {
      assert s[2..] == rest && s[1] == EscapeByte(b)[1];
    } else {
      assert s[1..] == rest;
    }
  }

  lemma {:induction false} EscapeRoundTrip(s: text)
    ensures Unescape(Escape(s)) == s
  {
    if s != [] {
      EscapeRoundTrip(s[1..]);
      UnescapeStep(s[0], Escape(s[1..]));
      assert s == [s[0]] + s[1..];
    }
  }

  ghost predicate Plain(s: text) {
    TAB !in s && NEWLINE !in s
  }

  /** An escaped field holds no separator, is not the null marker, is empty only if the field is, and
      gains no byte but the escapes. */
  lemma {:induction false} EscapedField(s: text)
    ensures Plain(Escape(s)) && Escape(s) != NULL_MARKER && (Escape(s) == [] <==> s == [])
    ensures forall b :: b in Escape(s) ==>
            b in s || b == BACKSLASH || b == 't' as nat || b == 'n' as nat || b == '0' as nat
  {
    if s != [] {
      EscapedField(s[1..]);
      var e := EscapeByte(s[0]);
      assert Escape(s)[0] == e[0] && (|e| == 2 ==> Escape(s)[1] == e[1]);
    }
  }

  // ---- Event ids as text -----------------------------------------------------------------------

  function HexDigit(n: nat): byte
    requires n < 16
  {
    if n < 10 then '0' as nat + n else 'a' as nat + n - 10
  }

  function HexValue(b: byte): (v: int)
    ensures -1 <= v < 16
  {
    if '0' as nat <= b <= '9' as nat then b - '0' as nat
    else if 'a' as nat <= b <= 'f' as nat then b - 'a' as nat + 10
    else if 'A' as nat <= b <= 'F' as nat then b - 'A' as nat + 10
    else -1
  }

  function Hex(bs: seq<byte>): (s: text)
    ensures |s| == 2 * |bs|
  {
    if bs == [] then [] else [HexDigit(bs[0] / 16), HexDigit(bs[0] % 16)] + Hex(bs[1..])
  }

  function FromHex(s: text): Option<seq<byte>> {
    if s == [] then Some([])
    else if |s| == 1 || HexValue(s[0]) < 0 || HexValue(s[1]) < 0 then None
    else
      var rest := FromHex(s[2..]);
      if rest.None? then None else Some([HexValue(s[0]) * 16 + HexValue(s[1])] + rest.value)
  }

  const DASH: text := ['-' as nat]

  /** EventId::to_string: 8-4-4-4-12 lower-case hex digits. */
  function IdText(id: EventId): text
    requires |id.bytes| == 16
  {
    var h := Hex(id.bytes);
    h[..8] + DASH + h[8..12] + DASH + h[12..16] + DASH + h[16..20] + DASH + h[20..]
  }

  /** The sixteen bytes of a UUID text. */
  function ReadUuid(s: text): Option<EventId> {
    if |s| != 36 || s[8] != '-' as nat || s[13] != '-' as nat || s[18] != '-' as nat || s[23] != '-' as nat then None
    else
      var raw := FromHex(s[..8] + s[9..13] + s[14..18] + s[19..23] + s[24..]);
      if raw.Some? then Some(EventId(raw.value)) else None
  }

  /** EventId::from_string: only version 7 ids are accepted. */
  function IdFromText(s: text): Option<EventId> {
    var id := ReadUuid(s);
    if id.Some? && Version7(id.value) then id else None
  }

  lemma {:induction false} HexRoundTrip(bs: seq<byte>)
    ensures FromHex(Hex(bs)) == Some(bs)
  {
    if bs != [] {
      HexRoundTrip(bs[1..]);
      assert Hex(bs)[2..] == Hex(bs[1..]);
      assert bs == [bs[0]] + bs[1..];
    }
  }

  lemma {:induction false} HexIsPlain(bs: seq<byte>)
    ensures Plain(Hex(bs))
  {
    if bs != [] {
      HexIsPlain(bs[1..]);
    }
  }

  lemma DashedHex(h: text)
    requires |h| == 32
    ensures var s := h[..8] + DASH + h[8..12] + DASH + h[12..16] + DASH + h[16..20] + DASH + h[20..];
            && |s| == 36 && s[8] == s[13] == s[18] == s[23] == '-' as nat
            && s[..8] + s[9..13] + s[14..18] + s[19..23] + s[24..] == h
  {
    var s := h[..8] + DASH + h[8..12] + DASH + h[12..16] + DASH + h[16..20] + DASH + h[20..];
    assert s[..8] == h[..8] && s[9..13] == h[8..12] && s[14..18] == h[12..16] && s[19..23] == h[16..20] &&
           s[24..] == h[20..];
    assert h[..8] + h[8..12] + h[12..16] + h[16..20] + h[20..] == h;
  }

  /** The text of an id reads back as that id exactly when it is a version 7 id. */
  lemma IdTextRoundTrip(id: EventId)
    requires |id.bytes| == 16
    ensures ReadUuid(IdText(id)) == Some(id)
    ensures IdFromText(IdText(id)) == if Version7(id) then Some(id) else None
    ensures Plain(IdText(id))
  {
    DashedHex(Hex(id.bytes));
    HexRoundTrip(id.bytes);
    HexIsPlain(id.bytes);
  }

  // ---- Metadata --------------------------------------------------------------------------------

  function Quoted(s: text): text {
    [QUOTE] + Escape(s) + [QUOTE]
  }

  function PairText(k: text, v: text): text {
    Quoted(k) + [COLON] + Quoted(v)
  }

  function PairTexts(ks: seq<text>, m: map<text, text>): (ps: seq<text>)
    requires forall k :: k in ks ==> k in m
    ensures |ps| == |ks|
  {
    if ks == [] then [] else [PairText(ks[0], m[ks[0]])] + PairTexts(ks[1..], m)
  }

  /** format_metadata_map, meeting the keys in the order `ks`. */
  function MetadataText(ks: seq<text>, m: map<text, text>): text
    requires forall k :: k in ks ==> k in m
  {
    [OPEN] + Join(PairTexts(ks, m), COMMA) + [CLOSE]
  }

  function Stripped(s: text): text {
    if |s| >= 2 && s[0] == QUOTE && s[|s| - 1] == QUOTE then s[1..|s| - 1] else s
  }

  /** One `'key':'value'` piece; a piece without a colon is skipped. */
  function ReadPair(pair: text, m: map<text, text>): map<text, text> {
    var colon := Reach(pair, COLON);
    if colon == |pair| then m
    else m[Unescape(Stripped(pair[..colon])) := Unescape(Stripped(pair[colon + 1..]))]
  }

  function ReadPairs(pairs: seq<text>, m: map<text, text>): map<text, text>
    decreases |pairs|
  {
    if pairs == [] then m else ReadPairs(pairs[1..], ReadPair(pairs[0], m))
  }

  function ReadMetadata(s: text): map<text, text> {
    if |s| >= 2 && s[0] == OPEN && s[|s| - 1] == CLOSE then ReadPairs(Split(s[1..|s| - 1], COMMA), map[]) else map[]
  }

  /** Keys free of ',' and ':', values free of ','. */
  ghost predicate PlainMetadata(m: map<text, text>) {
    forall k :: k in m ==> COMMA !in k && COLON !in k && COMMA !in m[k]
  }

  lemma PairReads(k: text, v: text, m: map<text, text>)
    requires COLON !in k
    ensures ReadPair(PairText(k, v), m) == m[k := v]
  {
    EscapedField(k);
    EscapeRoundTrip(k);
    EscapeRoundTrip(v);
    var p := PairText(k, v);
    ReachOf(Quoted(k), COLON, Quoted(v));
    assert p[..|Quoted(k)|] == Quoted(k) && p[|Quoted(k)| + 1..] == Quoted(v);
    StripsQuotes(k);
    StripsQuotes(v);
  }

  lemma StripsQuotes(s: text)
    ensures Stripped(Quoted(s)) == Escape(s)
  {
  }

  lemma PairTextIsPlain(k: text, v: text)
    ensures Plain(PairText(k, v)) && PairText(k, v) != []
    ensures COMMA !in k && COMMA !in v ==> COMMA !in PairText(k, v)
  {
    EscapedField(k);
    EscapedField(v);
  }

  lemma {:induction false} PairTextsPlain(ks: seq<text>, m: map<text, text>)
    requires forall k :: k in ks ==> k in m
    ensures forall i :: 0 <= i < |ks| ==> Plain(PairTexts(ks, m)[i]) && PairTexts(ks, m)[i] != []
    ensures PlainMetadata(m) ==> forall i :: 0 <= i < |ks| ==> COMMA !in PairTexts(ks, m)[i]
  {
    if ks != [] {
      PairTextIsPlain(ks[0], m[ks[0]]);
      PairTextsPlain(ks[1..], m);
    }
  }

  ghost function Extended(m: map<text, text>, ks: seq<text>, from: map<text, text>): map<text, text>
    requires forall k :: k in ks ==> k in from
  {
    map k | k in m.Keys + (set x | x in ks) :: if k in ks then from[k] else m[k]
  }

  lemma {:induction false} PairsRead(ks: seq<text>, from: map<text, text>, m: map<text, text>)
    requires (forall k :: k in ks ==> k in from) && PlainMetadata(from)
    ensures ReadPairs(PairTexts(ks, from), m) == Extended(m, ks, from)
  {
    if ks != [] {
      var k := ks[0];
      PairReads(k, from[k], m);
      PairsRead(ks[1..], from, m[k := from[k]]);
      assert PairTexts(ks, from)[1..] == PairTexts(ks[1..], from);
      ExtendedStep(ks, from, m);
    }
  }

  lemma ExtendedStep(ks: seq<text>, from: map<text, text>, m: map<text, text>)
    requires ks != [] && forall k :: k in ks ==> k in from
    ensures Extended(m[ks[0] := from[ks[0]]], ks[1..], from) == Extended(m, ks, from)
  {
    assert forall k :: k in ks <==> k == ks[0] || k in ks[1..];
  }

  lemma {:induction false} UnescapeGains(s: text, b: byte)
    requires b in Unescape(s)
    ensures b in s || b == TAB || b == NEWLINE || b == 0 || b == BACKSLASH
  {
    if s[0] == BACKSLASH && |s| > 1 && Unescaped(s[1]) >= 0 {
      if b != Unescaped(s[1]) {
        UnescapeGains(s[2..], b);
      }
    } else if b != s[0] {
      UnescapeGains(s[1..], b);
    }
  }

  lemma StrippedLacks(s: text, b: byte)
    requires b !in s && b != TAB && b != NEWLINE && b != 0 && b != BACKSLASH
    ensures b !in Unescape(Stripped(s))
  {
    if b in Unescape(Stripped(s)) {
      UnescapeGains(Stripped(s), b);
    }
  }

  lemma ReadPairPlain(pair: text, m: map<text, text>)
    requires COMMA !in pair && PlainMetadata(m)
    ensures PlainMetadata(ReadPair(pair, m))
  {
    var colon := Reach(pair, COLON);
    if colon < |pair| {
      StrippedLacks(pair[..colon], COMMA);
      StrippedLacks(pair[..colon], COLON);
      StrippedLacks(pair[colon + 1..], COMMA);
    }
  }

  lemma {:induction false} ReadPairsPlain(pairs: seq<text>, m: map<text, text>)
    requires (forall i :: 0 <= i < |pairs| ==> COMMA !in pairs[i]) && PlainMetadata(m)
    ensures PlainMetadata(ReadPairs(pairs, m))
    decreases |pairs|
  {
    if pairs != [] {
      ReadPairPlain(pairs[0], m);
      ReadPairsPlain(pairs[1..], ReadPair(pairs[0], m));
    }
  }

  /** Whatever is read has no ',' or ':' in its keys and no ',' in its values. */
  lemma ReadMetadataPlain(s: text)
    ensures PlainMetadata(ReadMetadata(s))
  {
    if |s| >= 2 {
      PiecesHaveNoSeparator(s[1..|s| - 1], COMMA);
      ReadPairsPlain(Split(s[1..|s| - 1], COMMA), map[]);
    }
  }

  /** The metadata reads back, in whatever order it was met, exactly when it is plain. */
  lemma MetadataRoundTrip(ks: seq<text>, m: map<text, text>)
    requires forall k :: k in ks <==> k in m
    ensures ReadMetadata(MetadataText(ks, m)) == m <==> PlainMetadata(m)
  {
    if PlainMetadata(m) {
      PlainMetadataReads(ks, m);
    } else {
      ReadMetadataPlain(MetadataText(ks, m));
    }
  }

  lemma PlainMetadataReads(ks: seq<text>, m: map<text, text>)
    requires PlainMetadata(m) && forall k :: k in ks <==> k in m
    ensures ReadMetadata(MetadataText(ks, m)) == m
  {
    hide PairTexts, Join, Split, ReadPairs, Extended, PlainMetadata;
    var ps, s := PairTexts(ks, m), MetadataText(ks, m);
    PairTextsPlain(ks, m);
    SplitJoin(ps, COMMA);
    PairsRead(ks, m, map[]);
    AllExtended(ks, m);
    assert s[1..|s| - 1] == Join(ps, COMMA);
  }

  lemma AllExtended(ks: seq<text>, m: map<text, text>)
    requires forall k :: k in ks <==> k in m
    ensures Extended(map[], ks, m) == m
  {
  }

  lemma {:induction false} JoinIsPlain(ps: seq<text>, sep: byte)
    requires sep != TAB && sep != NEWLINE && forall i :: 0 <= i < |ps| ==> Plain(ps[i])
    ensures Plain(Join(ps, sep))
  {
    if |ps| > 1 {
      JoinIsPlain(ps[1..], sep);
    }
  }

  lemma MetadataTextIsPlain(ks: seq<text>, m: map<text, text>)
    requires forall k :: k in ks ==> k in m
    ensures Plain(MetadataText(ks, m)) && MetadataText(ks, m) != []
  {
    PairTextsPlain(ks, m);
    JoinIsPlain(PairTexts(ks, m), COMMA);
  }
}
