/** Base64 (sections 4 and 5 of RFC 4648, without padding): the text of a byte string is its bits in
    groups of six, and the bytes of a text are its bits in groups of eight. */
module Base64 {
  import opened Types
  import opened Bits

  type sextet = i: nat | i < 64

  function Sextets(b: seq<bool>): seq<sextet> {
    GroupsFit(6, b);
    Pow2Values();
    Groups(6, b)
  }

  /** The digits of a byte string. */
  function Digits(bs: seq<byte>): seq<sextet> {
    Sextets(Stream(8, bs))
  }

  /** The bytes that a digit string spells; bits that do not fill a byte are dropped. */
  function Bytes(ds: seq<sextet>): (bs: seq<byte>) {
    WholeFits(8, Stream(6, ds));
    Pow2Values();
    Whole(8, Stream(6, ds))
  }

  lemma BytesOfDigits(bs: seq<byte>)
    ensures Bytes(Digits(bs)) == bs
  {
    Pow2Values();
    StreamOfGroups(6, Stream(8, bs));
    WholeOfStream(8, bs, Zeros(Fill(6, |Stream(8, bs)|)));
  }

  // ---- The block formulas ----------------------------------------------------------------------

  lemma CutByte(x: byte, k: nat)
    requires k <= 8
    ensures Number(Word(8, x)[..k]) == x / Pow2(8 - k) && Number(Word(8, x)[k..]) == x % Pow2(8 - k)
  {
    hide Number, Word, Pow2;
    var b := Word(8, x);
    assert x < Pow2(8) by { Pow2Values(); }
    NumberWord(8, x);
    assert b == b[..k] + b[k..];
    Cut(b[..k], b[k..]);
  }

  lemma CutSextet(x: sextet, k: nat)
    requires k <= 6
    ensures Number(Word(6, x)[..k]) == x / Pow2(6 - k) && Number(Word(6, x)[k..]) == x % Pow2(6 - k)
  {
    hide Number, Word, Pow2;
    var b := Word(6, x);
    assert x < Pow2(6) by { Pow2Values(); }
    NumberWord(6, x);
    assert b == b[..k] + b[k..];
    Cut(b[..k], b[k..]);
  }

  /** Moves the first `k` bits of `b` to the group before. */
  lemma Shift(a: seq<bool>, b: seq<bool>, k: nat, rest: seq<bool>)
    requires k <= |b|
    ensures a + (b + rest) == (a + b[..k]) + (b[k..] + rest)
  {
  }

  /** Three bytes are four digits. */
  lemma DigitsBlock(a: byte, b: byte, c: byte, rest: seq<byte>)
    ensures Digits([a, b, c] + rest) == [a / 4, a % 4 * 16 + b / 16, b % 16 * 4 + c / 64, c % 64] + Digits(rest)
  {
    var x, y, z, s := Word(8, a), Word(8, b), Word(8, c), Stream(8, rest);
    StreamThree(8, a, b, c, rest);
    assert x + (y + (z + s)) == x[..6] + (x[6..] + (y + (z + s)));
    GroupsPeel(6, x[..6], x[6..] + (y + (z + s)));
    Shift(x[6..], y, 4, z + s);
    GroupsPeel(6, x[6..] + y[..4], y[4..] + (z + s));
    Shift(y[4..], z, 2, s);
    GroupsPeel(6, y[4..] + z[..2], z[2..] + s);
    GroupsPeel(6, z[2..], s);
    BlockNumbers(a, b, c);
  }

  lemma StreamThree(w: nat, a: nat, b: nat, c: nat, rest: seq<nat>)
    ensures Stream(w, [a, b, c] + rest) == Word(w, a) + (Word(w, b) + (Word(w, c) + Stream(w, rest)))
  {
    assert [a, b, c] + rest == [a] + ([b] + ([c] + rest));
    StreamCons(w, a, [b] + ([c] + rest));
    StreamCons(w, b, [c] + rest);
    StreamCons(w, c, rest);
  }

  lemma BlockNumbers(a: byte, b: byte, c: byte)
    ensures Number(Word(8, a)[..6]) == a / 4
    ensures Number(Word(8, a)[6..] + Word(8, b)[..4]) == a % 4 * 16 + b / 16
    ensures Number(Word(8, b)[4..] + Word(8, c)[..2]) == b % 16 * 4 + c / 64
    ensures Number(Word(8, c)[2..]) == c % 64
  {
    Pow2Values();
    CutByte(a, 6);
    CutByte(b, 4);
    CutByte(c, 2);
    NumberAppend(Word(8, a)[6..], Word(8, b)[..4]);
    NumberAppend(Word(8, b)[4..], Word(8, c)[..2]);
  }

  /** The digits of a tail of one or two bytes. */
  lemma DigitsOfOne(a: byte)
    ensures Digits([a]) == [a / 4, a % 4 * 16]
  {
    var x := Word(8, a);
    Pow2Values();
    CutByte(a, 6);
    StreamOfOne(8, a);
    assert x == x[..6] + x[6..];
    GroupsPeel(6, x[..6], x[6..]);
  }

  lemma DigitsOfTwo(a: byte, b: byte)
    ensures Digits([a, b]) == [a / 4, a % 4 * 16 + b / 16, b % 16 * 4]
  {
    hide Number, Word, Groups, Stream;
    var x, y := Word(8, a), Word(8, b);
    BlockNumbers(a, b, 0);
    StreamOfOne(8, b);
    assert [a, b] == [a] + [b];
    StreamCons(8, a, [b]);
    var s := (x[6..] + y[..4]) + y[4..];
    assert x + y == x[..6] + s;
    GroupsPeel(6, x[..6], s);
    GroupsPeel(6, x[6..] + y[..4], y[4..]);
    ShortGroup(b);
  }

  lemma ShortGroup(b: byte)
    ensures Groups(6, Word(8, b)[4..]) == [b % 16 * 4]
  {
    Pow2Values();
    CutByte(b, 4);
  }

  lemma SextetNumbers(p: sextet, q: sextet, r: sextet, t: sextet)
    ensures Number(Word(6, p) + Word(6, q)[..2]) == p * 4 + q / 16
    ensures Number(Word(6, q)[2..] + Word(6, r)[..4]) == q % 16 * 16 + r / 4
    ensures Number(Word(6, r)[4..] + Word(6, t)) == r % 4 * 64 + t
  {
    Pow2Values();
    CutSextet(q, 2);
    CutSextet(r, 4);
    NumberWord(6, p);
    NumberWord(6, t);
    NumberAppend(Word(6, p), Word(6, q)[..2]);
    NumberAppend(Word(6, q)[2..], Word(6, r)[..4]);
    NumberAppend(Word(6, r)[4..], Word(6, t));
  }

  /** Four digits are three bytes. */
  lemma BytesBlock(p: sextet, q: sextet, r: sextet, t: sextet, rest: seq<sextet>)
    ensures Bytes([p, q, r, t] + rest) == [p * 4 + q / 16, q % 16 * 16 + r / 4, r % 4 * 64 + t] + Bytes(rest)
  {
    hide Number, Word, Pow2, Groups, Whole, Stream;
    var x, y, z, u, s := Word(6, p), Word(6, q), Word(6, r), Word(6, t), Stream(6, rest);
    assert [p, q, r, t] + rest == [p, q, r] + ([t] + rest);
    StreamThree(6, p, q, r, [t] + rest);
    StreamCons(6, t, rest);
    Shift(x, y, 2, z + (u + s));
    GroupsPeel(8, x + y[..2], y[2..] + (z + (u + s)));
    Shift(y[2..], z, 4, u + s);
    GroupsPeel(8, y[2..] + z[..4], z[4..] + (u + s));
    assert z[4..] + (u + s) == (z[4..] + u) + s;
    GroupsPeel(8, z[4..] + u, s);
    SextetNumbers(p, q, r, t);
  }

  /** The bytes of two or three digits; one digit spells nothing. */
  lemma BytesOfTwo(p: sextet, q: sextet)
    ensures Bytes([p]) == [] && Bytes([p, q]) == [p * 4 + q / 16]
  {
    var x, y := Word(6, p), Word(6, q);
    StreamOfOne(6, p);
    StreamOfOne(6, q);
    SextetNumbers(p, q, 0, 0);
    assert [p, q] == [p] + [q];
    StreamCons(6, p, [q]);
    assert x + y == (x + y[..2]) + y[2..];
    GroupsPeel(8, x + y[..2], y[2..]);
  }

  lemma BytesOfThree(p: sextet, q: sextet, r: sextet)
    ensures Bytes([p, q, r]) == [p * 4 + q / 16, q % 16 * 16 + r / 4]
  {
    var x, y, z := Word(6, p), Word(6, q), Word(6, r);
    SextetNumbers(p, q, r, 0);
    assert [p, q, r] == [p, q, r] + [];
    StreamThree(6, p, q, r, []);
    Shift(x, y, 2, z + []);
    GroupsPeel(8, x + y[..2], y[2..] + (z + []));
    Shift(y[2..], z, 4, []);
    GroupsPeel(8, y[2..] + z[..4], z[4..] + []);
  }

  lemma {:induction false} DigitsLength(bs: seq<byte>)
    ensures |Digits(bs)| == |bs| / 3 * 4 + (if |bs| % 3 == 0 then 0 else |bs| % 3 + 1)
  {
    if |bs| >= 3 {
      assert bs == [bs[0], bs[1], bs[2]] + bs[3..];
      DigitsBlock(bs[0], bs[1], bs[2], bs[3..]);
      DigitsLength(bs[3..]);
    } else if |bs| == 2 {
      assert bs == [bs[0], bs[1]];
      DigitsOfTwo(bs[0], bs[1]);
    } else if |bs| == 1 {
      assert bs == [bs[0]];
      DigitsOfOne(bs[0]);
    }
  }

  // ---- Alphabets -------------------------------------------------------------------------------

  /** The two alphabets differ in their last two characters. */
  datatype Alphabet = Url | Standard

  function Char(a: Alphabet, d: sextet): char {
    if d < 26 then ('A' as int + d) as char
    else if d < 52 then ('a' as int + d - 26) as char
    else if d < 62 then ('0' as int + d - 52) as char
    else if d == 62 then (if a.Url? then '-' else '+')
    else (if a.Url? then '_' else '/')
  }

  /** base64_char_value: -1 for a character outside the alphabet. */
  function Value(a: Alphabet, c: char): (v: int)
    ensures -1 <= v < 64
  {
    if 'A' <= c <= 'Z' then c as int - 'A' as int
    else if 'a' <= c <= 'z' then c as int - 'a' as int + 26
    else if '0' <= c <= '9' then c as int - '0' as int + 52
    else if c == (if a.Url? then '-' else '+') then 62
    else if c == (if a.Url? then '_' else '/') then 63
    else -1
  }

  function Text(a: Alphabet, ds: seq<sextet>): (t: string)
    ensures |t| == |ds|
  {
    if ds == [] then [] else [Char(a, ds[0])] + Text(a, ds[1..])
  }

  /** The digits a text stands for, if all its characters are in the alphabet. */
  function Parse(a: Alphabet, t: string): (r: Option<seq<sextet>>)
    ensures r.Some? ==> |r.value| == |t|
  {
    if t == [] then Some([])
    else
      var v, rest := Value(a, t[0]), Parse(a, t[1..]);
      if v < 0 || rest.None? then None else Some([v] + rest.value)
  }

  lemma CharValue(a: Alphabet, d: sextet)
    ensures Value(a, Char(a, d)) == d
  {
  }

  lemma {:induction false} ParseText(a: Alphabet, ds: seq<sextet>)
    ensures Parse(a, Text(a, ds)) == Some(ds)
  {
    if ds != [] {
      CharValue(a, ds[0]);
      ParseText(a, ds[1..]);
      assert Text(a, ds)[1..] == Text(a, ds[1..]);
      assert [ds[0]] + ds[1..] == ds;
    }
  }

  lemma TextCons(a: Alphabet, d: sextet, ds: seq<sextet>)
    ensures Text(a, [d] + ds) == [Char(a, d)] + Text(a, ds)
  {
    hide Char;
    assert ([d] + ds)[1..] == ds;
  }

  lemma {:induction false} TextAppend(a: Alphabet, x: seq<sextet>, y: seq<sextet>)
    ensures Text(a, x + y) == Text(a, x) + Text(a, y)
  {
    hide Char, Text;
    if x == [] {
      assert x + y == y && Text(a, x) == [];
    } else {
      TextAppend(a, x[1..], y);
      assert x == [x[0]] + x[1..] && x + y == [x[0]] + (x[1..] + y);
      TextCons(a, x[0], x[1..]);
      TextCons(a, x[0], x[1..] + y);
    }
  }

  lemma ParseStep(a: Alphabet, x: string)
    ensures Parse(a, []) == Some([])
    ensures x != [] ==>
            var v, p := Value(a, x[0]), Parse(a, x[1..]);
            Parse(a, x) == if v >= 0 && p.Some? then Some([v] + p.value) else None
  {
    hide Value;
  }

  lemma {:induction false} ParseAppend(a: Alphabet, x: string, y: string)
    ensures var p, q := Parse(a, x), Parse(a, y);
            Parse(a, x + y) == if p.Some? && q.Some? then Some(p.value + q.value) else None
  {
    hide Value, Parse;
    ParseStep(a, x);
    if x == [] {
      assert x + y == y;
      if Parse(a, y).Some? {
        assert [] + Parse(a, y).value == Parse(a, y).value;
      }
    } else {
      ParseAppend(a, x[1..], y);
      ParseStep(a, x + y);
      assert (x + y)[0] == x[0] && (x + y)[1..] == x[1..] + y;
      var v, p, q := Value(a, x[0]), Parse(a, x[1..]), Parse(a, y);
      if v >= 0 && p.Some? && q.Some? {
        assert [v] + (p.value + q.value) == ([v] + p.value) + q.value;
      }
    }
  }

  /** No text of either alphabet holds a padding sign or a separator of the formats that embed it. */
  lemma {:induction false} TextIsClean(a: Alphabet, ds: seq<sextet>)
    ensures '=' !in Text(a, ds) && '$' !in Text(a, ds) && ',' !in Text(a, ds)
  {
    if ds != [] {
      TextIsClean(a, ds[1..]);
      assert Char(a, ds[0]) != '=' && Char(a, ds[0]) != '$' && Char(a, ds[0]) != ',';
    }
  }

  // ---- Specification of the codecs -------------------------------------------------------------

  function Encoded(a: Alphabet, bs: seq<byte>): string {
    Text(a, Digits(bs))
  }

  /** The page-cursor decoder: any length is accepted. */
  function DecodedLoose(t: string): Option<seq<byte>> {
    var p := Parse(Url, t);
    if p.None? then None else Some(Bytes(p.value))
  }

  function Unpadded(t: string): (r: string)
    ensures r <= t && (r != [] ==> r[|r| - 1] != '=')
    ensures (t != [] ==> t[|t| - 1] != '=') ==> r == t
  {
    if t != [] && t[|t| - 1] == '=' then Unpadded(t[..|t| - 1]) else t
  }

  /** The token and Argon2 decoders: trailing padding is dropped, a lone last character refused. */
  function Decoded(a: Alphabet, t: string): Option<seq<byte>> {
    var u := Unpadded(t);
    var p := Parse(a, u);
    if |u| % 4 == 1 || p.None? then None else Some(Bytes(p.value))
  }

  /** Each decoder undoes the encoding. */
  lemma RoundTrip(a: Alphabet, bs: seq<byte>)
    ensures Decoded(a, Encoded(a, bs)) == Some(bs)
    ensures DecodedLoose(Encoded(Url, bs)) == Some(bs)
  {
    hide Digits, Parse, Bytes, Text, Unpadded;
    BytesOfDigits(bs);
    DigitsLength(bs);
    ParseText(a, Digits(bs));
    ParseText(Url, Digits(bs));
    TextIsClean(a, Digits(bs));
  }

  predicate InAlphabet(a: Alphabet, t: string) {
    forall i :: 0 <= i < |t| ==> Value(a, t[i]) >= 0
  }

  lemma {:induction false} ParsesExactly(a: Alphabet, t: string)
    ensures Parse(a, t).Some? <==> InAlphabet(a, t)
  {
    hide Value;
    if t != [] {
      ParsesExactly(a, t[1..]);
      assert forall i :: 1 <= i < |t| ==> t[i] == t[1..][i - 1];
    }
  }

  predicate Padded(t: string) {
    t != [] && t[|t| - 1] == '='
  }

  /** The two base64url decoders agree on a text exactly when, its trailing padding dropped, it has a
      character outside the alphabet, or else it is padded just when its length is impossible. On any
      other text exactly one of the two accepts. */
  lemma DecodersAgree(t: string)
    ensures Decoded(Url, t) == DecodedLoose(t) <==>
            (InAlphabet(Url, Unpadded(t)) ==> (Padded(t) <==> |Unpadded(t)| % 4 == 1))
    ensures Decoded(Url, t) != DecodedLoose(t) ==> Decoded(Url, t).None? || DecodedLoose(t).None?
  {
    hide Parse, Unpadded, Bytes;
    var u := Unpadded(t);
    ParsesExactly(Url, t);
    ParsesExactly(Url, u);
    if Padded(t) {
      assert !InAlphabet(Url, t);
    } else {
      assert u == t;
    }
    hide InAlphabet;
  }
}
