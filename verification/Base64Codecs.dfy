/** The codecs as loops: the page-cursor one streams bits through a wrapping 32-bit accumulator, the
    token and Argon2 ones work in blocks. */
module Base64Codecs {
  import opened Types
  import opened Bits
  import opened Base64

  // ---- The page cursor's streaming codec -------------------------------------------------------

  lemma EmitSextet(done: seq<sextet>, pend: seq<bool>, rest: seq<bool>, goal: seq<sextet>, val: nat) returns (d: sextet)
    requires Packing(6, done, pend, rest, goal) && Holds(val, pend) && |pend| >= 6
    ensures d == val / Pow2(|pend| - 6) % 64
    ensures Packing(6, done + [d], pend[6..], rest, goal) && Holds(val, pend[6..])
  {
    Pow2Values();
    EmitGroup(6, done, pend, rest, goal, val);
    d := val / Pow2(|pend| - 6) % 64;
  }

  lemma TextSnoc(a: Alphabet, ds: seq<sextet>, d: sextet)
    ensures Text(a, ds + [d]) == Text(a, ds) + [Char(a, d)]
  {
    TextAppend(a, ds, [d]);
    assert [d][1..] == [];
  }

  lemma GroupsOfShort(pend: seq<bool>)
    requires 0 < |pend| < 6
    ensures Groups(6, pend) == [Number(pend) * Pow2(6 - |pend|)]
  {
  }

  /** The digit written after the loop: the pending bits with zeros behind them. */
  lemma LastSextet(done: seq<sextet>, pend: seq<bool>, goal: seq<sextet>, val: nat)
    requires Packing(6, done, pend, [], goal) && Holds(val, pend) && 0 < |pend| < 6
    ensures Text(Url, done) + [Char(Url, val * 256 % UINT32 / Pow2(|pend| + 2) % 64)] == Text(Url, goal)
  {
    hide Text, Char, Number, Word, Pow2, Groups;
    GroupsOfShort(pend);
    Pow2Values();
    ShiftIn(val, pend, 8, 0);
    TakeTop(val * 256 % UINT32, pend + Word(8, 0), 6);
    PadWithZeros(pend);
    TextSnoc(Url, done, Number(pend) * Pow2(6 - |pend|));
    assert pend + [] == pend;
  }

  lemma PadWithZeros(pend: seq<bool>)
    requires 0 < |pend| < 6
    ensures Number((pend + Word(8, 0))[..6]) == Number(pend) * Pow2(6 - |pend|) < 64
  {
    hide Number, Word, Pow2;
    var z := Word(8, 0)[..6 - |pend|];
    assert (pend + Word(8, 0))[..6] == pend + z;
    CutByte(0, 6 - |pend|);
    NumberAppend(pend, z);
    NumberBound(pend + z);
    Pow2Values();
  }

  method EncodeStream(data: seq<byte>) returns (out: string)
    ensures out == Encoded(Url, data)
  {
    out := "";
    var val: nat, valb := 0, -6;
    ghost var done: seq<sextet>, pend: seq<bool>, goal := [], [], Digits(data);
    PackingStarts(6, data);
    for i := 0 to |data|
      invariant Packing(6, done, pend, Stream(8, data[i..]), goal) && out == Text(Url, done)
      invariant Holds(val, pend) && |pend| == valb + 6 < 6
    {
      TakeByte(6, done, pend, data, i, goal, val);
      val := (val * 256 + data[i]) % UINT32;
      valb := valb + 8;
      pend := pend + Word(8, data[i]);
      while valb >= 0
        invariant Packing(6, done, pend, Stream(8, data[i + 1..]), goal) && out == Text(Url, done)
        invariant Holds(val, pend) && |pend| == valb + 6
        decreases valb
      {
        ghost var d := EmitSextet(done, pend, Stream(8, data[i + 1..]), goal, val);
        TextSnoc(Url, done, d);
        out := out + [Char(Url, val / Pow2(valb) % 64)];
        done, pend := done + [d], pend[6..];
        valb := valb - 6;
      }
    }
    assert data[|data|..] == [];
    if valb > -6 {
      LastSextet(done, pend, goal, val);
      out := out + [Char(Url, val * 256 % UINT32 / Pow2(valb + 8) % 64)];
    } else {
      assert done + [] == done;
    }
  }

  lemma DecodingStarts()
    ensures Parse(Url, []) == Some([]) && Unpacked(6, [], [], 0, 0)
  {
    Pow2Values();
  }

  method DecodeStream(input: string) returns (r: Option<seq<byte>>)
    ensures r == DecodedLoose(input)
  {
    hide Parse, Value, Pow2, Number, Word, Stream, Whole, Residue;
    var out: seq<byte> := [];
    var val: nat, valb := 0, -8;
    ghost var ds: seq<sextet> := [];
    DecodingStarts();
    for i := 0 to |input|
      invariant Parse(Url, input[..i]) == Some(ds) && Unpacked(6, out, ds, val, valb + 8)
    {
      var v := Value(Url, input[i]);
      ParseNext(Url, input, i);
      if v == -1 {
        return None;
      }
      Pow2Values();
      Unpack(6, out, ds, val, valb + 8, v);
      ds := ds + [v];
      val := (val * 64 + v) % UINT32;
      valb := valb + 6;
      if valb >= 0 {
        out := out + [val / Pow2(valb) % 256];
        valb := valb - 8;
      }
    }
    assert input[..|input|] == input;
    return Some(out);
  }

  lemma ParseNext(a: Alphabet, t: string, i: nat)
    requires i < |t| && Parse(a, t[..i]).Some?
    ensures if Value(a, t[i]) < 0 then Parse(a, t).None?
            else Parse(a, t[..i + 1]) == Some(Parse(a, t[..i]).value + [Value(a, t[i])])
  {
    assert t == t[..i] + t[i..] && t[..i + 1] == t[..i] + [t[i]];
    ParseAppend(a, t[..i], t[i..]);
    ParseAppend(a, t[..i], [t[i]]);
    ParseOne(a, t[i]);
  }

  lemma ParseOne(a: Alphabet, c: char)
    ensures Parse(a, [c]) == if Value(a, c) < 0 then None else Some([Value(a, c)])
  {
    assert [c][1..] == [];
    if Value(a, c) >= 0 {
      assert [Value(a, c)] + [] == [Value(a, c)];
    }
  }

  // ---- The block encoders ----------------------------------------------------------------------

  /** The four digits of a 24-bit group, as the source shifts and masks them out. */
  function Triple(a: byte, b: byte, c: byte): nat {
    a * 65536 + b * 256 + c
  }

  lemma TripleHigh(a: byte, b: byte, c: byte)
    ensures Triple(a, b, c) / 262144 % 64 == a / 4
    ensures Triple(a, b, c) / 4096 % 64 == a % 4 * 16 + b / 16
  {
    var h, l, bh, bl := a / 4, a % 4, b / 16, b % 16;
    assert a == 4 * h + l && b == 16 * bh + bl;
    DivMod(h, l * 65536 + b * 256 + c, 262144);
    DivMod(a * 16 + bh, bl * 256 + c, 4096);
    DivMod(h, l * 16 + bh, 64);
  }

  lemma TripleLow(a: byte, b: byte, c: byte)
    ensures Triple(a, b, c) / 64 % 64 == b % 16 * 4 + c / 64
    ensures Triple(a, b, c) % 64 == c % 64
  {
    var bh, bl, ch, cl := b / 16, b % 16, c / 64, c % 64;
    assert b == 16 * bh + bl && c == 64 * ch + cl;
    DivMod(a * 1024 + b * 4 + ch, cl, 64);
    DivMod(a * 16 + bh, bl * 4 + ch, 64);
  }

  lemma TextOfTwo(a: Alphabet, d: sextet, e: sextet, rest: seq<sextet>)
    ensures Text(a, [d, e] + rest) == [Char(a, d), Char(a, e)] + Text(a, rest)
  {
    TextCons(a, e, rest);
    TextCons(a, d, [e] + rest);
    assert [d, e] + rest == [d] + ([e] + rest);
  }

  lemma TextOfFour(a: Alphabet, d: sextet, e: sextet, f: sextet, g: sextet, rest: seq<sextet>)
    ensures Text(a, [d, e, f, g] + rest) == [Char(a, d), Char(a, e), Char(a, f), Char(a, g)] + Text(a, rest)
  {
    hide Text, Char;
    TextOfTwo(a, f, g, rest);
    TextOfTwo(a, d, e, [f, g] + rest);
    assert [d, e, f, g] + rest == [d, e] + ([f, g] + rest);
  }

  lemma TextOfTail(a: Alphabet, d: sextet, e: sextet, f: sextet)
    ensures Text(a, [d, e]) == [Char(a, d), Char(a, e)]
    ensures Text(a, [d, e, f]) == [Char(a, d), Char(a, e), Char(a, f)]
  {
    assert [d, e] == [d, e] + [] && [d, e, f] == [d, e] + ([f] + []);
    TextCons(a, f, []);
    TextOfTwo(a, d, e, []);
    TextOfTwo(a, d, e, [f] + []);
  }

  /** The text of what is left of the input, by how much is left. */
  lemma EncodedGroup(a: Alphabet, x: byte, y: byte, z: byte, rest: seq<byte>)
    ensures Encoded(a, [x, y, z] + rest) == Quad(a, Triple(x, y, z)) + Encoded(a, rest)
  {
    TripleHigh(x, y, z);
    TripleLow(x, y, z);
    DigitsBlock(x, y, z, rest);
    TextOfFour(a, x / 4, x % 4 * 16 + y / 16, y % 16 * 4 + z / 64, z % 64, Digits(rest));
  }

  lemma EncodedTail(a: Alphabet, x: byte, y: byte)
    ensures var t := Triple(x, 0, 0);
            Encoded(a, [x]) == [Char(a, t / 262144 % 64), Char(a, t / 4096 % 64)]
    ensures var t := Triple(x, y, 0);
            Encoded(a, [x, y]) == [Char(a, t / 262144 % 64), Char(a, t / 4096 % 64), Char(a, t / 64 % 64)]
  {
    TripleHigh(x, 0, 0);
    TripleHigh(x, y, 0);
    TripleLow(x, y, 0);
    DigitsOfOne(x);
    DigitsOfTwo(x, y);
    TextOfTail(a, x / 4, x % 4 * 16, 0);
    TextOfTail(a, x / 4, x % 4 * 16 + y / 16, y % 16 * 4);
  }

  function Quad(a: Alphabet, t: nat): string {
    [Char(a, t / 262144 % 64), Char(a, t / 4096 % 64), Char(a, t / 64 % 64), Char(a, t % 64)]
  }

  lemma EncodedFrom(a: Alphabet, data: seq<byte>, i: nat)
    requires i + 3 <= |data|
    ensures Encoded(a, data[i..]) == Quad(a, Triple(data[i], data[i + 1], data[i + 2])) + Encoded(a, data[i + 3..])
  {
    hide Encoded, Quad, Triple;
    EncodedGroup(a, data[i], data[i + 1], data[i + 2], data[i + 3..]);
    assert data[i..] == [data[i], data[i + 1], data[i + 2]] + data[i + 3..];
  }

  lemma EncodedEnd(a: Alphabet, data: seq<byte>, i: nat)
    requires i < |data| < i + 3
    ensures Encoded(a, data[i..]) ==
              if |data| == i + 2 then Quad(a, Triple(data[i], data[i + 1], 0))[..3]
              else Quad(a, Triple(data[i], 0, 0))[..2]
  {
    EncodedTail(a, data[i], if |data| == i + 2 then data[i + 1] else 0);
    assert data[i..] == if |data| == i + 2 then [data[i], data[i + 1]] else [data[i]];
  }

  /** The characters of the next group: `take` bytes give one character more. */
  lemma EncodedNext(a: Alphabet, data: seq<byte>, i: nat, take: nat)
    requires i < |data| && take == if |data| - i < 3 then |data| - i else 3
    ensures var b: byte, c: byte := if take > 1 then data[i + 1] else 0, if take > 2 then data[i + 2] else 0;
            Encoded(a, data[i..]) == Quad(a, Triple(data[i], b, c))[..take + 1] + Encoded(a, data[i + take..])
  {
    if take == 3 {
      EncodedFrom(a, data, i);
    } else {
      EncodedEnd(a, data, i);
      assert data[i + take..] == [];
    }
  }

  lemma EncodedNone(a: Alphabet)
    ensures Encoded(a, []) == []
  {
  }

  /** Base64Url::encode of the token code. */
  method EncodeUrl(input: seq<byte>) returns (encoded: string)
    ensures encoded == Encoded(Url, input)
  {
    hide Char, Triple, Encoded;
    encoded := "";
    var i := 0;
    assert input[0..] == input;
    while i < |input|
      invariant i <= |input| && encoded + Encoded(Url, input[i..]) == Encoded(Url, input)
    {
      ghost var start := i;
      var remaining := |input| - i;
      var a: byte := input[i];
      i := i + 1;
      var b: byte, c: byte := 0, 0;
      if remaining > 1 {
        b := input[i];
        i := i + 1;
      }
      if remaining > 2 {
        c := input[i];
        i := i + 1;
      }
      EncodedNext(Url, input, start, i - start);
      var triple := Triple(a, b, c);
      var chars := [Char(Url, triple / 262144 % 64), Char(Url, triple / 4096 % 64)];
      if remaining > 1 {
        chars := chars + [Char(Url, triple / 64 % 64)];
      }
      if remaining > 2 {
        chars := chars + [Char(Url, triple % 64)];
      }
      assert chars == Quad(Url, triple)[..i - start + 1];
      assert encoded + (chars + Encoded(Url, input[i..])) == encoded + chars + Encoded(Url, input[i..]);
      encoded := encoded + chars;
    }
    EncodedNone(Url);
    assert input[i..] == [] && encoded + [] == encoded;
  }

  /** base64_encode_unpadded of the Argon2 code: whole groups first, then the tail. */
  method EncodeUnpadded(data: seq<byte>) returns (out: string)
    ensures out == Encoded(Standard, data)
  {
    out := "";
    var i := 0;
    assert data[0..] == data;
    while i + 3 <= |data|
      invariant i <= |data| && out + Encoded(Standard, data[i..]) == Encoded(Standard, data)
    {
      EncodedFrom(Standard, data, i);
      out := out + Quad(Standard, Triple(data[i], data[i + 1], data[i + 2]));
      i := i + 3;
    }
    if i < |data| {
      EncodedEnd(Standard, data, i);
      var remaining := |data| - i;
      var triple := Triple(data[i], if remaining == 2 then data[i + 1] else 0, 0);
      out := out + Quad(Standard, triple)[..2];
      if remaining == 2 {
        out := out + [Char(Standard, triple / 64 % 64)];
      }
    }
  }

  // ---- The block decoders ----------------------------------------------------------------------

  lemma BytesOfNone()
    ensures Bytes([]) == []
  {
  }

  lemma {:induction false} BytesAppend(ds: seq<sextet>, es: seq<sextet>)
    requires |ds| % 4 == 0
    ensures Bytes(ds + es) == Bytes(ds) + Bytes(es)
  {
    hide Bytes;
    if ds == [] {
      assert ds + es == es;
      BytesOfNone();
      assert [] + Bytes(es) == Bytes(es);
    } else {
      var r := ds[4..];
      BytesAppend(r, es);
      assert ds == [ds[0], ds[1], ds[2], ds[3]] + r && ds + es == [ds[0], ds[1], ds[2], ds[3]] + (r + es);
      BytesBlock(ds[0], ds[1], ds[2], ds[3], r);
      BytesBlock(ds[0], ds[1], ds[2], ds[3], r + es);
    }
  }

  /** The bytes of one chunk, as the source shifts and masks them out. */
  lemma ShortChunkBytes(p: sextet, q: sextet, r: sextet)
    ensures Bytes([p, q]) == [(p * 64 + q) / 16 % 256]
    ensures Bytes([p, q, r]) == [(p * 4096 + q * 64 + r) / 1024 % 256, (p * 4096 + q * 64 + r) / 4 % 256]
  {
    hide Bytes;
    BytesOfTwo(p, q);
    BytesOfThree(p, q, r);
    ShortChunkNumbers(p, q, r);
  }

  lemma ShortChunkNumbers(p: sextet, q: sextet, r: sextet)
    ensures (p * 64 + q) / 16 % 256 == p * 4 + q / 16
    ensures var v := p * 4096 + q * 64 + r;
            v / 1024 % 256 == p * 4 + q / 16 && v / 4 % 256 == q % 16 * 16 + r / 4
  {
    var h, l := q / 16, q % 16;
    assert q == 16 * h + l && r == 4 * (r / 4) + r % 4;
    DivMod(p * 4 + h, l, 16);
    DivMod(p * 4 + h, l * 64 + r, 1024);
    DivMod(p * 1024 + q * 16 + r / 4, r % 4, 4);
    DivMod(p * 4 + h, l * 16 + r / 4, 256);
  }

  lemma ChunkBytes(p: sextet, q: sextet, r: sextet, t: sextet)
    ensures var v := p * 262144 + q * 4096 + r * 64 + t;
            Bytes([p, q, r, t]) == [v / 65536 % 256, v / 256 % 256, v % 256]
  {
    hide Bytes;
    assert [p, q, r, t] == [p, q, r, t] + [];
    BytesBlock(p, q, r, t, []);
    BytesOfNone();
    ChunkNumbers(p, q, r, t);
  }

  lemma ChunkNumbers(p: sextet, q: sextet, r: sextet, t: sextet)
    ensures var v := p * 262144 + q * 4096 + r * 64 + t;
            v / 65536 % 256 == p * 4 + q / 16 && v / 256 % 256 == q % 16 * 16 + r / 4 && v % 256 == r % 4 * 64 + t
  {
    var h, l, rh, rl := q / 16, q % 16, r / 4, r % 4;
    assert q == 16 * h + l && r == 4 * rh + rl;
    DivMod(p * 4 + h, l * 4096 + r * 64 + t, 65536);
    DivMod(p * 1024 + q * 16 + rh, rl * 64 + t, 256);
    DivMod(p * 4 + h, l * 16 + rh, 256);
  }

  method Unpad(input: string) returns (u: string)
    ensures u == Unpadded(input)
  {
    u := input;
    while u != [] && u[|u| - 1] == '='
      invariant Unpadded(u) == Unpadded(input)
    {
      u := u[..|u| - 1];
    }
  }

  /** The bytes of a chunk of two, three or four digits. */
  function ChunkOut(vs: seq<sextet>): (bs: seq<byte>)
    requires 2 <= |vs| <= 4
    ensures bs == Bytes(vs)
  {
    if |vs| == 2 then
      assert vs == [vs[0], vs[1]];
      ShortChunkBytes(vs[0], vs[1], 0);
      var val: nat := (vs[0] as nat) * 64 + vs[1];
      [val / 16 % 256]
    else if |vs| == 3 then
      assert vs == [vs[0], vs[1], vs[2]];
      ShortChunkBytes(vs[0], vs[1], vs[2]);
      var val: nat := (vs[0] as nat) * 4096 + (vs[1] as nat) * 64 + vs[2];
      [val / 1024 % 256, val / 4 % 256]
    else
      assert vs == [vs[0], vs[1], vs[2], vs[3]];
      ChunkBytes(vs[0], vs[1], vs[2], vs[3]);
      var val: nat := (vs[0] as nat) * 262144 + (vs[1] as nat) * 4096 + (vs[2] as nat) * 64 + vs[3];
      [val / 65536 % 256, val / 256 % 256, val % 256]
  }

  /** The values of the next `n` characters, or None at the first bad one. */
  method ReadChunk(a: Alphabet, u: string, i: nat, n: nat) returns (r: Option<seq<sextet>>)
    requires i + n <= |u|
    ensures r == Parse(a, u[i..i + n])
  {
    var vs: seq<sextet> := [];
    for j := 0 to n
      invariant Parse(a, u[i..i + n][..j]) == Some(vs)
    {
      ParseNext(a, u[i..i + n], j);
      var v := Value(a, u[i + j]);
      if v < 0 {
        return None;
      }
      vs := vs + [v];
    }
    assert u[i..i + n][..n] == u[i..i + n];
    return Some(vs);
  }

  /** The first `i` characters are read and their bytes written. */
  ghost predicate Read(a: Alphabet, u: string, i: nat, out: seq<byte>) {
    i <= |u| && Parse(a, u[..i]).Some? && out == Bytes(Parse(a, u[..i]).value)
  }

  lemma NextChunk(a: Alphabet, u: string, i: nat, n: nat, out: seq<byte>)
    requires i + n <= |u| && Read(a, u, i, out) && i % 4 == 0
    ensures match Parse(a, u[i..i + n])
            case None => Parse(a, u).None?
            case Some(vs) => Read(a, u, i + n, out + Bytes(vs))
  {
    assert u[..i + n] == u[..i] + u[i..i + n] && u == u[..i + n] + u[i + n..];
    ParseAppend(a, u[..i], u[i..i + n]);
    ParseAppend(a, u[..i + n], u[i + n..]);
    if Parse(a, u[i..i + n]).Some? {
      BytesAppend(Parse(a, u[..i]).value, Parse(a, u[i..i + n]).value);
    }
  }

  /** Reads one chunk and writes its bytes. */
  method DecodeChunk(a: Alphabet, u: string, i: nat, n: nat, out: seq<byte>) returns (r: Option<seq<byte>>)
    requires i + n <= |u| && 2 <= n <= 4 && i % 4 == 0 && Read(a, u, i, out)
    ensures match r
            case None => Parse(a, u).None?
            case Some(more) => Read(a, u, i + n, more)
  {
    NextChunk(a, u, i, n, out);
    var vals := ReadChunk(a, u, i, n);
    if vals.None? {
      return None;
    }
    return Some(out + ChunkOut(vals.value));
  }

  lemma ReadAll(a: Alphabet, u: string, out: seq<byte>)
    requires Read(a, u, |u|, out)
    ensures Parse(a, u).Some? && out == Bytes(Parse(a, u).value)
  {
    assert u[..|u|] == u;
  }

  lemma ReadNothing(a: Alphabet, u: string)
    ensures Read(a, u, 0, [])
    ensures Parse(a, []) == Some([]) && Bytes([]) == []
  {
    assert u[..0] == [] && Stream(6, []) == [] && Whole(8, []) == [];
  }

  /** Base64Url::decode_bytes of the token code. */
  method DecodeUrl(text: string) returns (r: Option<seq<byte>>)
    ensures r == Decoded(Url, text)
  {
    hide Parse, Bytes, Unpadded;
    var input := Unpad(text);
    ReadNothing(Url, input);
    if input == [] {
      return Some([]);
    }
    if |input| % 4 == 1 {
      return None;
    }
    var decoded: seq<byte>, i := [], 0;
    while i < |input|
      invariant Read(Url, input, i, decoded) && (i % 4 == 0 || i == |input|)
    {
      var chunk := if |input| - i < 4 then |input| - i else 4;
      var more := DecodeChunk(Url, input, i, chunk, decoded);
      if more.None? {
        return None;
      }
      decoded := more.value;
      i := i + chunk;
    }
    ReadAll(Url, input, decoded);
    return Some(decoded);
  }

  /** base64_decode_unpadded of the Argon2 code. */
  method DecodeUnpadded(text: string) returns (r: Option<seq<byte>>)
    ensures r == Decoded(Standard, text)
  {
    hide Parse, Bytes, Unpadded;
    var input := Unpad(text);
    ReadNothing(Standard, input);
    if input == [] {
      return Some([]);
    }
    var out: seq<byte>, i := [], 0;
    while i + 4 <= |input|
      invariant Read(Standard, input, i, out) && i % 4 == 0
    {
      var more := DecodeChunk(Standard, input, i, 4, out);
      if more.None? {
        return None;
      }
      out := more.value;
      i := i + 4;
    }
    var rem := |input| - i;
    if rem == 1 {
      return None;
    }
    if rem >= 2 {
      var more := DecodeChunk(Standard, input, i, rem, out);
      if more.None? {
        return None;
      }
      out := more.value;
    }
    ReadAll(Standard, input, out);
    return Some(out);
  }
}
