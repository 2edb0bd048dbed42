/** Base32 (section 6 of RFC 4648): five-bit groups, optional padding, and a forgiving decoder. */
module Base32 {
  import opened Types
  import opened Bits
  import opened Ascii

  type quintet = i: nat | i < 32

  function Quintets(bs: seq<byte>): seq<quintet> {
    GroupsFit(5, Stream(8, bs));
    Pow2Values();
    Groups(5, Stream(8, bs))
  }

  function Symbol(d: quintet): char {
    if d < 26 then ('A' as int + d) as char else ('2' as int + d - 26) as char
  }

  /** base32_char_value: either case, -1 outside the alphabet. */
  function SymbolValue(c: char): (v: int)
    ensures -1 <= v < 32
  {
    if 'A' <= c <= 'Z' then c as int - 'A' as int
    else if 'a' <= c <= 'z' then c as int - 'a' as int
    else if '2' <= c <= '7' then c as int - '2' as int + 26
    else -1
  }

  predicate Skipped(c: char) {
    c == '-' || Space(c)
  }

  function Spelled(ds: seq<quintet>): (t: string)
    ensures |t| == |ds|
  {
    if ds == [] then [] else Spelled(ds[..|ds| - 1]) + [Symbol(ds[|ds| - 1])]
  }

  function Pads(n: nat): (p: string)
    ensures |p| == n
  {
    seq(n, _ => '=')
  }

  /** How many padding signs complete a block of eight characters. */
  function Missing(n: nat): nat {
    if n % 8 == 0 then 0 else 8 - n % 8
  }

  function Encoded(bs: seq<byte>, padding: bool): string {
    var t := Spelled(Quintets(bs));
    t + if padding then Pads(Missing(|t|)) else []
  }

  lemma SpelledSnoc(ds: seq<quintet>, d: quintet)
    ensures Spelled(ds + [d]) == Spelled(ds) + [Symbol(d)]
  {
    assert (ds + [d])[..|ds|] == ds;
  }

  // ---- What the decoder reads off a text -------------------------------------------------------

  datatype Scanned = Scanned(digits: seq<quintet>, padded: bool)

  /** The scan after one more character. */
  function Next(s: Scanned, c: char): Option<Scanned> {
    if Skipped(c) then Some(s)
    else if c == '=' then Some(s.(padded := true))
    else if s.padded || SymbolValue(c) < 0 then None
    else Some(Scanned(s.digits + [SymbolValue(c)], false))
  }

  function Scan(t: string): Option<Scanned> {
    if t == [] then Some(Scanned([], false))
    else
      var s := Scan(t[..|t| - 1]);
      if s.None? then None else Next(s.value, t[|t| - 1])
  }

  function Decoded(t: string): Option<seq<byte>> {
    var s := Scan(t);
    if s.None? then None
    else
      var bits := Stream(5, s.value.digits);
      WholeFits(8, bits);
      Pow2Values();
      if Number(Residue(8, bits)) != 0 then None else Some(Whole(8, bits))
  }

  // ---- The texts it accepts --------------------------------------------------------------------

  /** The text without separators and padding, in upper case. */
  function Letters(t: string): string {
    if t == [] then [] else Letters(t[..|t| - 1]) + Letter(t[|t| - 1])
  }

  function Letter(c: char): string {
    if Skipped(c) || c == '=' then [] else [UpperChar(c)]
  }

  lemma Snoc(t: string, c: char)
    ensures Letters(t + [c]) == Letters(t) + Letter(c)
    ensures Scan(t + [c]) == if Scan(t).None? then None else Next(Scan(t).value, c)
  {
    assert (t + [c])[..|t|] == t;
  }

  /** Nothing but padding and separators follows a padding sign. */
  ghost predicate PaddingLast(t: string) {
    forall i, j :: 0 <= i < j < |t| && t[i] == '=' ==> Skipped(t[j]) || t[j] == '='
  }

  lemma PaddingLastSnoc(t: string, c: char)
    ensures PaddingLast(t + [c]) <==> PaddingLast(t) && ('=' in t ==> Skipped(c) || c == '=')
  {
    var u := t + [c];
    if PaddingLast(u) {
      forall i, j | 0 <= i < j < |t| && t[i] == '=' ensures Skipped(t[j]) || t[j] == '=' {
        assert u[i] == t[i] && u[j] == t[j];
      }
      if '=' in t {
        var i :| 0 <= i < |t| && t[i] == '=';
        assert u[i] == '=' && u[|t|] == c;
      }
    }
  }

  lemma SymbolCase(c: char, d: quintet)
    requires !Skipped(c) && c != '='
    ensures Symbol(d) == UpperChar(c) <==> SymbolValue(c) == d
  {
  }

  /** A successful scan has read exactly the letters. */
  ghost predicate ReadOff(t: string, s: Scanned) {
    PaddingLast(t) && Letters(t) == Spelled(s.digits) && (s.padded <==> '=' in t)
  }

  lemma ReadOffStep(t: string, s: Scanned, c: char)
    requires ReadOff(t, s) && Next(s, c).Some?
    ensures ReadOff(t + [c], Next(s, c).value)
  {
    Snoc(t, c);
    PaddingLastSnoc(t, c);
    if !Skipped(c) && c != '=' {
      SymbolCase(c, SymbolValue(c));
      SpelledSnoc(s.digits, SymbolValue(c));
    } else {
      assert Spelled(s.digits) + [] == Spelled(s.digits);
    }
  }

  lemma {:induction false} ScanReads(t: string)
    requires Scan(t).Some?
    ensures ReadOff(t, Scan(t).value)
  {
    if t != [] {
      var p, c := t[..|t| - 1], t[|t| - 1];
      assert t == p + [c];
      Snoc(p, c);
      ScanReads(p);
      ReadOffStep(p, Scan(p).value, c);
    }
  }

  lemma LastLetter(ls: string, c: char, ds: seq<quintet>)
    requires !Skipped(c) && c != '=' && ls + [UpperChar(c)] == Spelled(ds)
    ensures ds != [] && ls == Spelled(ds[..|ds| - 1]) && SymbolValue(c) == ds[|ds| - 1]
  {
    assert |ds| == |ls| + 1;
    var es, d := ds[..|ds| - 1], ds[|ds| - 1];
    assert ls == (ls + [UpperChar(c)])[..|ls|] == Spelled(ds)[..|ls|] == Spelled(es);
    SymbolCase(c, d);
  }

  lemma FindsLetter(t: string, ds: seq<quintet>, c: char)
    requires !Skipped(c) && c != '=' && ds != [] && SymbolValue(c) == ds[|ds| - 1] && PaddingLast(t + [c])
    requires Scan(t).Some? && Scan(t).value.digits == ds[..|ds| - 1]
    ensures Scan(t + [c]).Some? && Scan(t + [c]).value.digits == ds
  {
    hide Letters, PaddingLast, Spelled, Scan, SymbolValue, Skipped;
    Snoc(t, c);
    PaddingLastSnoc(t, c);
    ScanReads(t);
    assert ds == ds[..|ds| - 1] + [ds[|ds| - 1]];
  }

  /** And a text whose letters spell digits is scanned. */
  lemma {:induction false} ScanFinds(t: string, ds: seq<quintet>)
    requires PaddingLast(t) && Letters(t) == Spelled(ds)
    ensures Scan(t).Some? && Scan(t).value.digits == ds
  {
    if t == [] {
      assert |Spelled(ds)| == 0;
    } else {
      var p, c := t[..|t| - 1], t[|t| - 1];
      assert t == p + [c];
      PaddingLastSnoc(p, c);
      Snoc(p, c);
      if Skipped(c) || c == '=' {
        assert Letters(p) + [] == Letters(p);
        ScanFinds(p, ds);
      } else {
        LastLetter(Letters(p), c, ds);
        ScanFinds(p, ds[..|ds| - 1]);
        FindsLetter(p, ds, c);
      }
    }
  }

  // ---- Which digit strings decode to which bytes -----------------------------------------------

  lemma {:induction false} NoNumberNoBits(b: seq<bool>)
    ensures Number(b) == 0 <==> b == Zeros(|b|)
  {
    NumberZeros(|b|);
    if Number(b) == 0 {
      WordNumber(b);
      WordNumber(Zeros(|b|));
    }
  }

  lemma {:induction false} GroupsOfStream(w: nat, ds: seq<nat>)
    requires w > 0 && Fits(w, ds)
    ensures Groups(w, Stream(w, ds)) == ds
  {
    if ds != [] {
      GroupsOfStream(w, ds[1..]);
      NumberWord(w, ds[0]);
      GroupsPeel(w, Word(w, ds[0]), Stream(w, ds[1..]));
    }
  }

  lemma {:induction false} ZerosAdd(m: nat, n: nat)
    ensures Zeros(m) + Zeros(n) == Zeros(m + n)
  {
    if m > 0 {
      ZerosAdd(m - 1, n);
    }
  }

  /** `bs` is what the digits decode to. */
  ghost predicate Spells(ds: seq<quintet>, bs: seq<byte>) {
    var bits := Stream(5, ds);
    Number(Residue(8, bits)) == 0 && Whole(8, bits) == bs
  }

  lemma SpellsBits(ds: seq<quintet>, bs: seq<byte>)
    ensures Spells(ds, bs) <==> exists n: nat :: n < 8 && Stream(5, ds) == Stream(8, bs) + Zeros(n)
  {
    Pow2Values();
    var bits := Stream(5, ds);
    WholeAndResidue(8, bits);
    NoNumberNoBits(Residue(8, bits));
    if n: nat :| n < 8 && bits == Stream(8, bs) + Zeros(n) {
      WholeOfStream(8, bs, Zeros(n));
      NoNumberNoBits(Zeros(n));
    }
  }

  lemma StreamOfQuintets(bs: seq<byte>)
    ensures Stream(5, Quintets(bs)) == Stream(8, bs) + Zeros(Fill(5, 8 * |bs|))
  {
    StreamOfGroups(5, Stream(8, bs));
    StreamLength(8, bs);
  }

  lemma {:induction false} StreamLength(w: nat, xs: seq<nat>)
    ensures |Stream(w, xs)| == w * |xs|
  {
    if xs != [] {
      StreamLength(w, xs[1..]);
      assert w * |xs| == w + w * |xs[1..]|;
    }
  }

  lemma StreamAndZero(qs: seq<quintet>, s: seq<bool>, f: nat)
    requires Stream(5, qs) == s + Zeros(f)
    ensures Stream(5, qs + [0]) == s + Zeros(f + 5)
  {
    StreamAppend(5, qs, [0]);
    StreamOfOne(5, 0);
    assert Word(5, 0) == Zeros(5) by {
      NoNumberNoBits(Word(5, 0));
      NumberWord(5, 0);
    }
    ZerosAdd(f, 5);
    assert s + Zeros(f) + Zeros(5) == s + (Zeros(f) + Zeros(5));
  }

  lemma {:induction false} FillOfBytes(n: nat)
    ensures Fill(5, 8 * n) == ByteFill(n)
  {
    if n >= 5 {
      FillOfBytes(n - 5);
      FillPeriod(8 * (n - 5), 8);
    } else {
      FillPeriod(3, 1);
      FillPeriod(1, 3);
      FillPeriod(4, 4);
      FillPeriod(2, 6);
    }
  }

  function ByteFill(n: nat): nat {
    match n % 5 { case 0 => 0 case 1 => 2 case 2 => 4 case 3 => 1 case _ => 3 }
  }

  lemma {:induction false} FillPeriod(n: nat, k: nat)
    ensures Fill(5, n + 5 * k) == Fill(5, n)
  {
    if k > 0 {
      FillPeriod(n, k - 1);
      FillStep(n + 5 * (k - 1));
    }
  }

  lemma FillStep(n: nat)
    ensures Fill(5, n + 5) == Fill(5, n)
  {
  }

  /** A lone extra zero digit that completes no byte goes unnoticed; nothing else does. */
  ghost predicate SpareDigit(n: nat) {
    n % 5 == 0 || n % 5 == 1 || n % 5 == 3
  }

  lemma StreamInjective(ds: seq<quintet>, es: seq<quintet>)
    requires Stream(5, ds) == Stream(5, es)
    ensures ds == es
  {
    Pow2Values();
    GroupsOfStream(5, ds);
    GroupsOfStream(5, es);
  }

  lemma SpellsExactly(ds: seq<quintet>, bs: seq<byte>)
    ensures Spells(ds, bs) <==> ds == Quintets(bs) || (SpareDigit(|bs|) && ds == Quintets(bs) + [0])
  {
    var f := Fill(5, 8 * |bs|);
    SpellsBits(ds, bs);
    StreamOfQuintets(bs);
    StreamAndZero(Quintets(bs), Stream(8, bs), f);
    FillOfBytes(|bs|);
    if n: nat :| n < 8 && Stream(5, ds) == Stream(8, bs) + Zeros(n) {
      OnlyTwoFills(ds, bs, n);
      if n == f {
        StreamInjective(ds, Quintets(bs));
      } else {
        StreamInjective(ds, Quintets(bs) + [0]);
      }
    }
  }

  lemma OnlyTwoFills(ds: seq<quintet>, bs: seq<byte>, n: nat)
    requires n < 8 && Stream(5, ds) == Stream(8, bs) + Zeros(n)
    ensures n == Fill(5, 8 * |bs|) || n == Fill(5, 8 * |bs|) + 5
  {
    StreamLength(5, ds);
    StreamLength(8, bs);
    FillOfBytes(|bs|);
    TwoFills(|ds|, |bs|, n);
  }

  lemma TwoFills(d: nat, b: nat, n: nat)
    requires n < 8 && 5 * d == 8 * b + n
    ensures n == ByteFill(b) || n == ByteFill(b) + 5
  {
    var q, r := b / 5, b % 5;
    assert b == 5 * q + r;
    assert 5 * (d - 8 * q) == 8 * r + n;
  }

  // ---- Main results ----------------------------------------------------------------------------

  /** Exactly the accepted texts: padding at the end, and letters that are the encoding of the result,
      or that encoding and one more 'A' where it completes no byte. */
  lemma AcceptedTexts(t: string, bs: seq<byte>)
    ensures Decoded(t) == Some(bs) <==>
            && PaddingLast(t)
            && (Letters(t) == Encoded(bs, false) || (SpareDigit(|bs|) && Letters(t) == Encoded(bs, false) + "A"))
  {
    var qs := Quintets(bs);
    SpelledSnoc(qs, 0);
    assert Encoded(bs, false) == Spelled(qs) && Spelled(qs + [0]) == Spelled(qs) + "A";
    if PaddingLast(t) && Letters(t) == Spelled(qs) {
      ScanFinds(t, qs);
      SpellsExactly(qs, bs);
    } else if PaddingLast(t) && SpareDigit(|bs|) && Letters(t) == Spelled(qs + [0]) {
      ScanFinds(t, qs + [0]);
      SpellsExactly(qs + [0], bs);
    } else if Decoded(t) == Some(bs) {
      ScanReads(t);
      SpellsExactly(Scan(t).value.digits, bs);
      assert false;
    }
  }

  lemma SymbolIsLetter(d: quintet)
    ensures Letter(Symbol(d)) == [Symbol(d)] && Symbol(d) != '='
  {
  }

  lemma {:induction false} LettersOfSpelled(ds: seq<quintet>)
    ensures Letters(Spelled(ds)) == Spelled(ds) && '=' !in Spelled(ds)
  {
    hide Letter, Symbol;
    if ds != [] {
      var p, d := ds[..|ds| - 1], ds[|ds| - 1];
      LettersOfSpelled(p);
      SymbolIsLetter(d);
      Snoc(Spelled(p), Symbol(d));
    }
  }

  lemma {:induction false} LettersOfPadded(t: string, n: nat)
    requires PaddingLast(t)
    ensures Letters(t + Pads(n)) == Letters(t) && PaddingLast(t + Pads(n))
  {
    hide Letters, PaddingLast;
    if n == 0 {
      assert t + Pads(0) == t;
    } else {
      LettersOfPadded(t, n - 1);
      assert t + Pads(n) == (t + Pads(n - 1)) + ['='];
      PaddingLastSnoc(t + Pads(n - 1), '=');
      Snoc(t + Pads(n - 1), '=');
    }
  }

  /** Decoding undoes encoding, with and without padding. */
  lemma RoundTrip(bs: seq<byte>, padding: bool)
    ensures Decoded(Encoded(bs, padding)) == Some(bs)
  {
    var t := Spelled(Quintets(bs));
    LettersOfSpelled(Quintets(bs));
    assert PaddingLast(t);
    LettersOfPadded(t, Missing(|t|));
    assert Encoded(bs, false) == t;
    AcceptedTexts(Encoded(bs, padding), bs);
  }

  // ---- The loops -------------------------------------------------------------------------------

  lemma EmitQuintet(done: seq<quintet>, pend: seq<bool>, rest: seq<bool>, goal: seq<quintet>, val: nat)
    returns (d: quintet)
    requires Packing(5, done, pend, rest, goal) && Holds(val, pend) && |pend| >= 5
    ensures d == val / Pow2(|pend| - 5) % 32
    ensures Packing(5, done + [d], pend[5..], rest, goal) && Holds(val, pend[5..])
  {
    Pow2Values();
    EmitGroup(5, done, pend, rest, goal, val);
    d := val / Pow2(|pend| - 5) % 32;
  }

  /** The digit written after the loop: the pending bits, shifted up to five. */
  lemma LastQuintet(done: seq<quintet>, pend: seq<bool>, goal: seq<quintet>, v: nat)
    requires Packing(5, done, pend, [], goal) && 0 < |pend| < 5 && Holds(v, pend + Word(5 - |pend|, 0))
    ensures done + [v % 32] == goal
  {
    assert pend + [] == pend;
    LowFive(v, pend, 5 - |pend|);
  }

  lemma LowFive(v: nat, pend: seq<bool>, k: nat)
    requires |pend| + k == 5 && Holds(v, pend + Word(k, 0))
    ensures v % 32 == Number(pend) * Pow2(k)
  {
    assert Pow2(5) == 32 by { Pow2Values(); }
    NumberAppend(pend, Word(k, 0));
    NumberWord(k, 0);
  }

  method Encode(data: seq<byte>, includePadding: bool) returns (encoded: string)
    ensures encoded == Encoded(data, includePadding)
  {
    encoded := "";
    if data == [] {
      return;
    }
    var buffer: nat, bitsLeft := 0, 0;
    ghost var done: seq<quintet>, pend: seq<bool>, goal := [], [], Quintets(data);
    PackingStarts(5, data);
    for i := 0 to |data|
      invariant Packing(5, done, pend, Stream(8, data[i..]), goal) && encoded == Spelled(done)
      invariant Holds(buffer, pend) && |pend| == bitsLeft < 5
    {
      TakeByte(5, done, pend, data, i, goal, buffer);
      buffer := (buffer * 256 + data[i]) % UINT32;
      bitsLeft := bitsLeft + 8;
      pend := pend + Word(8, data[i]);
      while bitsLeft >= 5
        invariant Packing(5, done, pend, Stream(8, data[i + 1..]), goal) && encoded == Spelled(done)
        invariant Holds(buffer, pend) && |pend| == bitsLeft
      {
        ghost var d := EmitQuintet(done, pend, Stream(8, data[i + 1..]), goal, buffer);
        SpelledSnoc(done, d);
        bitsLeft := bitsLeft - 5;
        encoded := encoded + [Symbol(buffer / Pow2(bitsLeft) % 32)];
        done, pend := done + [d], pend[5..];
      }
    }
    assert data[|data|..] == [];
    if bitsLeft > 0 {
      ShiftIn(buffer, pend, 5 - bitsLeft, 0);
      buffer := buffer * Pow2(5 - bitsLeft) % UINT32;
      LastQuintet(done, pend, goal, buffer);
      SpelledSnoc(done, buffer % 32);
      encoded := encoded + [Symbol(buffer % 32)];
    } else {
      assert done + [] == done;
    }
    if includePadding {
      encoded := Pad(encoded);
    }
  }

  method Pad(t: string) returns (padded: string)
    ensures padded == t + Pads(Missing(|t|))
  {
    padded := t;
    ghost var k := 0;
    while |padded| % 8 != 0
      invariant padded == t + Pads(k) && k <= Missing(|t|)
      decreases Missing(|t|) - k
    {
      padded := padded + ['='];
      k := k + 1;
    }
  }

  lemma ScanNext(t: string, i: nat)
    requires i < |t| && Scan(t[..i]).Some?
    ensures Scan(t[..i + 1]) == Next(Scan(t[..i]).value, t[i])
  {
    assert t[..i + 1][..i] == t[..i];
  }

  lemma {:induction false} ScanStuck(t: string, i: nat)
    requires i <= |t| && Scan(t[..i]).None?
    ensures Scan(t).None?
    decreases |t|
  {
    if i < |t| {
      assert t[..|t| - 1][..i] == t[..i];
      ScanStuck(t[..|t| - 1], i);
    } else {
      assert t[..i] == t;
    }
  }

  lemma DecodeStarts()
    ensures Scan([]) == Some(Scanned([], false)) && Unpacked(5, [], [], 0, 0) && Decoded([]) == Some([])
  {
    assert Stream(5, []) == [] && Residue(8, []) == [] && Whole(8, []) == [];
  }

  lemma DecodeEnds(t: string, s: Scanned, out: seq<byte>, buffer: nat, bitsLeft: int)
    requires Scan(t) == Some(s) && Unpacked(5, out, s.digits, buffer, bitsLeft)
    ensures 0 <= bitsLeft
    ensures Decoded(t) == if bitsLeft > 0 && buffer % Pow2(bitsLeft) != 0 then None else Some(out)
  {
  }

  lemma DecodeStuck(t: string, i: nat)
    requires i <= |t| && Scan(t[..i]).None?
    ensures Decoded(t).None?
  {
    ScanStuck(t, i);
  }

  method Decode(input: string) returns (r: Option<seq<byte>>)
    ensures r == Decoded(input)
  {
    hide Scan, Unpacked, SymbolValue, Skipped, Decoded, Pow2, Stream, Whole, Residue, Number;
    var output: seq<byte> := [];
    DecodeStarts();
    if input == [] {
      return Some(output);
    }
    var buffer: nat, bitsLeft: int, paddingStarted := 0, 0, false;
    ghost var ds: seq<quintet> := [];
    for i := 0 to |input|
      invariant Scan(input[..i]) == Some(Scanned(ds, paddingStarted)) && Unpacked(5, output, ds, buffer, bitsLeft)
    {
      var c := input[i];
      ScanNext(input, i);
      if Skipped(c) {
        continue;
      }
      if c == '=' {
        paddingStarted := true;
        continue;
      }
      if paddingStarted {
        DecodeStuck(input, i + 1);
        return None;
      }
      var val := SymbolValue(c);
      if val < 0 {
        DecodeStuck(input, i + 1);
        return None;
      }
      Pow2Values();
      Unpack(5, output, ds, buffer, bitsLeft, val);
      ds := ds + [val];
      buffer := (buffer * 32 + val) % UINT32;
      bitsLeft := bitsLeft + 5;
      if bitsLeft >= 8 {
        bitsLeft := bitsLeft - 8;
        output := output + [buffer / Pow2(bitsLeft) % 256];
      }
    }
    assert input[..|input|] == input;
    DecodeEnds(input, Scanned(ds, paddingStarted), output, buffer, bitsLeft);
    if bitsLeft > 0 {
      var residual := buffer % Pow2(bitsLeft);
      if residual != 0 {
        return None;
      }
    }
    return Some(output);
  }
}
