/** Bit strings, most significant bit first: the common ground of the Base32 and Base64 codecs. */
module Bits {

  function Pow2(k: nat): (p: nat)
    ensures p > 0
  {
    if k == 0 then 1 else 2 * Pow2(k - 1)
  }

  /** The number a bit string denotes. */
  function Number(b: seq<bool>): nat {
    if b == [] then 0 else 2 * Number(b[..|b| - 1]) + if b[|b| - 1] then 1 else 0
  }

  /** `x` as `w` bits. */
  function Word(w: nat, x: nat): (b: seq<bool>)
    ensures |b| == w
  {
    if w == 0 then [] else Word(w - 1, x / 2) + [x % 2 == 1]
  }

  /** The bits of a sequence of `w`-bit words. */
  function Stream(w: nat, xs: seq<nat>): seq<bool> {
    if xs == [] then [] else Word(w, xs[0]) + Stream(w, xs[1..])
  }

  /** Groups of `w` bits; a short last group is filled with zeros. */
  function Groups(w: nat, b: seq<bool>): seq<nat>
    requires w > 0
  {
    if b == [] then []
    else if |b| < w then [Number(b) * Pow2(w - |b|)]
    else [Number(b[..w])] + Groups(w, b[w..])
  }

  /** The whole groups of `w` bits, and the bits left over. */
  function Whole(w: nat, b: seq<bool>): seq<nat>
    requires w > 0
  {
    if |b| < w then [] else [Number(b[..w])] + Whole(w, b[w..])
  }

  function Residue(w: nat, b: seq<bool>): (r: seq<bool>)
    requires w > 0
    ensures |r| < w
  {
    if |b| < w then b else Residue(w, b[w..])
  }

  function Zeros(n: nat): (z: seq<bool>)
    ensures |z| == n
  {
    if n == 0 then [] else [false] + Zeros(n - 1)
  }

  ghost predicate Fits(w: nat, xs: seq<nat>) {
    forall i :: 0 <= i < |xs| ==> xs[i] < Pow2(w)
  }

  // ---- Numbers and bits ------------------------------------------------------------------------

  lemma {:induction false} NumberBound(b: seq<bool>)
    ensures Number(b) < Pow2(|b|)
  {
    if b != [] {
      NumberBound(b[..|b| - 1]);
    }
  }

  lemma {:induction false} NumberWord(w: nat, x: nat)
    requires x < Pow2(w)
    ensures Number(Word(w, x)) == x
  {
    if w > 0 {
      NumberWord(w - 1, x / 2);
      assert Word(w, x)[..w - 1] == Word(w - 1, x / 2);
    }
  }

  /** `w` bits of a longer number are its low bits. */
  lemma {:induction false} LowBits(w: nat, x: nat)
    ensures Number(Word(w, x)) == x % Pow2(w)
  {
    if w > 0 {
      var p := Pow2(w - 1);
      LowBits(w - 1, x / 2);
      assert Word(w, x)[..w - 1] == Word(w - 1, x / 2);
      hide Number, Word, Pow2;
      HalfMod(x, p);
    }
  }

  lemma HalfMod(x: nat, p: nat)
    requires p > 0
    ensures x % (2 * p) == 2 * (x / 2 % p) + x % 2
  {
    var q, r := x / 2 / p, x / 2 % p;
    assert x / 2 == q * p + r;
    assert x == q * (2 * p) + (2 * r + x % 2);
    DivMod(q, 2 * r + x % 2, 2 * p);
  }

  lemma {:induction false} WordNumber(b: seq<bool>)
    ensures Word(|b|, Number(b)) == b
  {
    if b != [] {
      WordNumber(b[..|b| - 1]);
      assert b == b[..|b| - 1] + [b[|b| - 1]];
    }
  }

  lemma {:induction false} NumberAppend(a: seq<bool>, b: seq<bool>)
    ensures Number(a + b) == Number(a) * Pow2(|b|) + Number(b)
  {
    if b == [] {
      assert a + b == a;
    } else {
      var c := b[..|b| - 1];
      NumberAppend(a, c);
      assert (a + b)[..|a + b| - 1] == a + c;
      assert Number(a) * Pow2(|b|) == 2 * (Number(a) * Pow2(|c|));
    }
  }

  lemma {:induction false} NumberZeros(n: nat)
    ensures Number(Zeros(n)) == 0
  {
    if n > 0 {
      NumberZeros(n - 1);
      NumberAppend([false], Zeros(n - 1));
      assert Number([false]) == 0 by { assert [false][..0] == []; }
    }
  }

  /** Division and remainder by a power of two cut a bit string. */
  lemma Cut(a: seq<bool>, b: seq<bool>)
    ensures Number(a + b) / Pow2(|b|) == Number(a)
    ensures Number(a + b) % Pow2(|b|) == Number(b)
  {
    NumberAppend(a, b);
    NumberBound(b);
    DivMod(Number(a), Number(b), Pow2(|b|));
  }

  lemma DivMod(q: nat, r: nat, m: nat)
    requires r < m
    ensures (q * m + r) / m == q && (q * m + r) % m == r
  {
    var x := q * m + r;
    assert x == x / m * m + x % m;
    assert (x / m - q) * m == r - x % m by { assert (x / m - q) * m == x / m * m - q * m; }
    MulGrows(x / m - q, m);
  }

  lemma MulGrows(a: int, m: int)
    requires m > 0
    ensures a >= 1 ==> a * m >= m
    ensures a <= -1 ==> a * m <= -m
  {
  }

  lemma {:induction false} Pow2Add(a: nat, b: nat)
    ensures Pow2(a + b) == Pow2(a) * Pow2(b)
  {
    if a > 0 {
      Pow2Add(a - 1, b);
      DoubleProduct(Pow2(a - 1), Pow2(b));
    }
  }

  lemma DoubleProduct(x: nat, y: nat)
    ensures 2 * (x * y) == (2 * x) * y
  {
  }

  lemma Pow2Values()
    ensures Pow2(2) == 4 && Pow2(4) == 16 && Pow2(5) == 32 && Pow2(6) == 64 && Pow2(8) == 256
    ensures Pow2(32) == 0x1_0000_0000
  {
    assert Pow2(3) == 8 && Pow2(6) == 64;
    Pow2Add(4, 4);
    Pow2Add(8, 8);
    Pow2Add(16, 16);
  }

  lemma TopOf(pre: seq<bool>, pending: seq<bool>, w: nat)
    requires w <= |pending|
    ensures Number(pre + pending) / Pow2(|pending| - w) % Pow2(w) == Number(pending[..w])
  {
    assert pre + pending == (pre + pending[..w]) + pending[w..];
    Cut(pre + pending[..w], pending[w..]);
    Cut(pre, pending[..w]);
  }

  // ---- A 32-bit accumulator ---------------------------------------------------------------------

  const UINT32: nat := 0x1_0000_0000

  /** The low bits of `val` are the pending ones; what is above them is debris of earlier shifts. */
  ghost predicate Holds(val: nat, pend: seq<bool>) {
    val < UINT32 && |pend| <= 32 && val % Pow2(|pend|) == Number(pend)
  }

  /** The accumulator is some debris followed by the pending bits. */
  lemma Debris(val: nat, pend: seq<bool>) returns (pre: seq<bool>)
    requires Holds(val, pend)
    ensures |pre| + |pend| == 32 && Number(pre + pend) == val
  {
    Pow2Values();
    var v := Word(32, val);
    NumberWord(32, val);
    pre := v[..32 - |pend|];
    var suf := v[32 - |pend|..];
    assert v == pre + suf;
    Cut(pre, suf);
    WordNumber(suf);
    WordNumber(pend);
  }

  /** `(val >> (p - w)) & (2^w - 1)` reads the top `w` of the `p` pending bits. */
  lemma TakeTop(val: nat, pend: seq<bool>, w: nat)
    requires Holds(val, pend) && w <= |pend|
    ensures val / Pow2(|pend| - w) % Pow2(w) == Number(pend[..w])
    ensures Holds(val, pend[w..])
  {
    var pre := Debris(val, pend);
    TopOf(pre, pend, w);
    assert pre + pend == (pre + pend[..w]) + pend[w..];
    Cut(pre + pend[..w], pend[w..]);
  }

  /** `(val << w) | x`, wrapping at 32 bits, appends a word to the pending bits. */
  lemma ShiftIn(val: nat, pend: seq<bool>, w: nat, x: nat)
    requires Holds(val, pend) && |pend| + w <= 32 && x < Pow2(w)
    ensures Holds((val * Pow2(w) + x) % UINT32, pend + Word(w, x))
  {
    hide Number, Pow2, Word;
    Pow2Values();
    var pre := Debris(val, pend);
    var all := pre + pend + Word(w, x);
    NumberAppend(pre + pend, Word(w, x));
    NumberWord(w, x);
    assert Number(all) == val * Pow2(w) + x;
    assert all == all[..w] + all[w..];
    Cut(all[..w], all[w..]);
    assert all[w..] == pre[w..] + (pend + Word(w, x));
    Cut(pre[w..], pend + Word(w, x));
  }

  lemma {:induction false} GroupsFit(w: nat, b: seq<bool>)
    requires w > 0
    ensures Fits(w, Groups(w, b))
  {
    if b == [] {
    } else if |b| < w {
      NumberAppend(b, Zeros(w - |b|));
      NumberZeros(w - |b|);
      NumberBound(b + Zeros(w - |b|));
    } else {
      GroupsFit(w, b[w..]);
      NumberBound(b[..w]);
    }
  }

  lemma {:induction false} WholeFits(w: nat, b: seq<bool>)
    requires w > 0
    ensures Fits(w, Whole(w, b))
  {
    if |b| >= w {
      WholeFits(w, b[w..]);
      NumberBound(b[..w]);
    }
  }

  // ---- Regrouping ------------------------------------------------------------------------------

  lemma StreamOfNone(w: nat)
    ensures Stream(w, []) == []
  {
  }

  lemma {:induction false} StreamAppend(w: nat, xs: seq<nat>, ys: seq<nat>)
    ensures Stream(w, xs + ys) == Stream(w, xs) + Stream(w, ys)
  {
    hide Word, Stream;
    if xs == [] {
      StreamOfNone(w);
      assert xs + ys == ys && [] + Stream(w, ys) == Stream(w, ys);
    } else {
      StreamAppend(w, xs[1..], ys);
      assert xs == [xs[0]] + xs[1..] && xs + ys == [xs[0]] + (xs[1..] + ys);
      StreamCons(w, xs[0], xs[1..]);
      StreamCons(w, xs[0], xs[1..] + ys);
    }
  }

  lemma StreamOfShort(w: nat, b: seq<bool>)
    requires 0 < |b| < w
    ensures Stream(w, Groups(w, b)) == b + Zeros(w - |b|)
  {
    var z := Zeros(w - |b|);
    NumberAppend(b, z);
    NumberZeros(w - |b|);
    WordNumber(b + z);
    StreamOfOne(w, Number(b + z));
  }

  lemma StreamOfOne(w: nat, x: nat)
    ensures Stream(w, [x]) == Word(w, x)
  {
    assert [x][1..] == [];
    assert Word(w, x) + [] == Word(w, x);
  }

  /** How many zeros complete the last group of `n` bits. */
  ghost function Fill(w: nat, n: nat): (f: nat)
    requires w > 0
    ensures f < w
  {
    if n == 0 then 0 else if n < w then w - n else Fill(w, n - w)
  }

  /** Grouping and spelling the groups out again gives the bits back, with the fill at the end. */
  lemma {:induction false} StreamOfGroups(w: nat, b: seq<bool>)
    requires w > 0
    ensures Stream(w, Groups(w, b)) == b + Zeros(Fill(w, |b|))
  {
    if b == [] {
    } else if |b| < w {
      StreamOfShort(w, b);
    } else {
      StreamOfGroups(w, b[w..]);
      Glue(w, b, Groups(w, b[w..]), Zeros(Fill(w, |b|)));
    }
  }

  lemma Glue(w: nat, b: seq<bool>, g: seq<nat>, z: seq<bool>)
    requires |b| >= w && Stream(w, g) == b[w..] + z
    ensures Stream(w, [Number(b[..w])] + g) == b + z
  {
    WordNumber(b[..w]);
    StreamCons(w, Number(b[..w]), g);
    assert b[..w] + (b[w..] + z) == b + z;
  }

  lemma StreamCons(w: nat, x: nat, xs: seq<nat>)
    ensures Stream(w, [x] + xs) == Word(w, x) + Stream(w, xs)
  {
    assert ([x] + xs)[1..] == xs;
  }

  lemma {:induction false} WholeOfStream(w: nat, xs: seq<nat>, rest: seq<bool>)
    requires w > 0 && Fits(w, xs) && |rest| < w
    ensures Whole(w, Stream(w, xs) + rest) == xs && Residue(w, Stream(w, xs) + rest) == rest
  {
    if xs == [] {
      assert Stream(w, xs) + rest == rest;
    } else {
      WholeOfStream(w, xs[1..], rest);
      NumberWord(w, xs[0]);
      var b := Stream(w, xs[1..]) + rest;
      assert Stream(w, xs) + rest == Word(w, xs[0]) + b;
      GroupsPeel(w, Word(w, xs[0]), b);
      assert (Word(w, xs[0]) + b)[w..] == b;
      assert [xs[0]] + xs[1..] == xs;
    }
  }

  /** A bit string is its whole groups followed by its residue. */
  lemma {:induction false} WholeAndResidue(w: nat, b: seq<bool>)
    requires w > 0
    ensures Stream(w, Whole(w, b)) + Residue(w, b) == b
  {
    if |b| >= w {
      WholeAndResidue(w, b[w..]);
      WordNumber(b[..w]);
      var rest, r := Whole(w, b[w..]), Residue(w, b[w..]);
      StreamCons(w, Number(b[..w]), rest);
      Rejoin(b, w, Stream(w, rest), r);
    }
  }

  lemma Rejoin(b: seq<bool>, w: nat, x: seq<bool>, y: seq<bool>)
    requires w <= |b| && x + y == b[w..]
    ensures b[..w] + x + y == b
  {
    assert b[..w] + x + y == b[..w] + (x + y);
  }

  /** More bits only ever extend the whole groups, from the residue on. */
  lemma {:induction false} WholeStep(w: nat, b: seq<bool>, x: seq<bool>)
    requires w > 0
    ensures Whole(w, b + x) == Whole(w, b) + Whole(w, Residue(w, b) + x)
    ensures Residue(w, b + x) == Residue(w, Residue(w, b) + x)
  {
    if |b| >= w {
      WholeStep(w, b[w..], x);
      assert (b + x)[..w] == b[..w] && (b + x)[w..] == b[w..] + x;
    }
  }

  // ---- Packing and unpacking through the accumulator --------------------------------------------

  /** `done` is written; the pending bits and the rest of the input will complete `goal`. */
  ghost predicate Packing(w: nat, done: seq<nat>, pend: seq<bool>, rest: seq<bool>, goal: seq<nat>)
    requires w > 0
  {
    done + Groups(w, pend + rest) == goal
  }

  lemma PackingStarts(w: nat, data: seq<nat>)
    requires w > 0
    ensures Packing(w, [], [], Stream(8, data[0..]), Groups(w, Stream(8, data)))
  {
    assert data[0..] == data && [] + Stream(8, data) == Stream(8, data);
    assert [] + Groups(w, Stream(8, data)) == Groups(w, Stream(8, data));
  }

  lemma GroupsPeel(w: nat, g: seq<bool>, rest: seq<bool>)
    requires w > 0 && |g| == w
    ensures Groups(w, g + rest) == [Number(g)] + Groups(w, rest)
    ensures Whole(w, g + rest) == [Number(g)] + Whole(w, rest)
  {
    assert (g + rest)[..w] == g && (g + rest)[w..] == rest;
  }

  lemma EmitGroup(w: nat, done: seq<nat>, pend: seq<bool>, rest: seq<bool>, goal: seq<nat>, val: nat)
    requires w > 0 && Packing(w, done, pend, rest, goal) && Holds(val, pend) && |pend| >= w
    ensures Packing(w, done + [val / Pow2(|pend| - w) % Pow2(w)], pend[w..], rest, goal) && Holds(val, pend[w..])
  {
    TakeTop(val, pend, w);
    assert pend + rest == pend[..w] + (pend[w..] + rest);
    GroupsPeel(w, pend[..w], pend[w..] + rest);
    var d, g := Number(pend[..w]), Groups(w, pend[w..] + rest);
    assert done + ([d] + g) == done + [d] + g;
  }

  lemma StreamNext(pend: seq<bool>, data: seq<nat>, i: nat)
    requires i < |data|
    ensures pend + Stream(8, data[i..]) == pend + Word(8, data[i]) + Stream(8, data[i + 1..])
  {
    assert data[i..] == [data[i]] + data[i + 1..];
    StreamCons(8, data[i], data[i + 1..]);
  }

  lemma TakeByte(w: nat, done: seq<nat>, pend: seq<bool>, data: seq<nat>, i: nat, goal: seq<nat>, val: nat)
    requires w > 0 && i < |data| && data[i] < 256 && Packing(w, done, pend, Stream(8, data[i..]), goal)
    requires Holds(val, pend) && |pend| < 8
    ensures Packing(w, done, pend + Word(8, data[i]), Stream(8, data[i + 1..]), goal)
    ensures Holds((val * 256 + data[i]) % UINT32, pend + Word(8, data[i]))
  {
    assert data[i] < Pow2(8) == 256 by { Pow2Values(); }
    ShiftIn(val, pend, 8, data[i]);
    StreamNext(pend, data, i);
  }

  /** The decoder after the digits `ds`: their bytes written, their residue held in the accumulator. */
  ghost predicate Unpacked(w: nat, out: seq<nat>, ds: seq<nat>, val: nat, held: int) {
    var pend := Residue(8, Stream(w, ds));
    out == Whole(8, Stream(w, ds)) && Holds(val, pend) && |pend| == held
  }

  /** One more digit: the residue grows by `w` bits and may yield one byte. */
  lemma WholeSnoc(w: nat, ds: seq<nat>, v: nat)
    requires w <= 8
    ensures var r := Residue(8, Stream(w, ds)) + Word(w, v);
            && Whole(8, Stream(w, ds + [v])) == Whole(8, Stream(w, ds)) + (if |r| < 8 then [] else [Number(r[..8])])
            && Residue(8, Stream(w, ds + [v])) == if |r| < 8 then r else r[8..]
  {
    StreamAppend(w, ds, [v]);
    StreamOfOne(w, v);
    WholeStep(8, Stream(w, ds), Word(w, v));
  }

  lemma Unpack(w: nat, out: seq<nat>, ds: seq<nat>, val: nat, held: int, v: nat)
    requires w <= 8 && v < Pow2(w) && Unpacked(w, out, ds, val, held)
    ensures var val' := (val * Pow2(w) + v) % UINT32;
            if held + w < 8 then Unpacked(w, out, ds + [v], val', held + w)
            else Unpacked(w, out + [val' / Pow2(held + w - 8) % 256], ds + [v], val', held + w - 8)
  {
    hide Stream, Whole, Residue, Word, Number, Pow2;
    var pend := Residue(8, Stream(w, ds));
    assert Pow2(8) == 256 by { Pow2Values(); }
    WholeSnoc(w, ds, v);
    ShiftIn(val, pend, w, v);
    if held + w >= 8 {
      TakeTop((val * Pow2(w) + v) % UINT32, pend + Word(w, v), 8);
    }
  }
}
