/** Byte layouts shared by the page cursor, the event fingerprint and the filter hash: big-endian
    integers and length-prefixed strings, and how a stream of them is taken apart again. */
module Wire {
  import opened Types

  /** A C++ string: its bytes. */
  type text = seq<byte>

  function Pow256(n: nat): (p: nat)
    ensures p > 0
  {
    if n == 0 then 1 else 256 * Pow256(n - 1)
  }

  /** The low `n` bytes of `v`, most significant first. */
  function BigEndian(n: nat, v: nat): (bs: seq<byte>)
    ensures |bs| == n
  {
    if n == 0 then [] else BigEndian(n - 1, v / 256) + [v % 256]
  }

  function FromBigEndian(bs: seq<byte>): nat {
    if bs == [] then 0 else FromBigEndian(bs[..|bs| - 1]) * 256 + bs[|bs| - 1]
  }

  /** A string behind its length in `n` bytes; a longer length is cut to its low bytes. */
  function Counted(n: nat, s: text): seq<byte> {
    BigEndian(n, |s|) + s
  }

  lemma PowerValues()
    ensures Pow256(2) == 0x1_0000 && Pow256(4) == 0x1_0000_0000 && Pow256(8) == 0x1_0000_0000_0000_0000
  {
    assert Pow256(1) == 256;
    assert Pow256(3) == 0x100_0000;
    assert Pow256(5) == 0x100_0000_0000;
    assert Pow256(7) == 0x100_0000_0000_0000;
  }

  lemma {:induction false} BigEndianReads(n: nat, v: nat)
    requires v < Pow256(n)
    ensures FromBigEndian(BigEndian(n, v)) == v
  {
    if n > 0 {
      BigEndianReads(n - 1, v / 256);
      assert BigEndian(n, v)[..n - 1] == BigEndian(n - 1, v / 256);
    }
  }

  lemma {:induction false} BigEndianOf(bs: seq<byte>)
    ensures BigEndian(|bs|, FromBigEndian(bs)) == bs && FromBigEndian(bs) < Pow256(|bs|)
  {
    if bs != [] {
      BigEndianOf(bs[..|bs| - 1]);
      assert bs == bs[..|bs| - 1] + [bs[|bs| - 1]];
    }
  }

  /** The bits of a signed 64-bit value read as unsigned, and back. */
  function Unsigned(v: int): (u: nat)
    requires IsInt64(v)
    ensures u < 0x1_0000_0000_0000_0000
  {
    if v < 0 then v + 0x1_0000_0000_0000_0000 else v
  }

  function Signed(u: nat): (v: int)
    requires u < 0x1_0000_0000_0000_0000
    ensures IsInt64(v) && Unsigned(v) == u
  {
    if u < 0x8000_0000_0000_0000 then u else u - 0x1_0000_0000_0000_0000
  }

  predicate IsInt64(v: int) {
    -0x8000_0000_0000_0000 <= v < 0x8000_0000_0000_0000
  }

  // ---- Taking streams apart --------------------------------------------------------------------

  lemma Peel(a: seq<byte>, r: seq<byte>, b: seq<byte>, s: seq<byte>)
    requires |a| == |b| && a + r == b + s
    ensures a == b && r == s
  {
    assert (a + r)[..|a|] == a && (b + s)[..|b|] == b;
    assert (a + r)[|a|..] == r && (b + s)[|b|..] == s;
  }

  lemma PeelNumber(n: nat, v: nat, r: seq<byte>, w: nat, s: seq<byte>)
    requires v < Pow256(n) && w < Pow256(n) && BigEndian(n, v) + r == BigEndian(n, w) + s
    ensures v == w && r == s
  {
    Peel(BigEndian(n, v), r, BigEndian(n, w), s);
    BigEndianReads(n, v);
    BigEndianReads(n, w);
  }

  lemma PeelCounted(n: nat, x: text, r: seq<byte>, y: text, s: seq<byte>)
    requires |x| < Pow256(n) && |y| < Pow256(n) && Counted(n, x) + r == Counted(n, y) + s
    ensures x == y && r == s
  {
    assert Counted(n, x) + r == BigEndian(n, |x|) + (x + r);
    assert Counted(n, y) + s == BigEndian(n, |y|) + (y + s);
    PeelNumber(n, |x|, x + r, |y|, y + s);
    Peel(x, r, y, s);
  }

  /** EVP_DigestUpdate: the data joins the stream; `rest` is what completes it to `goal`. */
  method Update(stream: seq<byte>, data: seq<byte>, ghost rest: seq<byte>, ghost goal: seq<byte>) returns (r: seq<byte>)
    requires stream + (data + rest) == goal
    ensures r == stream + data && r + rest == goal
  {
    r := stream + data;
    assert stream + data + rest == stream + (data + rest);
  }
}
