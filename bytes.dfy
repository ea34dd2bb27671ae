/** Byte strings read as unsigned big-endian numbers: fixed-width words and
    the minimal form RLP gives a scalar (no leading zero byte; zero is the
    empty string). */
module ByteStrings {

  type byte = x: int | 0 <= x < 256

  function Pow256(w: nat): (p: nat)
    ensures p > 0
  {
    if w == 0 then 1 else 256 * Pow256(w - 1)
  }

  lemma {:induction false} Pow256Monotonic(v: nat, w: nat)
    requires v <= w
    ensures Pow256(v) <= Pow256(w)
  {
    if v < w {
      Pow256Monotonic(v, w - 1);
    }
  }

  /** Eight bytes hold exactly the 64-bit patterns. */
  lemma Pow256Of8()
    ensures Pow256(8) == 0x1_0000_0000_0000_0000
  {
    assert Pow256(2) == 0x1_0000;
    assert Pow256(4) == 0x1_0000_0000 by {
      assert Pow256(3) == 0x100_0000;
    }
    assert Pow256(6) == 0x1_0000_0000_0000 by {
      assert Pow256(5) == 0x100_0000_0000;
    }
    assert Pow256(7) == 0x100_0000_0000_0000;
  }

  /** The unsigned big-endian value of a byte string. */
  function FromBigEndian(s: seq<byte>): (x: nat)
    ensures x < Pow256(|s|)
  {
    if s == [] then 0 else FromBigEndian(s[..|s| - 1]) * 256 + s[|s| - 1]
  }

  /** x as exactly w big-endian bytes. */
  function BigEndian(x: nat, w: nat): (r: seq<byte>)
    requires x < Pow256(w)
    ensures |r| == w
  {
    if w == 0 then [] else BigEndian(x / 256, w - 1) + [x % 256]
  }

  lemma {:induction false} FromBigEndianOfBigEndian(x: nat, w: nat)
    requires x < Pow256(w)
    ensures FromBigEndian(BigEndian(x, w)) == x
  {
    if w > 0 {
      var s := BigEndian(x, w);
      assert s[..|s| - 1] == BigEndian(x / 256, w - 1);
      FromBigEndianOfBigEndian(x / 256, w - 1);
    }
  }

  lemma {:induction false} BigEndianOfFromBigEndian(s: seq<byte>)
    ensures BigEndian(FromBigEndian(s), |s|) == s
  {
    if s != [] {
      var init, last := s[..|s| - 1], s[|s| - 1];
      var x := FromBigEndian(s);
      assert x / 256 == FromBigEndian(init) && x % 256 == last;
      BigEndianOfFromBigEndian(init);
      assert s == init + [last];
    }
  }

  /** No leading zero byte. */
  predicate Canonical(s: seq<byte>) {
    s == [] || s[0] != 0
  }

  /** The shortest big-endian bytes of n: canonical, and worth n. */
  function MinimalBytes(n: nat): (r: seq<byte>)
    ensures Canonical(r) && FromBigEndian(r) == n
  {
    if n == 0 then []
    else
      var r := MinimalBytes(n / 256) + [n % 256];
      assert r[..|r| - 1] == MinimalBytes(n / 256);
      r
  }

  /** A number below 256^w needs at most w bytes. */
  lemma {:induction false} MinimalBytesLength(n: nat, w: nat)
    requires n < Pow256(w)
    ensures |MinimalBytes(n)| <= w
  {
    if n > 0 {
      MinimalBytesLength(n / 256, w - 1);
    }
  }

  /** The last byte of a string is its value modulo 256; the rest is the
      quotient. */
  lemma LastByteOf(s: seq<byte>)
    requires s != []
    ensures FromBigEndian(s) / 256 == FromBigEndian(s[..|s| - 1])
    ensures FromBigEndian(s) % 256 == s[|s| - 1]
  {
    var q, r := FromBigEndian(s[..|s| - 1]), s[|s| - 1];
    assert FromBigEndian(s) == q * 256 + r;
  }

  /** The minimal bytes of a positive number end with its last byte. */
  lemma MinimalBytesStep(n: nat)
    requires n > 0
    ensures MinimalBytes(n) == MinimalBytes(n / 256) + [n % 256]
  {
  }

  /** What remains of a canonical string without its last byte is canonical. */
  lemma CanonicalInit(s: seq<byte>)
    requires s != [] && Canonical(s)
    ensures Canonical(s[..|s| - 1])
  {
    if |s| > 1 {
      assert s[..|s| - 1][0] == s[0];
    }
  }

  /** A canonical string is the minimal form of its value. */
  lemma {:induction false} MinimalBytesOfCanonical(s: seq<byte>)
    requires Canonical(s)
    ensures MinimalBytes(FromBigEndian(s)) == s
  {
    if s != [] {
      var init, last := s[..|s| - 1], s[|s| - 1];
      PositiveOfCanonical(s);
      LastByteOf(s);
      CanonicalInit(s);
      MinimalBytesOfCanonical(init);
      MinimalBytesStep(FromBigEndian(s));
      assert s == init + [last];
    }
  }

  /** A non-empty canonical string is worth more than zero. */
  lemma {:induction false} PositiveOfCanonical(s: seq<byte>)
    requires s != [] && Canonical(s)
    ensures FromBigEndian(s) > 0
  {
    var init := s[..|s| - 1];
    if init != [] {
      assert init[0] == s[0];
      PositiveOfCanonical(init);
    }
  }
}
