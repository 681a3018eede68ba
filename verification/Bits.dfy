/** Fixed-width arithmetic on unbounded naturals: powers of two, bitwise AND,
    32-bit halves of 64-bit words and little-endian byte strings. */
module Bits {

  const TWO32: nat := 0x1_0000_0000
  const TWO64: nat := 0x1_0000_0000_0000_0000

  type Byte = x: int | 0 <= x < 256
  type U32 = x: int | 0 <= x < TWO32
  type U64 = x: int | 0 <= x < TWO64

  function Min(a: nat, b: nat): nat { if a <= b then a else b }

  function Pow2(n: nat): (p: nat)
    ensures p >= 1
  {
    if n == 0 then 1 else 2 * Pow2(n - 1)
  }

  lemma Pow2Sixteen()
    ensures Pow2(8) == 256 && Pow2(16) == 65536
  {
    assert Pow2(4) == 16;
    assert Pow2(8) == 256;
    assert Pow2(12) == 4096;
  }

  lemma Pow2Words()
    ensures Pow2(32) == TWO32 && Pow2(64) == TWO64
  {
    Pow2Sixteen();
    Pow2Sum(16, 16);
    Pow2Sum(32, 32);
  }

  lemma {:induction false} Pow2Sum(m: nat, n: nat)
    ensures Pow2(m + n) == Pow2(m) * Pow2(n)
  {
    if m == 0 {
    } else {
      Pow2Sum(m - 1, n);
      assert Pow2(m) * Pow2(n) == 2 * (Pow2(m - 1) * Pow2(n));
    }
  }

  /** Bitwise AND of two naturals, bit by bit from the least significant end. */
  function And(a: nat, b: nat): nat {
    if a == 0 || b == 0 then 0
    else (if a % 2 == 1 && b % 2 == 1 then 1 else 0) + 2 * And(a / 2, b / 2)
  }

  lemma {:induction false} AndHalf(a: nat, b: nat)
    ensures And(a, b) == (if a % 2 == 1 && b % 2 == 1 then 1 else 0) + 2 * And(a / 2, b / 2)
  {
  }

  /** Bit `k` of a number. */
  predicate Bit(a: nat, k: nat) { if k == 0 then a % 2 == 1 else Bit(a / 2, k - 1) }

  /** Every bit of an AND is the conjunction of the two bits. */
  lemma {:induction false} AndBits(a: nat, b: nat, k: nat)
    ensures Bit(And(a, b), k) <==> Bit(a, k) && Bit(b, k)
  {
    AndHalf(a, b);
    if k > 0 {
      AndBits(a / 2, b / 2, k - 1);
    }
  }

  lemma MulTwo(h: nat, p: nat, q: nat)
    requires p == 2 * q
    ensures h * p == 2 * (h * q)
  {
  }

  lemma HalfOfSplit(hi: nat, lo: nat, p: nat, q: nat)
    requires p == 2 * q
    ensures (hi * p + lo) / 2 == hi * q + lo / 2
    ensures (hi * p + lo) % 2 == lo % 2
  {
    MulTwo(hi, p, q);
  }

  /** Two numbers meet exactly when their parts above or below bit `k` meet. */
  lemma {:induction false} AndSplit(k: nat, p: nat, a: nat, ah: nat, al: nat, b: nat, bh: nat, bl: nat)
    requires p == Pow2(k) && al < p && bl < p
    requires a == ah * p + al && b == bh * p + bl
    ensures And(a, b) != 0 <==> And(ah, bh) != 0 || And(al, bl) != 0
  {
    if k == 0 {
      assert a == ah && b == bh;
    } else {
      var q := Pow2(k - 1);
      HalfOfSplit(ah, al, p, q);
      HalfOfSplit(bh, bl, p, q);
      AndSplit(k - 1, q, a / 2, ah, al / 2, b / 2, bh, bl / 2);
      AndHalf(a, b);
      AndHalf(al, bl);
    }
  }

  /** `a` has no bit outside `m` exactly when it meets the k-bit complement of `m` nowhere. */
  lemma {:induction false} AndComplement(k: nat, a: nat, m: nat)
    requires a < Pow2(k) && m < Pow2(k)
    ensures And(a, Pow2(k) - 1 - m) == 0 <==> And(a, m) == a
  {
    if k != 0 {
      AndComplement(k - 1, a / 2, m / 2);
      var c := Pow2(k) - 1 - m;
      assert c / 2 == Pow2(k - 1) - 1 - m / 2;
      assert c % 2 == 1 - m % 2;
      AndHalf(a, c);
      AndHalf(a, m);
    }
  }

  function Lo(v: U64): U32 { v % TWO32 }

  function Hi(v: U64): U32 { v / TWO32 }

  lemma Halves(v: U64)
    ensures v == Hi(v) * TWO32 + Lo(v)
  {
  }

  /** A 64-bit AND is nonzero exactly when the AND of one of the halves is. */
  lemma {:induction false} AndHalves(a: U64, b: U64)
    ensures And(a, b) != 0 <==> And(Hi(a), Hi(b)) != 0 || And(Lo(a), Lo(b)) != 0
  {
    Pow2Words();
    Halves(a);
    Halves(b);
    AndSplit(32, TWO32, a, Hi(a), Lo(a), b, Hi(b), Lo(b));
  }

  /** Little-endian bytes of `v`, least significant first, truncated to `n` bytes. */
  function LeBytes(v: nat, n: nat): (s: seq<Byte>)
    ensures |s| == n
  {
    if n == 0 then [] else [v % 256] + LeBytes(v / 256, n - 1)
  }

  function FromLe(s: seq<Byte>): nat {
    if s == [] then 0 else s[0] + 256 * FromLe(s[1..])
  }

  lemma {:induction false} LeRoundTrip(v: nat, n: nat)
    requires v < Pow2(8 * n)
    ensures FromLe(LeBytes(v, n)) == v
  {
    if n == 0 {
    } else {
      Pow2Sixteen();
      Pow2Sum(8, 8 * (n - 1));
      LeRoundTrip(v / 256, n - 1);
      assert LeBytes(v, n)[1..] == LeBytes(v / 256, n - 1);
    }
  }

  lemma LeStep(b: Byte, u: nat, n: nat)
    ensures LeBytes(b + 256 * u, n + 1) == [b] + LeBytes(u, n)
  {
  }

  lemma LeFour(b0: Byte, b1: Byte, b2: Byte, b3: Byte, w: nat, n: nat)
    ensures LeBytes(b0 + 256 * (b1 + 256 * (b2 + 256 * (b3 + 256 * w))), n + 4) == [b0, b1, b2, b3] + LeBytes(w, n)
  {
    hide LeBytes;
    var u3 := b3 + 256 * w;
    var u2 := b2 + 256 * u3;
    var u1 := b1 + 256 * u2;
    LeStep(b3, w, n);
    LeStep(b2, u3, n + 1);
    LeStep(b1, u2, n + 2);
    LeStep(b0, u1, n + 3);
  }

  /** Four little-endian bytes, least significant first. */
  lemma {:induction false} LeWord(b0: Byte, b1: Byte, b2: Byte, b3: Byte)
    ensures LeBytes(b0 + 0x100 * b1 + 0x1_0000 * b2 + 0x100_0000 * b3, 4) == [b0, b1, b2, b3]
  {
    LeFour(b0, b1, b2, b3, 0, 0);
  }

  lemma FourBytes(lo: U32) returns (b0: Byte, b1: Byte, b2: Byte, b3: Byte)
    ensures lo == b0 + 256 * (b1 + 256 * (b2 + 256 * b3))
  {
    b0 := lo % 256;
    var u := lo / 256;
    b1 := u % 256;
    u := u / 256;
    b2 := u % 256;
    b3 := u / 256;
  }

  /** The bytes of an 8-byte word are the bytes of its low half, then of its high half. */
  lemma {:induction false} LeWordHalves(v: U64)
    ensures LeBytes(v, 8) == LeBytes(Lo(v), 4) + LeBytes(Hi(v), 4)
  {
    var b0, b1, b2, b3 := FourBytes(Lo(v));
    Halves(v);
    LeFour(b0, b1, b2, b3, Hi(v), 4);
    LeFour(b0, b1, b2, b3, 0, 0);
  }
}
