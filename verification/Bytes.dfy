/** Byte strings and the 4-byte big-endian words that the wire format, SHA-256 and PBKDF2 share. */
module Bytes {

  type byte = x: int | 0 <= x < 256
  type Data = seq<byte>

  const TWO_TO_THE_32: nat := 0x1_0000_0000
  const TWO_TO_THE_64: nat := 0x1_0000_0000_0000_0000

  /** The low `k` bytes of `n`, most significant first. */
  function BigEndian(n: nat, k: nat): (b: Data)
    ensures |b| == k
  {
    if k == 0 then [] else BigEndian(n / 256, k - 1) + [n % 256]
  }

  function FromBigEndian(b: Data): (n: nat) {
    if b == [] then 0 else FromBigEndian(b[..|b| - 1]) * 256 + b[|b| - 1]
  }

  /** Byte `k` of `n`, counted from the least significant one: `(n >> 8 * k) & 0xFF`. */
  function ByteAt(n: nat, k: nat): byte {
    if k == 0 then n % 256 else ByteAt(n / 256, k - 1)
  }

  lemma {:induction false} BigEndianAt(n: nat, k: nat, i: nat)
    requires i < k
    ensures BigEndian(n, k)[i] == ByteAt(n, k - 1 - i)
  {
    if i < k - 1 { BigEndianAt(n / 256, k - 1, i); }
  }

  function Pow256(k: nat): nat {
    if k == 0 then 1 else 256 * Pow256(k - 1)
  }

  lemma {:induction false} BigEndianRoundTrip(n: nat, k: nat)
    requires n < Pow256(k)
    ensures FromBigEndian(BigEndian(n, k)) == n
  {
    if k > 0 {
      BigEndianRoundTrip(n / 256, k - 1);
      assert BigEndian(n, k)[..k - 1] == BigEndian(n / 256, k - 1);
    }
  }

  lemma {:induction false} FromBigEndianRoundTrip(b: Data)
    ensures FromBigEndian(b) < Pow256(|b|)
    ensures BigEndian(FromBigEndian(b), |b|) == b
  {
    if b != [] {
      var n := |b| - 1;
      FromBigEndianRoundTrip(b[..n]);
      assert FromBigEndian(b) / 256 == FromBigEndian(b[..n]);
      assert b == b[..n] + [b[n]];
    }
  }

  /** What lies above the low `k` bytes does not show. */
  lemma {:induction false} BigEndianTruncates(q: nat, r: nat, k: nat)
    ensures BigEndian(q * Pow256(k) + r, k) == BigEndian(r, k)
  {
    if k > 0 {
      var z := q * Pow256(k - 1);
      BigEndianTruncates(q, r / 256, k - 1);
      LowByteOf(z, r);
      TimesPow256(q, k);
    }
  }

  lemma TimesPow256(q: nat, k: nat)
    requires k > 0
    ensures q * Pow256(k) == 256 * (q * Pow256(k - 1))
  {
    var p := Pow256(k - 1);
    assert q * (256 * p) == 256 * (q * p);
  }

  lemma LowByteOf(z: nat, r: nat)
    ensures (256 * z + r) / 256 == z + r / 256 && (256 * z + r) % 256 == r % 256
  {
  }

  /** A 32-bit word on the wire; a larger number is truncated. */
  function Be32(n: nat): (b: Data)
    ensures |b| == 4
  {
    BigEndian(n, 4)
  }

  function FromBe32(b: Data): (n: nat)
    requires |b| == 4
    ensures n < TWO_TO_THE_32
  {
    FromBigEndianRoundTrip(b);
    assert Pow256(2) == 0x1_0000;
    FromBigEndian(b)
  }

  lemma Be32RoundTrip(n: nat)
    requires n < TWO_TO_THE_32
    ensures FromBe32(Be32(n)) == n
  {
    assert Pow256(2) == 0x1_0000;
    BigEndianRoundTrip(n, 4);
  }

  lemma FromBe32RoundTrip(b: Data)
    requires |b| == 4
    ensures Be32(FromBe32(b)) == b
  {
    FromBigEndianRoundTrip(b);
  }

  /** Most significant byte first. */
  lemma FromBe32Is(a: byte, b: byte, c: byte, d: byte)
    ensures FromBe32([a, b, c, d]) == a as int * 0x100_0000 + b as int * 0x1_0000 + c as int * 0x100 + d
  {
    assert [a, b, c, d][..3] == [a, b, c] && [a, b, c][..2] == [a, b] && [a, b][..1] == [a] && [a][..0] == [];
    assert FromBigEndian([a]) == a;
    assert FromBigEndian([a, b]) == a as int * 0x100 + b;
    assert FromBigEndian([a, b, c]) == a as int * 0x1_0000 + b as int * 0x100 + c;
  }

  lemma Be32Is(n: nat)
    ensures Be32(n) == [n / 256 / 256 / 256 % 256, n / 256 / 256 % 256, n / 256 % 256, n % 256]
  {
    var m := n / 256;
    var l := m / 256;
    assert BigEndian(l, 2) == [l / 256 % 256, l % 256];
    assert BigEndian(m, 3) == BigEndian(l, 2) + [m % 256];
  }

  // ---- bitwise operations, bit by bit ------------------------------

  function Pow2(k: nat): (p: nat)
    ensures p > 0
  {
    if k == 0 then 1 else 2 * Pow2(k - 1)
  }

  /** The exclusive-or of the low `k` bits. */
  function XorBits(a: nat, b: nat, k: nat): (c: nat)
    ensures c < Pow2(k)
  {
    if k == 0 then 0 else (a + b) % 2 + 2 * XorBits(a / 2, b / 2, k - 1)
  }

  /** The inclusive-or of the low `k` bits. */
  function OrBits(a: nat, b: nat, k: nat): (c: nat)
    ensures c < Pow2(k)
  {
    if k == 0 then 0 else (if a % 2 == 1 || b % 2 == 1 then 1 else 0) + 2 * OrBits(a / 2, b / 2, k - 1)
  }

  lemma Pow2Of8()
    ensures Pow2(8) == 256
  {
    assert Pow2(4) == 16;
  }

  function Xor(a: byte, b: byte): byte {
    Pow2Of8();
    XorBits(a, b, 8)
  }

  function Or(a: byte, b: byte): byte {
    Pow2Of8();
    OrBits(a, b, 8)
  }

  // 8-bit words, and what their halves and lowest bits are.
  function ByteOf(a: bv8): byte { a as int }
  function LowBit(a: bv8): nat { (a & 1) as nat }
  function Half(a: bv8): bv8 { a >> 1 }
  function XorOf(a: bv8, b: bv8): bv8 { a ^ b }
  function OrOf(a: bv8, b: bv8): bv8 { a | b }

  lemma HalfOf(a: bv8)
    ensures ByteOf(Half(a)) == ByteOf(a) / 2
  {
  }

  lemma HalvesOf(a: bv8, b: bv8)
    ensures Half(XorOf(a, b)) == XorOf(Half(a), Half(b)) && Half(OrOf(a, b)) == OrOf(Half(a), Half(b))
    ensures XorOf(0, 0) == 0 && OrOf(0, 0) == 0 && ByteOf(0) == 0
  {
  }

  lemma LowBitOf(a: bv8)
    ensures ByteOf(a) % 2 == LowBit(a)
  {
  }

  lemma LowBitsOf(a: bv8, b: bv8)
    ensures LowBit(XorOf(a, b)) == (LowBit(a) + LowBit(b)) % 2
    ensures LowBit(OrOf(a, b)) == if LowBit(a) == 1 || LowBit(b) == 1 then 1 else 0
  {
  }

  function Down(x: nat): nat { x / 2 }
  function Low(x: nat): nat { x % 2 }

  /** A number is the exclusive-or if its lowest bit and its half are. */
  lemma XorByHalf(x: nat, y: nat, z: nat, k: nat)
    requires k > 0 && Low(z) == (Low(x) + Low(y)) % 2 && Down(z) == XorBits(Down(x), Down(y), k - 1)
    ensures XorBits(x, y, k) == z
  {
    ParityOfSum(x, y);
    assert z == z % 2 + 2 * (z / 2);
  }

  lemma ParityOfSum(x: nat, y: nat)
    ensures (x + y) % 2 == (x % 2 + y % 2) % 2
  {
    var h := x / 2 + y / 2;
    assert x + y == 2 * h + (x % 2 + y % 2);
  }

  lemma OrByHalf(x: nat, y: nat, z: nat, k: nat)
    requires k > 0 && Low(z) == (if Low(x) == 1 || Low(y) == 1 then 1 else 0)
    requires Down(z) == OrBits(Down(x), Down(y), k - 1)
    ensures OrBits(x, y, k) == z
  {
  }

  lemma ZeroBits(a: bv8)
    requires ByteOf(a) < Pow2(0)
    ensures a == 0
  {
  }

  ghost predicate Bitwise(a: bv8, b: bv8, k: nat) {
    XorBits(ByteOf(a), ByteOf(b), k) == ByteOf(XorOf(a, b)) && OrBits(ByteOf(a), ByteOf(b), k) == ByteOf(OrOf(a, b))
  }

  lemma BitwiseStep(a: bv8, b: bv8, k: nat)
    requires k > 0 && Bitwise(Half(a), Half(b), k - 1)
    ensures Bitwise(a, b, k)
  {
    hide ByteOf, Half, XorOf, OrOf, XorBits, OrBits, Down, Low;
    ByteHalves(a, b);
    ByteLows(a, b);
    XorByHalf(ByteOf(a), ByteOf(b), ByteOf(XorOf(a, b)), k);
    OrByHalf(ByteOf(a), ByteOf(b), ByteOf(OrOf(a, b)), k);
  }

  lemma {:induction false} BitsAreBitwise(a: bv8, b: bv8, k: nat)
    requires ByteOf(a) < Pow2(k) && ByteOf(b) < Pow2(k)
    ensures Bitwise(a, b, k)
    decreases k
  {
    hide ByteOf, Half, XorOf, OrOf, Down, Bitwise;
    if k == 0 {
      NoBits(a, b);
    } else {
      ByteHalves(a, b);
      HalfBelow(ByteOf(a), k);
      HalfBelow(ByteOf(b), k);
      BitsAreBitwise(Half(a), Half(b), k - 1);
      BitwiseStep(a, b, k);
    }
  }

  lemma HalfBelow(x: nat, k: nat)
    requires k > 0 && x < Pow2(k)
    ensures Down(x) < Pow2(k - 1)
  {
  }

  lemma NoBits(a: bv8, b: bv8)
    requires ByteOf(a) < Pow2(0) && ByteOf(b) < Pow2(0)
    ensures Bitwise(a, b, 0)
  {
    ZeroBits(a);
    ZeroBits(b);
    hide ByteOf, Half, XorOf, OrOf;
    HalvesOf(a, b);
  }

  lemma ByteHalves(a: bv8, b: bv8)
    ensures ByteOf(Half(a)) == Down(ByteOf(a)) && ByteOf(Half(b)) == Down(ByteOf(b))
    ensures Down(ByteOf(XorOf(a, b))) == ByteOf(XorOf(Half(a), Half(b)))
    ensures Down(ByteOf(OrOf(a, b))) == ByteOf(OrOf(Half(a), Half(b)))
  {
    hide ByteOf, Half, XorOf, OrOf;
    HalvesOf(a, b);
    HalfOf(a);
    HalfOf(b);
    HalfOf(XorOf(a, b));
    HalfOf(OrOf(a, b));
  }

  lemma ByteLows(a: bv8, b: bv8)
    ensures Low(ByteOf(XorOf(a, b))) == (Low(ByteOf(a)) + Low(ByteOf(b))) % 2
    ensures Low(ByteOf(OrOf(a, b))) == if Low(ByteOf(a)) == 1 || Low(ByteOf(b)) == 1 then 1 else 0
  {
    hide ByteOf, LowBit, XorOf, OrOf;
    LowBitOf(a);
    LowBitOf(b);
    LowBitOf(XorOf(a, b));
    LowBitOf(OrOf(a, b));
    LowBitsOf(a, b);
  }

  /** `Xor` and `Or` are the bitwise operations on 8-bit words. */
  lemma XorAndOrAreBitwise(a: bv8, b: bv8)
    ensures Xor(ByteOf(a), ByteOf(b)) == ByteOf(a ^ b) && Or(ByteOf(a), ByteOf(b)) == ByteOf(a | b)
  {
    hide XorBits, OrBits, ByteOf;
    Pow2Of8();
    BitsAreBitwise(a, b, 8);
  }

  lemma SameParity(a: nat, b: nat)
    ensures (a + b) % 2 == 0 <==> a % 2 == b % 2
  {
  }

  lemma {:induction false} XorBitsIsZero(a: nat, b: nat, k: nat)
    requires a < Pow2(k) && b < Pow2(k)
    ensures XorBits(a, b, k) == 0 <==> a == b
  {
    if k > 0 {
      XorBitsIsZero(a / 2, b / 2, k - 1);
      assert a == 2 * (a / 2) + a % 2 && b == 2 * (b / 2) + b % 2;
      assert (a + b) % 2 == 0 <==> a % 2 == b % 2 by { SameParity(a, b); }
    }
  }

  lemma {:induction false} OrBitsIsZero(a: nat, b: nat, k: nat)
    requires a < Pow2(k) && b < Pow2(k)
    ensures OrBits(a, b, k) == 0 <==> a == 0 && b == 0
  {
    if k > 0 { OrBitsIsZero(a / 2, b / 2, k - 1); }
  }

  lemma Assoc<T>(a: seq<T>, b: seq<T>, c: seq<T>)
    ensures a + b + c == a + (b + c)
  {
  }

  /** The bytes of all chunks, in order. */
  function Concat(chunks: seq<Data>): (s: Data) {
    if chunks == [] then [] else Concat(chunks[..|chunks| - 1]) + chunks[|chunks| - 1]
  }

  lemma ConcatSnoc(chunks: seq<Data>, c: Data)
    ensures Concat(chunks + [c]) == Concat(chunks) + c
  {
    assert (chunks + [c])[..|chunks|] == chunks;
  }

  lemma {:induction false} ConcatAppend(a: seq<Data>, b: seq<Data>)
    ensures Concat(a + b) == Concat(a) + Concat(b)
  {
    if b == [] {
      assert a + b == a;
    } else {
      var n := |b| - 1;
      assert a + b == (a + b[..n]) + [b[n]];
      ConcatSnoc(a + b[..n], b[n]);
      ConcatAppend(a, b[..n]);
      Assoc(Concat(a), Concat(b[..n]), b[n]);
    }
  }
}
