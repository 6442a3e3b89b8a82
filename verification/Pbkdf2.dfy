/** HMAC-SHA256 (section 2 of RFC 2104) and PBKDF2 (section 5.2 of RFC 8018), as in auth/crypto. */
module Pbkdf2 {
  import opened Bytes
  import Sha256

  function XorEach(a: Data, b: Data): (c: Data)
    requires |a| == |b|
    ensures |c| == |a|
  {
    hide Xor;
    seq(|a|, i requires 0 <= i < |a| => Xor(a[i], b[i]))
  }

  function Repeat(b: byte, n: nat): (d: Data)
    ensures |d| == n
  {
    seq(n, _ => b)
  }

  const BLOCK: nat := 64
  const DIGEST: nat := 32

  // ---- HMAC --------------------------------------------------------

  /** A long key is hashed first; a short one is filled up with zeros. */
  function BlockKey(key: Data): (k: Data)
    ensures |k| == BLOCK
  {
    hide Sha256.Hash;
    var short := if |key| > BLOCK then Sha256.Hash(key) else key;
    short + Repeat(0, BLOCK - |short|)
  }

  function Hmac(key: Data, msg: Data): (mac: Data)
    ensures |mac| == DIGEST
  {
    hide Sha256.Hash, BlockKey;
    var k := BlockKey(key);
    Sha256.Hash(XorEach(k, Repeat(0x5c, BLOCK)) + Sha256.Hash(XorEach(k, Repeat(0x36, BLOCK)) + msg))
  }

  /** The loop that makes both pads. */
  method MakePads(k: array<byte>) returns (ipad: Data, opad: Data)
    requires k.Length == BLOCK
    ensures ipad == XorEach(k[..], Repeat(0x36, BLOCK)) && opad == XorEach(k[..], Repeat(0x5c, BLOCK))
  {
    hide Xor;
    ipad, opad := [], [];
    for i := 0 to BLOCK
      invariant |ipad| == |opad| == i
      invariant forall j :: 0 <= j < i ==> ipad[j] == Xor(k[j], 0x36) && opad[j] == Xor(k[j], 0x5c)
    {
      ipad, opad := ipad + [Xor(k[i], 0x36)], opad + [Xor(k[i], 0x5c)];
    }
  }

  method HmacSha256(key: Data, msg: Data) returns (mac: Data)
    ensures mac == Hmac(key, msg)
  {
    hide Sha256.Hash, Xor, XorEach, Sha256.Hasher.Valid;
    var k := new byte[BLOCK](_ => 0);
    var short := key;
    if |key| > BLOCK {
      short := HashOf(key, []);
      assert key + [] == key;
    }
    forall i | 0 <= i < |short| { k[i] := short[i]; }
    assert k[..] == BlockKey(key);
    var ipad, opad := MakePads(k);
    var inner := HashOf(ipad, msg);
    mac := HashOf(opad, inner);
  }

  /** Two `update` calls and `finish`. */
  method HashOf(a: Data, b: Data) returns (digest: Data)
    ensures digest == Sha256.Hash(a + b)
  {
    hide Sha256.Hash, Sha256.Hasher.Valid;
    var h := new Sha256.Hasher();
    h.Update(a);
    h.Update(b);
    assert [] + a + b == a + b;
    digest := h.Finish();
  }

  // ---- PBKDF2 ------------------------------------------------------

  /** The pseudorandom chain of block `i`, from 1 on. */
  function U(password: Data, salt: Data, i: nat, j: nat): (u: Data)
    requires j >= 1
    ensures |u| == DIGEST
  {
    hide Hmac;
    if j == 1 then Hmac(password, salt + Be32(i)) else Hmac(password, U(password, salt, i, j - 1))
  }

  /** Block `i` of the derived key: the exclusive-or of the first `c` terms of its chain. */
  function T(password: Data, salt: Data, c: nat, i: nat): (t: Data)
    requires c >= 1
    ensures |t| == DIGEST
  {
    hide U, XorEach;
    if c == 1 then U(password, salt, i, 1) else XorEach(T(password, salt, c - 1, i), U(password, salt, i, c))
  }

  /** The first `l` blocks. */
  function Blocks(password: Data, salt: Data, c: nat, l: nat): (d: Data)
    requires c >= 1
    ensures |d| == DIGEST * l
  {
    hide T;
    if l == 0 then [] else Blocks(password, salt, c, l - 1) + T(password, salt, c, l)
  }

  /** The number of blocks that hold `n` bytes. */
  function BlockCount(n: nat): (l: nat)
    ensures n <= DIGEST * l < n + DIGEST
  {
    (n + DIGEST - 1) / DIGEST
  }

  function Derived(password: Data, salt: Data, c: nat, length: nat): (d: Data)
    requires c >= 1
    ensures |d| == length
  {
    hide Blocks;
    Blocks(password, salt, c, BlockCount(length))[..length]
  }

  /** One block: the iteration loop of the source. Zero iterations count as one. */
  method DeriveBlock(password: Data, salt: Data, iterations: nat, block: nat) returns (t: Data)
    ensures t == T(password, salt, if iterations == 0 then 1 else iterations, block)
  {
    hide Hmac;
    var u := HmacSha256(password, salt + Be32(block));
    t := u;
    for i := 1 to if iterations == 0 then 1 else iterations
      invariant u == U(password, salt, block, i) && t == T(password, salt, i, block)
    {
      u := HmacSha256(password, u);
      t := XorLoop(t, u);
    }
  }

  method XorLoop(t: Data, u: Data) returns (r: Data)
    requires |t| == |u|
    ensures r == XorEach(t, u)
  {
    hide Xor;
    r := t;
    for j := 0 to |t|
      invariant |r| == |t| && r[j..] == t[j..]
      invariant forall k :: 0 <= k < j ==> r[k] == Xor(t[k], u[k])
    {
      assert r[j..][0] == t[j..][0];
      r := r[j := Xor(r[j], u[j])];
      assert r[j + 1..] == t[j + 1..];
    }
  }

  /**
   * `pbkdf2_hmac_sha256`. The counter is a 32-bit word on the wire, so past 2^32 - 1 blocks it starts over;
   * `Be32` truncates in the same way.
   */
  method DeriveKey(password: Data, salt: Data, iterations: nat, length: nat) returns (out: Data)
    ensures out == Derived(password, salt, if iterations == 0 then 1 else iterations, length)
  {
    hide T;
    ghost var c := if iterations == 0 then 1 else iterations;
    out := [];
    var block := 1;
    while |out| < length
      invariant block >= 1
      invariant |out| == if DIGEST * (block - 1) < length then DIGEST * (block - 1) else length
      invariant DIGEST * (block - 1) < length + DIGEST
      invariant out == Blocks(password, salt, c, block - 1)[..|out|]
    {
      var t := DeriveBlock(password, salt, iterations, block);
      var take := if DIGEST < length - |out| then DIGEST else length - |out|;
      out := out + t[..take];
      block := block + 1;
    }
    assert block - 1 == BlockCount(length);
  }

  /** A shorter key is a prefix of a longer one. */
  lemma ShorterIsPrefix(password: Data, salt: Data, c: nat, m: nat, n: nat)
    requires c >= 1 && m <= n
    ensures Derived(password, salt, c, m) <= Derived(password, salt, c, n)
  {
    BlocksGrow(password, salt, c, BlockCount(m), BlockCount(n));
  }

  lemma {:induction false} BlocksGrow(password: Data, salt: Data, c: nat, k: nat, l: nat)
    requires c >= 1 && k <= l
    ensures Blocks(password, salt, c, k) <= Blocks(password, salt, c, l)
  {
    hide T;
    if k < l { BlocksGrow(password, salt, c, k, l - 1); }
  }

  /**
   * RFC 8018 refuses keys of more than 2^32 - 1 blocks. That is exactly the bound up to which the four counter
   * bytes of every block spell its number; a longer key uses a counter that has started over.
   */
  lemma CounterIsExact(length: nat)
    ensures (forall i :: 1 <= i <= BlockCount(length) ==> FromBe32(Be32(i)) == i)
            <==> length <= DIGEST * (TWO_TO_THE_32 - 1)
  {
    if length <= DIGEST * (TWO_TO_THE_32 - 1) {
      forall i | 1 <= i <= BlockCount(length) ensures FromBe32(Be32(i)) == i { Be32RoundTrip(i); }
    } else {
      assert 1 <= TWO_TO_THE_32 <= BlockCount(length);
      assert FromBe32(Be32(TWO_TO_THE_32)) != TWO_TO_THE_32;
    }
  }

  // ---- what the definitions come to --------------------------------

  lemma {:induction false} XorBitsWithZero(b: nat, k: nat)
    requires b < Pow2(k)
    ensures XorBits(0, b, k) == b
  {
    if k > 0 { XorBitsWithZero(b / 2, k - 1); }
  }

  lemma XorEachWithZeros(b: byte, n: nat)
    ensures XorEach(Repeat(0, n), Repeat(b, n)) == Repeat(b, n)
  {
    Pow2Of8();
    XorBitsWithZero(b, 8);
  }

  /** The two pads, seen with the empty key. */
  lemma HmacOfEmptyKey(msg: Data)
    ensures Hmac([], msg) == Sha256.Hash(seq(64, _ => 0x5c) + Sha256.Hash(seq(64, _ => 0x36) + msg))
  {
    hide Sha256.Hash, XorEach;
    assert BlockKey([]) == Repeat(0, BLOCK);
    XorEachWithZeros(0x5c, BLOCK);
    XorEachWithZeros(0x36, BLOCK);
    assert Repeat(0x5c, BLOCK) == seq(64, _ => 0x5c) && Repeat(0x36, BLOCK) == seq(64, _ => 0x36);
  }

  /** Trailing zeros of a short key make no difference, and a long key counts as its hash. */
  lemma HmacKeys(key: Data, msg: Data)
    ensures |key| < 64 ==> Hmac(key + [0], msg) == Hmac(key, msg)
    ensures |key| > 64 ==> Hmac(key, msg) == Hmac(Sha256.Hash(key), msg)
  {
    hide Sha256.Hash, XorEach;
    if |key| < 64 { assert BlockKey(key + [0]) == BlockKey(key); }
    if |key| > 64 { assert BlockKey(key) == BlockKey(Sha256.Hash(key)); }
  }

  lemma BlockNumbers()
    ensures Be32(1) == [0, 0, 0, 1] && Be32(2) == [0, 0, 0, 2]
  {
    Be32Is(1);
    Be32Is(2);
  }

  lemma TwoBlocks(password: Data, salt: Data, c: nat)
    requires c >= 1
    ensures Blocks(password, salt, c, 1) == T(password, salt, c, 1)
    ensures Blocks(password, salt, c, 2) == T(password, salt, c, 1) + T(password, salt, c, 2)
  {
    hide T;
    assert Blocks(password, salt, c, 0) == [];
    assert [] + T(password, salt, c, 1) == T(password, salt, c, 1);
  }

  /** One iteration is one HMAC of the salt and the block number; two are the exclusive-or with the next one. */
  lemma FirstKeys(password: Data, salt: Data)
    ensures var u := Hmac(password, salt + [0, 0, 0, 1]);
            && Derived(password, salt, 1, 32) == u
            && Derived(password, salt, 2, 32) == XorEach(u, Hmac(password, u))
            && Derived(password, salt, 1, 64) == u + Hmac(password, salt + [0, 0, 0, 2])
  {
    hide Hmac, XorEach, Be32, Blocks;
    BlockNumbers();
    TwoBlocks(password, salt, 1);
    TwoBlocks(password, salt, 2);
  }
}
