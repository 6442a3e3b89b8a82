/** SHA-256 as in RFC 6234 (`Sha256` in auth/crypto): the function, and the streaming object that computes it. */
module Sha256 {
  import opened Bytes

  type word = bv32
  type State = s: seq<word> | |s| == 8 witness [0, 0, 0, 0, 0, 0, 0, 0]
  type Block = b: Data | |b| == 64 witness seq(64, _ => 0)

  const K_0: seq<word> := [
    0x428a2f98, 0x71374491, 0xb5c0fbcf, 0xe9b5dba5, 0x3956c25b, 0x59f111f1, 0x923f82a4, 0xab1c5ed5,
    0xd807aa98, 0x12835b01, 0x243185be, 0x550c7dc3, 0x72be5d74, 0x80deb1fe, 0x9bdc06a7, 0xc19bf174]

  const K_1: seq<word> := [
    0xe49b69c1, 0xefbe4786, 0x0fc19dc6, 0x240ca1cc, 0x2de92c6f, 0x4a7484aa, 0x5cb0a9dc, 0x76f988da,
    0x983e5152, 0xa831c66d, 0xb00327c8, 0xbf597fc7, 0xc6e00bf3, 0xd5a79147, 0x06ca6351, 0x14292967]

  const K_2: seq<word> := [
    0x27b70a85, 0x2e1b2138, 0x4d2c6dfc, 0x53380d13, 0x650a7354, 0x766a0abb, 0x81c2c92e, 0x92722c85,
    0xa2bfe8a1, 0xa81a664b, 0xc24b8b70, 0xc76c51a3, 0xd192e819, 0xd6990624, 0xf40e3585, 0x106aa070]

  const K_3: seq<word> := [
    0x19a4c116, 0x1e376c08, 0x2748774c, 0x34b0bcb5, 0x391c0cb3, 0x4ed8aa4a, 0x5b9cca4f, 0x682e6ff3,
    0x748f82ee, 0x78a5636f, 0x84c87814, 0x8cc70208, 0x90befffa, 0xa4506ceb, 0xbef9a3f7, 0xc67178f2]

  const K: seq<word> := (K_0 + K_1) + (K_2 + K_3)

  const INITIAL: State := [
    0x6a09e667, 0xbb67ae85, 0x3c6ef372, 0xa54ff53a, 0x510e527f, 0x9b05688c, 0x1f83d9ab, 0x5be0cd19]

  function Add(x: word, y: word): word { x + y }
  function Sum(p: word, q: word, r: word, s: word): word { p + q + r + s }

  /** The functions of section 5.1. */
  function Ch(x: word, y: word, z: word): word { (x & y) ^ (!x & z) }
  function Maj(x: word, y: word, z: word): word { (x & y) ^ (x & z) ^ (y & z) }
  function BigSigma0(x: word): word { x.RotateRight(2) ^ x.RotateRight(13) ^ x.RotateRight(22) }
  function BigSigma1(x: word): word { x.RotateRight(6) ^ x.RotateRight(11) ^ x.RotateRight(25) }
  function SmallSigma0(x: word): word { x.RotateRight(7) ^ x.RotateRight(18) ^ (x >> 3) }
  function SmallSigma1(x: word): word { x.RotateRight(17) ^ x.RotateRight(19) ^ (x >> 10) }

  function LoadBe32(b: Block, i: nat): word
    requires i < 16
  {
    FromBe32(b[4 * i..4 * i + 4]) as word
  }

  // ---- the compression function, section 6.2 -----------------------

  /** The message schedule: word `t` of a block. */
  function Schedule(b: Block, t: nat): word {
    if t < 16 then LoadBe32(b, t)
    else
      Sum(SmallSigma1(Schedule(b, t - 2)), Schedule(b, t - 7), SmallSigma0(Schedule(b, t - 15)), Schedule(b, t - 16))
  }

  lemma ScheduleStart(b: Block, t: nat)
    requires t < 16
    ensures Schedule(b, t) == FromBe32(b[4 * t..4 * t + 4]) as word
  {
  }

  lemma ScheduleStep(b: Block, t: nat)
    requires t >= 16
    ensures Schedule(b, t) ==
            Sum(SmallSigma1(Schedule(b, t - 2)), Schedule(b, t - 7), SmallSigma0(Schedule(b, t - 15)), Schedule(b, t - 16))
  {
  }

  datatype Vars = Vars(a: word, b: word, c: word, d: word, e: word, f: word, g: word, h: word)

  function Round(v: Vars, k: word, w: word): Vars {
    var t1 := Add(Add(Add(Add(v.h, BigSigma1(v.e)), Ch(v.e, v.f, v.g)), k), w);
    var t2 := Add(BigSigma0(v.a), Maj(v.a, v.b, v.c));
    Vars(Add(t1, t2), v.a, v.b, v.c, Add(v.d, t1), v.e, v.f, v.g)
  }

  /** The working variables after the first `t` rounds. */
  function Rounds(st: State, b: Block, t: nat): Vars
    requires t <= |K|
  {
    if t == 0 then Vars(st[0], st[1], st[2], st[3], st[4], st[5], st[6], st[7])
    else Round(Rounds(st, b, t - 1), K[t - 1], Schedule(b, t - 1))
  }

  lemma KLength()
    ensures |K| == 64
  {
  }

  function Compressed(st: State, b: Block): State {
    hide Rounds;
    var v := Rounds(st, b, |K|);
    [Add(st[0], v.a), Add(st[1], v.b), Add(st[2], v.c), Add(st[3], v.d),
     Add(st[4], v.e), Add(st[5], v.f), Add(st[6], v.g), Add(st[7], v.h)]
  }

  // ---- the hash of a message ---------------------------------------

  /** The fold of the compression function over whole blocks. */
  function Absorb(st: State, msg: Data): State
    requires |msg| % 64 == 0
  {
    if msg == [] then st
    else
      hide Compressed;
      var (before, b: Block) := (Absorb(st, msg[..|msg| - 64]), msg[|msg| - 64..]);
      Compressed(before, b)
  }

  /** The least number of zero bytes that leaves room for the length in the last block. */
  function ZeroCount(n: nat): (k: nat)
    ensures k < 64 && (n + 1 + k) % 64 == 56
  {
    (119 - n % 64) % 64
  }

  function Zeros(k: nat): (z: Data)
    ensures |z| == k
  {
    seq(k, _ => 0)
  }

  lemma PaddedLength(n: nat)
    ensures (n + 1 + ZeroCount(n) + 8) % 64 == 0
  {
  }

  /** Section 4.1: a one bit, zeros, and the bit count as a 64-bit word. */
  function Padded(msg: Data): (p: Data)
    ensures |p| % 64 == 0
  {
    PaddedLength(|msg|);
    msg + [0x80] + Zeros(ZeroCount(|msg|)) + BigEndian(8 * |msg|, 8)
  }

  /** The first `k` words of a state as bytes. */
  function StateBytes(st: State, k: nat): (d: Data)
    requires k <= 8
    ensures |d| == 4 * k
  {
    if k == 0 then [] else StateBytes(st, k - 1) + Be32(st[k - 1] as nat)
  }

  function Hash(msg: Data): (d: Data)
    ensures |d| == 32
  {
    StateBytes(Absorb(INITIAL, Padded(msg)), 8)
  }

  // ---- the streaming object ----------------------------------------


  lemma AbsorbSnoc(st: State, msg: Data, b: Block)
    requires |msg| % 64 == 0
    ensures |msg + b| % 64 == 0 && Absorb(st, msg + b) == Compressed(Absorb(st, msg), b)
  {
    assert (msg + b)[..|msg|] == msg && (msg + b)[|msg|..] == b;
  }

  class Hasher {
    const st: array<word>
    const buf: array<byte>
    var bits: nat
    var blen: nat
    /** All bytes passed to `Update`. */
    ghost var fed: Data

    /** The blocks of `msg` that are full have been absorbed, and the rest of it is buffered. */
    ghost predicate Holds(msg: Data)
      reads this, st, buf
    {
      && st.Length == 8 && buf.Length == 64
      && blen == |msg| % 64
      && st[..] == Absorb(INITIAL, msg[..|msg| - blen])
      && buf[..blen] == msg[|msg| - blen..]
    }

    ghost predicate Valid()
      reads this, st, buf
    {
      Holds(fed) && bits == 8 * |fed| % TWO_TO_THE_64
    }

    constructor ()
      ensures Valid() && fed == [] && fresh(st) && fresh(buf)
    {
      var s: array<word> := new word[8](i requires 0 <= i < 8 => INITIAL[i]);
      st := s;
      buf := new byte[64];
      bits, blen := 0, 0;
      fed := [];
      new;
      assert st[..] == INITIAL;
    }

    method Compress()
      requires st.Length == 8 && buf.Length == 64
      modifies st
      ensures st[..] == Compressed(old(st[..]), buf[..])
    {
      hide Rounds, Schedule, Add;
      var w := ExpandBlock(buf);
      var v := RunRounds(st, w, buf[..]);
      AddVars(st, v);
    }

    /** Absorbs the buffer once it is full. */
    method Flush(ghost msg: Data)
      requires st.Length == 8 && buf.Length == 64 && blen == 64
      requires |msg| % 64 == 0 && |msg| >= 64
      requires st[..] == Absorb(INITIAL, msg[..|msg| - 64]) && buf[..] == msg[|msg| - 64..]
      modifies st, this`blen
      ensures Holds(msg)
    {
      hide Compressed;
      Compress();
      blen := 0;
      assert msg[..|msg|] == msg;
    }

    /** One turn of the loop in `update`: copies what fits and absorbs the buffer when it is full. */
    method FillBuffer(data: Data, pos: nat, ghost before: Data) returns (next: nat)
      requires pos < |data| && Holds(before + data[..pos])
      modifies st, buf, this`blen
      ensures pos < next <= |data| && Holds(before + data[..next])
    {
      hide Absorb;
      var take := if 64 - blen < |data| - pos then 64 - blen else |data| - pos;
      next := pos + take;
      var more := data[pos..next];
      ghost var msg := before + data[..pos];
      assert before + data[..next] == msg + more;
      SplitTail(msg, more, blen);
      RemainderStep(|msg|, take);
      CopyIn(more);
      if blen == 64 { Flush(msg + more); }
    }

    /** The copy into the buffer. */
    method CopyIn(more: Data)
      requires buf.Length == 64 && blen + |more| <= 64
      modifies buf, this`blen
      ensures blen == old(blen) + |more| && buf[..blen] == old(buf[..blen]) + more
    {
      forall j | 0 <= j < |more| { buf[blen + j] := more[j]; }
      blen := blen + |more|;
    }

    method Update(data: Data)
      requires Valid()
      modifies this, st, buf
      ensures Valid() && fed == old(fed) + data
    {
      hide Absorb;
      BitCount(|fed|, |data|);
      bits := (bits + |data| * 8 % TWO_TO_THE_64) % TWO_TO_THE_64;
      ghost var before := fed;
      fed := fed + data;
      var pos := 0;
      assert before + data[..0] == before;
      while pos < |data|
        invariant 0 <= pos <= |data|
        invariant Holds(before + data[..pos])
        invariant bits == 8 * |fed| % TWO_TO_THE_64 && fed == before + data
      {
        pos := FillBuffer(data, pos, before);
      }
      assert data[..pos] == data;
    }

    /** Puts zeros at `from` up to `to`. */
    method ZeroFill(from: nat, to: nat)
      requires buf.Length == 64 && from <= to <= 64
      modifies buf
      ensures buf[..] == old(buf[..from]) + Zeros(to - from) + old(buf[to..])
    {
      forall j | from <= j < to { buf[j] := 0; }
    }

    method StoreLength()
      requires buf.Length == 64
      modifies buf
      ensures buf[..] == old(buf[..56]) + BigEndian(bits, 8)
    {
      for i := 0 to 8
        invariant buf[..56 + i] == old(buf[..56]) + BigEndian(bits, 8)[..i]
      {
        BigEndianAt(bits, 8, i);
        buf[56 + i] := ByteAt(bits, 7 - i);
      }
    }

    method Finish() returns (out: Data)
      requires Valid()
      modifies this, st, buf
      ensures out == Hash(old(fed))
    {
      hide Absorb, Compressed, BigEndian, Padded;
      ghost var whole, tail := fed[..|fed| - blen], fed[|fed| - blen..];
      ghost var length := BigEndian(8 * |fed|, 8);
      assert fed == whole + tail;
      LengthBytes(|fed|);
      buf[blen] := 0x80;
      blen := blen + 1;
      assert buf[..blen] == tail + [0x80];
      if blen > 56 {
        ZeroFill(blen, 64);
        ghost var b := buf[..];
        assert b == tail + [0x80] + Zeros(63 - |tail|);
        AbsorbSnoc(INITIAL, whole, b);
        Compress();
        blen := 0;
        ZeroFill(blen, 56);
        StoreLength();
        assert buf[..] == Zeros(56) + length;
        AbsorbSnoc(INITIAL, whole + b, buf[..]);
        PaddedTwoBlocks(whole, tail, length);
      } else {
        ZeroFill(blen, 56);
        StoreLength();
        assert buf[..] == tail + [0x80] + Zeros(55 - |tail|) + length;
        AbsorbSnoc(INITIAL, whole, buf[..]);
        PaddedOneBlock(whole, tail, length);
      }
      Compress();
      assert st[..] == Absorb(INITIAL, Padded(fed));
      out := [];
      for i := 0 to 8
        invariant out == StateBytes(st[..], i)
      {
        out := out + Be32(st[i] as nat);
      }
    }
  }

  lemma PaddedWith(msg: Data, k: nat)
    requires k == if |msg| % 64 < 56 then 55 - |msg| % 64 else 119 - |msg| % 64
    ensures Padded(msg) == msg + [0x80] + Zeros(k) + BigEndian(8 * |msg|, 8)
  {
    hide BigEndian, Zeros;
    assert ZeroCount(|msg|) == k;
  }

  lemma Regroup(w: Data, t: Data, z: Data, l: Data)
    ensures w + t + [0x80] + z + l == w + (t + [0x80] + z + l)
  {
    Assoc(w, t, [0x80]);
    Assoc(w, t + [0x80], z);
    Assoc(w, t + [0x80] + z, l);
  }

  /** The length fits behind the padding bit: one last block. */
  lemma PaddedOneBlock(w: Data, t: Data, l: Data)
    requires |w| % 64 == 0 && |t| < 56 && l == BigEndian(8 * |w + t|, 8)
    ensures Padded(w + t) == w + (t + [0x80] + Zeros(55 - |t|) + l)
  {
    hide BigEndian, Padded, Zeros;
    RemainderStep(|w|, |t|);
    PaddedWith(w + t, 55 - |t|);
    Regroup(w, t, Zeros(55 - |t|), l);
  }

  /** It does not: two last blocks. */
  lemma PaddedTwoBlocks(w: Data, t: Data, l: Data)
    requires |w| % 64 == 0 && 56 <= |t| < 64 && l == BigEndian(8 * |w + t|, 8)
    ensures Padded(w + t) == w + (t + [0x80] + Zeros(63 - |t|)) + (Zeros(56) + l)
  {
    hide BigEndian, Padded, Zeros;
    RemainderStep(|w|, |t|);
    PaddedWith(w + t, 119 - |t|);
    Regroup(w, t, Zeros(119 - |t|), l);
    ZerosAppend(63 - |t|, 56);
    Assoc(t + [0x80], Zeros(63 - |t|), Zeros(56));
    Assoc(t + [0x80] + Zeros(63 - |t|), Zeros(56), l);
    Assoc(w, t + [0x80] + Zeros(63 - |t|), Zeros(56) + l);
  }

  lemma ZerosAppend(j: nat, k: nat)
    ensures Zeros(j + k) == Zeros(j) + Zeros(k)
  {
  }

  /** The source keeps the bit count modulo 2^64, and its bytes are the same. */
  lemma LengthBytes(n: nat)
    ensures BigEndian(8 * n % TWO_TO_THE_64, 8) == BigEndian(8 * n, 8)
  {
    PowEight();
    BigEndianTruncates(8 * n / TWO_TO_THE_64, 8 * n % TWO_TO_THE_64, 8);
  }

  lemma PowEight()
    ensures Pow256(8) == TWO_TO_THE_64
  {
    assert Pow256(2) == 0x1_0000;
    assert Pow256(4) == 0x1_0000_0000;
    assert Pow256(6) == 0x1_0000_0000_0000;
  }

  lemma SplitTail(msg: Data, more: Data, r: nat)
    requires r <= |msg|
    ensures (msg + more)[..|msg| - r] == msg[..|msg| - r]
    ensures (msg + more)[|msg| - r..] == msg[|msg| - r..] + more
  {
  }

  lemma RemainderStep(n: nat, take: nat)
    requires n % 64 + take <= 64
    ensures (n + take) % 64 == if n % 64 + take == 64 then 0 else n % 64 + take
  {
  }

  lemma WholeTurns(q: nat, x: nat)
    ensures (TWO_TO_THE_64 * q + x) % TWO_TO_THE_64 == x % TWO_TO_THE_64
  {
  }

  /** Adding bit counts modulo 2^64 loses nothing that the padding shows. */
  lemma BitCount(n: nat, k: nat)
    ensures (8 * n % TWO_TO_THE_64 + k * 8 % TWO_TO_THE_64) % TWO_TO_THE_64 == 8 * (n + k) % TWO_TO_THE_64
  {
    var (a, b) := (8 * n, k * 8);
    WholeTurns(a / TWO_TO_THE_64 + b / TWO_TO_THE_64, a % TWO_TO_THE_64 + b % TWO_TO_THE_64);
  }

  /** The first loops of `compress`: the 64-word schedule of the buffered block. */
  method ExpandBlock(buf: array<byte>) returns (w: array<word>)
    requires buf.Length == 64
    ensures fresh(w) && w.Length == 64
    ensures forall t :: 0 <= t < 64 ==> w[t] == Schedule(buf[..], t)
  {
    hide SmallSigma0, SmallSigma1, Sum, FromBe32, Schedule;
    w := new word[64];
    ghost var block := buf[..];
    for i := 0 to 16
      invariant forall t :: 0 <= t < i ==> w[t] == Schedule(block, t)
    {
      w[i] := FromBe32(buf[4 * i..4 * i + 4]) as word;
      assert buf[4 * i..4 * i + 4] == block[4 * i..4 * i + 4];
      ScheduleStart(block, i);
    }
    for i := 16 to 64
      invariant forall t :: 0 <= t < i ==> w[t] == Schedule(block, t)
    {
      ScheduleStep(block, i);
      var x, y := w[i - 15], w[i - 2];
      var s0 := ((x >> 7) | (x << 25)) ^ ((x >> 18) | (x << 14)) ^ (x >> 3);
      var s1 := ((y >> 17) | (y << 15)) ^ ((y >> 19) | (y << 13)) ^ (y >> 10);
      SmallSigmasOf(x, y, s0, s1);
      SumOrder(s1, w[i - 7], s0, w[i - 16]);
      w[i] := Sum(w[i - 16], s0, w[i - 7], s1);
    }
  }

  /** The source rotates by two shifts. */
  lemma SmallSigmasOf(x: word, y: word, s0: word, s1: word)
    requires s0 == ((x >> 7) | (x << 25)) ^ ((x >> 18) | (x << 14)) ^ (x >> 3)
    requires s1 == ((y >> 17) | (y << 15)) ^ ((y >> 19) | (y << 13)) ^ (y >> 10)
    ensures s0 == SmallSigma0(x) && s1 == SmallSigma1(y)
  {
  }

  lemma BigSigmasOf(x: word, y: word, s0: word, s1: word)
    requires s0 == ((x >> 2) | (x << 30)) ^ ((x >> 13) | (x << 19)) ^ ((x >> 22) | (x << 10))
    requires s1 == ((y >> 6) | (y << 26)) ^ ((y >> 11) | (y << 21)) ^ ((y >> 25) | (y << 7))
    ensures s0 == BigSigma0(x) && s1 == BigSigma1(y)
  {
  }

  /** The source adds the terms of the schedule in the opposite order. */
  lemma SumOrder(p: word, q: word, r: word, s: word)
    ensures Sum(p, q, r, s) == Sum(s, r, q, p)
  {
  }

  /** The round loop of `compress`. */
  method RunRounds(st: array<word>, w: array<word>, ghost block: Block) returns (v: Vars)
    requires st.Length == 8 && w.Length == 64
    requires forall t :: 0 <= t < 64 ==> w[t] == Schedule(block, t)
    ensures v == Rounds(st[..], block, |K|)
  {
    hide BigSigma0, BigSigma1, Ch, Maj, Schedule, Add;
    KLength();
    var a, b, c, d, e, f, g, h := st[0], st[1], st[2], st[3], st[4], st[5], st[6], st[7];
    for i := 0 to 64
      invariant Vars(a, b, c, d, e, f, g, h) == Rounds(st[..], block, i)
    {
      var s1 := ((e >> 6) | (e << 26)) ^ ((e >> 11) | (e << 21)) ^ ((e >> 25) | (e << 7));
      var s0 := ((a >> 2) | (a << 30)) ^ ((a >> 13) | (a << 19)) ^ ((a >> 22) | (a << 10));
      BigSigmasOf(a, e, s0, s1);
      var t1 := Add(Add(Add(Add(h, s1), Ch(e, f, g)), K[i]), w[i]);
      var t2 := Add(s0, Maj(a, b, c));
      h := g; g := f; f := e; e := Add(d, t1); d := c; c := b; b := a; a := Add(t1, t2);
    }
    v := Vars(a, b, c, d, e, f, g, h);
  }

  method AddVars(st: array<word>, v: Vars)
    requires st.Length == 8
    modifies st
    ensures st[..] == [Add(old(st[0]), v.a), Add(old(st[1]), v.b), Add(old(st[2]), v.c), Add(old(st[3]), v.d),
                       Add(old(st[4]), v.e), Add(old(st[5]), v.f), Add(old(st[6]), v.g), Add(old(st[7]), v.h)]
  {
    hide Add;
    st[0], st[1], st[2], st[3] := Add(st[0], v.a), Add(st[1], v.b), Add(st[2], v.c), Add(st[3], v.d);
    st[4], st[5], st[6], st[7] := Add(st[4], v.e), Add(st[5], v.f), Add(st[6], v.g), Add(st[7], v.h);
  }

  /** However a message is cut into `update` calls, the digest is the hash of the whole message. */
  method HashChunks(chunks: seq<Data>) returns (digest: Data)
    ensures digest == Hash(Concat(chunks))
  {
    hide Hash, Hasher.Valid;
    var h := new Hasher();
    for i := 0 to |chunks|
      invariant fresh(h) && fresh(h.st) && fresh(h.buf)
      invariant h.Valid() && h.fed == Concat(chunks[..i])
    {
      assert chunks[..i + 1] == chunks[..i] + [chunks[i]];
      ConcatSnoc(chunks[..i], chunks[i]);
      h.Update(chunks[i]);
    }
    assert chunks[..|chunks|] == chunks;
    digest := h.Finish();
  }
}
