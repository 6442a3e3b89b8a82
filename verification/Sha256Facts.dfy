/**
 * What the constants and functions of SHA-256 are, said without the definitions in `Sha256`: the constants come from
 * the roots of the first primes, the bitwise functions choose and vote, and "abc" has the digest of section 8.5 of
 * RFC 6234.
 */
module Sha256Facts {
  import opened Bytes
  import opened Sha256

  // ---- the functions -----------------------------------------------

  /** Each bit of `x` chooses between the bits of `y` and `z`. */
  lemma ChChooses(x: word, y: word, z: word)
    ensures Ch(x, y, z) & x == y & x && Ch(x, y, z) & !x == z & !x
  {
  }

  /** Where `x` and `y` agree their bit wins, elsewhere the bit of `z` does. */
  lemma MajVotes(x: word, y: word, z: word)
    ensures var split := x ^ y; Maj(x, y, z) & !split == x & !split && Maj(x, y, z) & split == z & split
  {
  }

  // ---- the constants -----------------------------------------------

  const PRIMES_0: seq<nat> := [2, 3, 5, 7, 11, 13, 17, 19, 23, 29, 31, 37, 41, 43, 47, 53]
  const PRIMES_1: seq<nat> := [59, 61, 67, 71, 73, 79, 83, 89, 97, 101, 103, 107, 109, 113, 127, 131]
  const PRIMES_2: seq<nat> := [137, 139, 149, 151, 157, 163, 167, 173, 179, 181, 191, 193, 197, 199, 211, 223]
  const PRIMES_3: seq<nat> := [227, 229, 233, 239, 241, 251, 257, 263, 269, 271, 277, 281, 283, 293, 307, 311]
  const PRIMES: seq<nat> := (PRIMES_0 + PRIMES_1) + (PRIMES_2 + PRIMES_3)

  /** `k` is the first 32 bits of the fraction of the cube root of `p`, whose whole part is `q`. */
  predicate CubeRoot(p: nat, q: nat, k: nat) {
    var r := q * TWO_TO_THE_32 + k;
    k < TWO_TO_THE_32 && r * r * r <= p * TWO_TO_THE_32 * TWO_TO_THE_64 < (r + 1) * (r + 1) * (r + 1)
  }

  predicate SquareRoot(p: nat, q: nat, k: nat) {
    var r := q * TWO_TO_THE_32 + k;
    k < TWO_TO_THE_32 && r * r <= p * TWO_TO_THE_64 < (r + 1) * (r + 1)
  }

  /** The whole part of the cube root of a number below 343. */
  function WholeCubeRoot(p: nat): nat {
    if p < 8 then 1 else if p < 27 then 2 else if p < 64 then 3 else if p < 125 then 4 else if p < 216 then 5 else 6
  }

  ghost predicate IsCubeRootOfPrime(t: nat) {
    t < |K| && t < |PRIMES| && CubeRoot(PRIMES[t], WholeCubeRoot(PRIMES[t]), K[t] as nat)
  }

  lemma ByCubeRoot(t: nat, p: nat, q: nat, k: word, n: nat)
    requires t < |K| && t < |PRIMES| && K[t] == k && PRIMES[t] == p && q == WholeCubeRoot(p)
    requires k as nat == n && CubeRoot(p, q, n)
    ensures IsCubeRootOfPrime(t)
  {
    hide CubeRoot, WholeCubeRoot;
  }

  lemma K0()
    ensures K[0] == 0x428a2f98 && K[1] == 0x71374491 && K[2] == 0xb5c0fbcf && K[3] == 0xe9b5dba5
    ensures K[4] == 0x3956c25b && K[5] == 0x59f111f1 && K[6] == 0x923f82a4 && K[7] == 0xab1c5ed5
    ensures PRIMES[0] == 2 && PRIMES[1] == 3 && PRIMES[2] == 5 && PRIMES[3] == 7
    ensures PRIMES[4] == 11 && PRIMES[5] == 13 && PRIMES[6] == 17 && PRIMES[7] == 19
  {
  }

  lemma K8()
    ensures K[8] == 0xd807aa98 && K[9] == 0x12835b01 && K[10] == 0x243185be && K[11] == 0x550c7dc3
    ensures K[12] == 0x72be5d74 && K[13] == 0x80deb1fe && K[14] == 0x9bdc06a7 && K[15] == 0xc19bf174
    ensures PRIMES[8] == 23 && PRIMES[9] == 29 && PRIMES[10] == 31 && PRIMES[11] == 37
    ensures PRIMES[12] == 41 && PRIMES[13] == 43 && PRIMES[14] == 47 && PRIMES[15] == 53
  {
  }

  lemma K16()
    ensures K[16] == 0xe49b69c1 && K[17] == 0xefbe4786 && K[18] == 0x0fc19dc6 && K[19] == 0x240ca1cc
    ensures K[20] == 0x2de92c6f && K[21] == 0x4a7484aa && K[22] == 0x5cb0a9dc && K[23] == 0x76f988da
    ensures PRIMES[16] == 59 && PRIMES[17] == 61 && PRIMES[18] == 67 && PRIMES[19] == 71
    ensures PRIMES[20] == 73 && PRIMES[21] == 79 && PRIMES[22] == 83 && PRIMES[23] == 89
  {
  }

  lemma K24()
    ensures K[24] == 0x983e5152 && K[25] == 0xa831c66d && K[26] == 0xb00327c8 && K[27] == 0xbf597fc7
    ensures K[28] == 0xc6e00bf3 && K[29] == 0xd5a79147 && K[30] == 0x06ca6351 && K[31] == 0x14292967
    ensures PRIMES[24] == 97 && PRIMES[25] == 101 && PRIMES[26] == 103 && PRIMES[27] == 107
    ensures PRIMES[28] == 109 && PRIMES[29] == 113 && PRIMES[30] == 127 && PRIMES[31] == 131
  {
  }

  lemma K32()
    ensures K[32] == 0x27b70a85 && K[33] == 0x2e1b2138 && K[34] == 0x4d2c6dfc && K[35] == 0x53380d13
    ensures K[36] == 0x650a7354 && K[37] == 0x766a0abb && K[38] == 0x81c2c92e && K[39] == 0x92722c85
    ensures PRIMES[32] == 137 && PRIMES[33] == 139 && PRIMES[34] == 149 && PRIMES[35] == 151
    ensures PRIMES[36] == 157 && PRIMES[37] == 163 && PRIMES[38] == 167 && PRIMES[39] == 173
  {
  }

  lemma K40()
    ensures K[40] == 0xa2bfe8a1 && K[41] == 0xa81a664b && K[42] == 0xc24b8b70 && K[43] == 0xc76c51a3
    ensures K[44] == 0xd192e819 && K[45] == 0xd6990624 && K[46] == 0xf40e3585 && K[47] == 0x106aa070
    ensures PRIMES[40] == 179 && PRIMES[41] == 181 && PRIMES[42] == 191 && PRIMES[43] == 193
    ensures PRIMES[44] == 197 && PRIMES[45] == 199 && PRIMES[46] == 211 && PRIMES[47] == 223
  {
  }

  lemma K48()
    ensures K[48] == 0x19a4c116 && K[49] == 0x1e376c08 && K[50] == 0x2748774c && K[51] == 0x34b0bcb5
    ensures K[52] == 0x391c0cb3 && K[53] == 0x4ed8aa4a && K[54] == 0x5b9cca4f && K[55] == 0x682e6ff3
    ensures PRIMES[48] == 227 && PRIMES[49] == 229 && PRIMES[50] == 233 && PRIMES[51] == 239
    ensures PRIMES[52] == 241 && PRIMES[53] == 251 && PRIMES[54] == 257 && PRIMES[55] == 263
  {
  }

  lemma K56()
    ensures K[56] == 0x748f82ee && K[57] == 0x78a5636f && K[58] == 0x84c87814 && K[59] == 0x8cc70208
    ensures K[60] == 0x90befffa && K[61] == 0xa4506ceb && K[62] == 0xbef9a3f7 && K[63] == 0xc67178f2
    ensures PRIMES[56] == 269 && PRIMES[57] == 271 && PRIMES[58] == 277 && PRIMES[59] == 281
    ensures PRIMES[60] == 283 && PRIMES[61] == 293 && PRIMES[62] == 307 && PRIMES[63] == 311
  {
  }

  lemma CubeRoots0()
    ensures forall t :: 0 <= t < 8 ==> IsCubeRootOfPrime(t)
  {
    hide IsCubeRootOfPrime;
    K0();
    ByCubeRoot(0, 2, 1, 0x428a2f98, 0x428a2f98);
    ByCubeRoot(1, 3, 1, 0x71374491, 0x71374491);
    ByCubeRoot(2, 5, 1, 0xb5c0fbcf, 0xb5c0fbcf);
    ByCubeRoot(3, 7, 1, 0xe9b5dba5, 0xe9b5dba5);
    ByCubeRoot(4, 11, 2, 0x3956c25b, 0x3956c25b);
    ByCubeRoot(5, 13, 2, 0x59f111f1, 0x59f111f1);
    ByCubeRoot(6, 17, 2, 0x923f82a4, 0x923f82a4);
    ByCubeRoot(7, 19, 2, 0xab1c5ed5, 0xab1c5ed5);
  }

  lemma CubeRoots8()
    ensures forall t :: 8 <= t < 16 ==> IsCubeRootOfPrime(t)
  {
    hide IsCubeRootOfPrime;
    K8();
    ByCubeRoot(8, 23, 2, 0xd807aa98, 0xd807aa98);
    ByCubeRoot(9, 29, 3, 0x12835b01, 0x12835b01);
    ByCubeRoot(10, 31, 3, 0x243185be, 0x243185be);
    ByCubeRoot(11, 37, 3, 0x550c7dc3, 0x550c7dc3);
    ByCubeRoot(12, 41, 3, 0x72be5d74, 0x72be5d74);
    ByCubeRoot(13, 43, 3, 0x80deb1fe, 0x80deb1fe);
    ByCubeRoot(14, 47, 3, 0x9bdc06a7, 0x9bdc06a7);
    ByCubeRoot(15, 53, 3, 0xc19bf174, 0xc19bf174);
  }

  lemma CubeRoots16()
    ensures forall t :: 16 <= t < 24 ==> IsCubeRootOfPrime(t)
  {
    hide IsCubeRootOfPrime;
    K16();
    ByCubeRoot(16, 59, 3, 0xe49b69c1, 0xe49b69c1);
    ByCubeRoot(17, 61, 3, 0xefbe4786, 0xefbe4786);
    ByCubeRoot(18, 67, 4, 0x0fc19dc6, 0x0fc19dc6);
    ByCubeRoot(19, 71, 4, 0x240ca1cc, 0x240ca1cc);
    ByCubeRoot(20, 73, 4, 0x2de92c6f, 0x2de92c6f);
    ByCubeRoot(21, 79, 4, 0x4a7484aa, 0x4a7484aa);
    ByCubeRoot(22, 83, 4, 0x5cb0a9dc, 0x5cb0a9dc);
    ByCubeRoot(23, 89, 4, 0x76f988da, 0x76f988da);
  }

  lemma CubeRoots24()
    ensures forall t :: 24 <= t < 32 ==> IsCubeRootOfPrime(t)
  {
    hide IsCubeRootOfPrime;
    K24();
    ByCubeRoot(24, 97, 4, 0x983e5152, 0x983e5152);
    ByCubeRoot(25, 101, 4, 0xa831c66d, 0xa831c66d);
    ByCubeRoot(26, 103, 4, 0xb00327c8, 0xb00327c8);
    ByCubeRoot(27, 107, 4, 0xbf597fc7, 0xbf597fc7);
    ByCubeRoot(28, 109, 4, 0xc6e00bf3, 0xc6e00bf3);
    ByCubeRoot(29, 113, 4, 0xd5a79147, 0xd5a79147);
    ByCubeRoot(30, 127, 5, 0x06ca6351, 0x06ca6351);
    ByCubeRoot(31, 131, 5, 0x14292967, 0x14292967);
  }

  lemma CubeRoots32()
    ensures forall t :: 32 <= t < 40 ==> IsCubeRootOfPrime(t)
  {
    hide IsCubeRootOfPrime;
    K32();
    ByCubeRoot(32, 137, 5, 0x27b70a85, 0x27b70a85);
    ByCubeRoot(33, 139, 5, 0x2e1b2138, 0x2e1b2138);
    ByCubeRoot(34, 149, 5, 0x4d2c6dfc, 0x4d2c6dfc);
    ByCubeRoot(35, 151, 5, 0x53380d13, 0x53380d13);
    ByCubeRoot(36, 157, 5, 0x650a7354, 0x650a7354);
    ByCubeRoot(37, 163, 5, 0x766a0abb, 0x766a0abb);
    ByCubeRoot(38, 167, 5, 0x81c2c92e, 0x81c2c92e);
    ByCubeRoot(39, 173, 5, 0x92722c85, 0x92722c85);
  }

  lemma CubeRoots40()
    ensures forall t :: 40 <= t < 48 ==> IsCubeRootOfPrime(t)
  {
    hide IsCubeRootOfPrime;
    K40();
    ByCubeRoot(40, 179, 5, 0xa2bfe8a1, 0xa2bfe8a1);
    ByCubeRoot(41, 181, 5, 0xa81a664b, 0xa81a664b);
    ByCubeRoot(42, 191, 5, 0xc24b8b70, 0xc24b8b70);
    ByCubeRoot(43, 193, 5, 0xc76c51a3, 0xc76c51a3);
    ByCubeRoot(44, 197, 5, 0xd192e819, 0xd192e819);
    ByCubeRoot(45, 199, 5, 0xd6990624, 0xd6990624);
    ByCubeRoot(46, 211, 5, 0xf40e3585, 0xf40e3585);
    ByCubeRoot(47, 223, 6, 0x106aa070, 0x106aa070);
  }

  lemma CubeRoots48()
    ensures forall t :: 48 <= t < 56 ==> IsCubeRootOfPrime(t)
  {
    hide IsCubeRootOfPrime;
    K48();
    ByCubeRoot(48, 227, 6, 0x19a4c116, 0x19a4c116);
    ByCubeRoot(49, 229, 6, 0x1e376c08, 0x1e376c08);
    ByCubeRoot(50, 233, 6, 0x2748774c, 0x2748774c);
    ByCubeRoot(51, 239, 6, 0x34b0bcb5, 0x34b0bcb5);
    ByCubeRoot(52, 241, 6, 0x391c0cb3, 0x391c0cb3);
    ByCubeRoot(53, 251, 6, 0x4ed8aa4a, 0x4ed8aa4a);
    ByCubeRoot(54, 257, 6, 0x5b9cca4f, 0x5b9cca4f);
    ByCubeRoot(55, 263, 6, 0x682e6ff3, 0x682e6ff3);
  }

  lemma CubeRoots56()
    ensures forall t :: 56 <= t < 64 ==> IsCubeRootOfPrime(t)
  {
    hide IsCubeRootOfPrime;
    K56();
    ByCubeRoot(56, 269, 6, 0x748f82ee, 0x748f82ee);
    ByCubeRoot(57, 271, 6, 0x78a5636f, 0x78a5636f);
    ByCubeRoot(58, 277, 6, 0x84c87814, 0x84c87814);
    ByCubeRoot(59, 281, 6, 0x8cc70208, 0x8cc70208);
    ByCubeRoot(60, 283, 6, 0x90befffa, 0x90befffa);
    ByCubeRoot(61, 293, 6, 0xa4506ceb, 0xa4506ceb);
    ByCubeRoot(62, 307, 6, 0xbef9a3f7, 0xbef9a3f7);
    ByCubeRoot(63, 311, 6, 0xc67178f2, 0xc67178f2);
  }

  lemma Lengths()
    ensures |K| == 64 && |PRIMES| == 64
  {
  }

  /** Every round constant is the first 32 bits of the fraction of the cube root of a prime, in order. */
  lemma ConstantsAreCubeRoots()
    ensures |K| == 64 && |PRIMES| == 64 && forall t :: 0 <= t < 64 ==> IsCubeRootOfPrime(t)
  {
    hide IsCubeRootOfPrime;
    Lengths();
    CubeRoots0(); CubeRoots8(); CubeRoots16(); CubeRoots24();
    CubeRoots32(); CubeRoots40(); CubeRoots48(); CubeRoots56();
  }

  ghost predicate IsSquareRootOf(i: nat, p: nat, q: nat) {
    i < |INITIAL| && SquareRoot(p, q, INITIAL[i] as nat)
  }

  lemma BySquareRoot(i: nat, p: nat, q: nat, k: word, n: nat)
    requires i < |INITIAL| && INITIAL[i] == k && k as nat == n && SquareRoot(p, q, n)
    ensures IsSquareRootOf(i, p, q)
  {
    hide SquareRoot;
  }

  /** The initial state is made of the square roots of the first eight primes in the same way. */
  lemma InitialIsSquareRoots()
    ensures IsSquareRootOf(0, 2, 1) && IsSquareRootOf(1, 3, 1) && IsSquareRootOf(2, 5, 2) && IsSquareRootOf(3, 7, 2)
    ensures IsSquareRootOf(4, 11, 3) && IsSquareRootOf(5, 13, 3) && IsSquareRootOf(6, 17, 4) && IsSquareRootOf(7, 19, 4)
  {
    hide IsSquareRootOf;
    BySquareRoot(0, 2, 1, 0x6a09e667, 0x6a09e667);
    BySquareRoot(1, 3, 1, 0xbb67ae85, 0xbb67ae85);
    BySquareRoot(2, 5, 2, 0x3c6ef372, 0x3c6ef372);
    BySquareRoot(3, 7, 2, 0xa54ff53a, 0xa54ff53a);
    BySquareRoot(4, 11, 3, 0x510e527f, 0x510e527f);
    BySquareRoot(5, 13, 3, 0x9b05688c, 0x9b05688c);
    BySquareRoot(6, 17, 4, 0x1f83d9ab, 0x1f83d9ab);
    BySquareRoot(7, 19, 4, 0x5be0cd19, 0x5be0cd19);
  }

  // ---- the digest of "abc" -----------------------------------------

  const ABC: Data := [0x61, 0x62, 0x63]
  const BLOCK: Block := ABC + [0x80] + Zeros(59) + [0x18]

  lemma AbcIsPadded()
    ensures Padded(ABC) == BLOCK
  {
    assert BigEndian(24, 8) == Zeros(7) + [0x18] by {
      assert BigEndian(0, 7) == Zeros(7) by { ZeroBytes(7); }
    }
    assert Zeros(52) + (Zeros(7) + [0x18]) == Zeros(59) + [0x18];
  }

  lemma {:induction false} ZeroBytes(k: nat)
    ensures BigEndian(0, k) == Zeros(k)
  {
    if k > 0 { ZeroBytes(k - 1); }
  }

  /** Word `t` of the schedule. */
  predicate Word(t: nat, w: word) { Schedule(BLOCK, t) == w }

  lemma NextWord(t: nat, a: word, b: word, c: word, d: word, w: word)
    requires t >= 16 && Word(t - 2, a) && Word(t - 7, b) && Word(t - 15, c) && Word(t - 16, d)
    requires Sum(SmallSigma1(a), b, SmallSigma0(c), d) == w
    ensures Word(t, w)
  {
    hide SmallSigma0, SmallSigma1, Sum;
    ScheduleStep(BLOCK, t);
  }

  lemma FirstWord(t: nat, a: byte, b: byte, c: byte, d: byte, n: nat, w: word)
    requires t < 16 && BLOCK[4 * t..4 * t + 4] == [a, b, c, d]
    requires n == a as int * 0x100_0000 + b as int * 0x1_0000 + c as int * 0x100 + d
    requires w as nat == n
    ensures Word(t, w)
  {
    hide Schedule, FromBe32;
    FromBe32Is(a, b, c, d);
    WordOf(n, w);
    ScheduleStart(BLOCK, t);
  }

  lemma WordOf(n: nat, w: word)
    requires w as nat == n && n < TWO_TO_THE_32
    ensures n as word == w
  {
  }

  lemma ZeroWord(t: nat)
    requires 1 <= t < 15
    ensures Word(t, 0)
  {
    hide Word;
    assert BLOCK[4 * t..4 * t + 4] == [0, 0, 0, 0];
    FirstWord(t, 0, 0, 0, 0, 0, 0);
  }

  lemma FirstWords()
    ensures Word(0, 0x61626380) && Word(15, 0x18) && forall t :: 1 <= t < 15 ==> Word(t, 0)
  {
    hide Word;
    assert BLOCK[0..4] == [0x61, 0x62, 0x63, 0x80] && BLOCK[60..64] == [0, 0, 0, 0x18];
    FirstWord(0, 0x61, 0x62, 0x63, 0x80, 0x61626380, 0x61626380);
    FirstWord(15, 0, 0, 0, 0x18, 0x18, 0x18);
    forall t | 1 <= t < 15 ensures Word(t, 0) { ZeroWord(t); }
  }

  lemma Words16()
    ensures Word(16, 0x61626380) && Word(17, 0x000f0000) && Word(18, 0x7da86405) && Word(19, 0x600003c6)
    ensures Word(20, 0x3e9d7b78) && Word(21, 0x0183fc00) && Word(22, 0x12dcbfdb) && Word(23, 0xe2e2c38e)
  {
    hide Word;
    FirstWords(); 
    NextWord(16, 0x00000000, 0x00000000, 0x00000000, 0x61626380, 0x61626380);
    NextWord(17, 0x00000018, 0x00000000, 0x00000000, 0x00000000, 0x000f0000);
    NextWord(18, 0x61626380, 0x00000000, 0x00000000, 0x00000000, 0x7da86405);
    NextWord(19, 0x000f0000, 0x00000000, 0x00000000, 0x00000000, 0x600003c6);
    NextWord(20, 0x7da86405, 0x00000000, 0x00000000, 0x00000000, 0x3e9d7b78);
    NextWord(21, 0x600003c6, 0x00000000, 0x00000000, 0x00000000, 0x0183fc00);
    NextWord(22, 0x3e9d7b78, 0x00000018, 0x00000000, 0x00000000, 0x12dcbfdb);
    NextWord(23, 0x0183fc00, 0x61626380, 0x00000000, 0x00000000, 0xe2e2c38e);
  }

  lemma Words24()
    ensures Word(24, 0xc8215c1a) && Word(25, 0xb73679a2) && Word(26, 0xe5bc3909) && Word(27, 0x32663c5b)
    ensures Word(28, 0x9d209d67) && Word(29, 0xec8726cb) && Word(30, 0x702138a4) && Word(31, 0xd3b7973b)
  {
    hide Word;
    FirstWords(); Words16();
    NextWord(24, 0x12dcbfdb, 0x000f0000, 0x00000000, 0x00000000, 0xc8215c1a);
    NextWord(25, 0xe2e2c38e, 0x7da86405, 0x00000000, 0x00000000, 0xb73679a2);
    NextWord(26, 0xc8215c1a, 0x600003c6, 0x00000000, 0x00000000, 0xe5bc3909);
    NextWord(27, 0xb73679a2, 0x3e9d7b78, 0x00000000, 0x00000000, 0x32663c5b);
    NextWord(28, 0xe5bc3909, 0x0183fc00, 0x00000000, 0x00000000, 0x9d209d67);
    NextWord(29, 0x32663c5b, 0x12dcbfdb, 0x00000000, 0x00000000, 0xec8726cb);
    NextWord(30, 0x9d209d67, 0xe2e2c38e, 0x00000018, 0x00000000, 0x702138a4);
    NextWord(31, 0xec8726cb, 0xc8215c1a, 0x61626380, 0x00000018, 0xd3b7973b);
  }

  lemma Words32()
    ensures Word(32, 0x93f5997f) && Word(33, 0x3b68ba73) && Word(34, 0xaff4ffc1) && Word(35, 0xf10a5c62)
    ensures Word(36, 0x0a8b3996) && Word(37, 0x72af830a) && Word(38, 0x9409e33e) && Word(39, 0x24641522)
  {
    hide Word;
Words16(); Words24();
    NextWord(32, 0x702138a4, 0xb73679a2, 0x000f0000, 0x61626380, 0x93f5997f);
    NextWord(33, 0xd3b7973b, 0xe5bc3909, 0x7da86405, 0x000f0000, 0x3b68ba73);
    NextWord(34, 0x93f5997f, 0x32663c5b, 0x600003c6, 0x7da86405, 0xaff4ffc1);
    NextWord(35, 0x3b68ba73, 0x9d209d67, 0x3e9d7b78, 0x600003c6, 0xf10a5c62);
    NextWord(36, 0xaff4ffc1, 0xec8726cb, 0x0183fc00, 0x3e9d7b78, 0x0a8b3996);
    NextWord(37, 0xf10a5c62, 0x702138a4, 0x12dcbfdb, 0x0183fc00, 0x72af830a);
    NextWord(38, 0x0a8b3996, 0xd3b7973b, 0xe2e2c38e, 0x12dcbfdb, 0x9409e33e);
    NextWord(39, 0x72af830a, 0x93f5997f, 0xc8215c1a, 0xe2e2c38e, 0x24641522);
  }

  lemma Words40()
    ensures Word(40, 0x9f47bf94) && Word(41, 0xf0a64f5a) && Word(42, 0x3e246a79) && Word(43, 0x27333ba3)
    ensures Word(44, 0x0c4763f2) && Word(45, 0x840abf27) && Word(46, 0x7a290d5d) && Word(47, 0x065c43da)
  {
    hide Word;
Words24(); Words32();
    NextWord(40, 0x9409e33e, 0x3b68ba73, 0xb73679a2, 0xc8215c1a, 0x9f47bf94);
    NextWord(41, 0x24641522, 0xaff4ffc1, 0xe5bc3909, 0xb73679a2, 0xf0a64f5a);
    NextWord(42, 0x9f47bf94, 0xf10a5c62, 0x32663c5b, 0xe5bc3909, 0x3e246a79);
    NextWord(43, 0xf0a64f5a, 0x0a8b3996, 0x9d209d67, 0x32663c5b, 0x27333ba3);
    NextWord(44, 0x3e246a79, 0x72af830a, 0xec8726cb, 0x9d209d67, 0x0c4763f2);
    NextWord(45, 0x27333ba3, 0x9409e33e, 0x702138a4, 0xec8726cb, 0x840abf27);
    NextWord(46, 0x0c4763f2, 0x24641522, 0xd3b7973b, 0x702138a4, 0x7a290d5d);
    NextWord(47, 0x840abf27, 0x9f47bf94, 0x93f5997f, 0xd3b7973b, 0x065c43da);
  }

  lemma Words48()
    ensures Word(48, 0xfb3e89cb) && Word(49, 0xcc7617db) && Word(50, 0xb9e66c34) && Word(51, 0xa9993667)
    ensures Word(52, 0x84badedd) && Word(53, 0xc21462bc) && Word(54, 0x1487472c) && Word(55, 0xb20f7a99)
  {
    hide Word;
Words32(); Words40();
    NextWord(48, 0x7a290d5d, 0xf0a64f5a, 0x3b68ba73, 0x93f5997f, 0xfb3e89cb);
    NextWord(49, 0x065c43da, 0x3e246a79, 0xaff4ffc1, 0x3b68ba73, 0xcc7617db);
    NextWord(50, 0xfb3e89cb, 0x27333ba3, 0xf10a5c62, 0xaff4ffc1, 0xb9e66c34);
    NextWord(51, 0xcc7617db, 0x0c4763f2, 0x0a8b3996, 0xf10a5c62, 0xa9993667);
    NextWord(52, 0xb9e66c34, 0x840abf27, 0x72af830a, 0x0a8b3996, 0x84badedd);
    NextWord(53, 0xa9993667, 0x7a290d5d, 0x9409e33e, 0x72af830a, 0xc21462bc);
    NextWord(54, 0x84badedd, 0x065c43da, 0x24641522, 0x9409e33e, 0x1487472c);
    NextWord(55, 0xc21462bc, 0xfb3e89cb, 0x9f47bf94, 0x24641522, 0xb20f7a99);
  }

  lemma Words56()
    ensures Word(56, 0xef57b9cd) && Word(57, 0xebe6b238) && Word(58, 0x9fe3095e) && Word(59, 0x78bc8d4b)
    ensures Word(60, 0xa43fcf15) && Word(61, 0x668b2ff8) && Word(62, 0xeeaba2cc) && Word(63, 0x12b1edeb)
  {
    hide Word;
Words40(); Words48();
    NextWord(56, 0x1487472c, 0xcc7617db, 0xf0a64f5a, 0x9f47bf94, 0xef57b9cd);
    NextWord(57, 0xb20f7a99, 0xb9e66c34, 0x3e246a79, 0xf0a64f5a, 0xebe6b238);
    NextWord(58, 0xef57b9cd, 0xa9993667, 0x27333ba3, 0x3e246a79, 0x9fe3095e);
    NextWord(59, 0xebe6b238, 0x84badedd, 0x0c4763f2, 0x27333ba3, 0x78bc8d4b);
    NextWord(60, 0x9fe3095e, 0xc21462bc, 0x840abf27, 0x0c4763f2, 0xa43fcf15);
    NextWord(61, 0x78bc8d4b, 0x1487472c, 0x7a290d5d, 0x840abf27, 0x668b2ff8);
    NextWord(62, 0xa43fcf15, 0xb20f7a99, 0x065c43da, 0x7a290d5d, 0xeeaba2cc);
    NextWord(63, 0x668b2ff8, 0xef57b9cd, 0xfb3e89cb, 0x065c43da, 0x12b1edeb);
  }

  ghost predicate After(t: nat, v: Vars) { t <= |K| && Rounds(INITIAL, BLOCK, t) == v }

  /** One round: two new words, the others move on. */
  lemma Turn(t: nat, v: Vars, k: word, w: word, a: word, e: word) returns (next: Vars)
    requires After(t, v) && t < |K| && K[t] == k && Word(t, w)
    requires Round(v, k, w) == Vars(a, v.a, v.b, v.c, e, v.e, v.f, v.g)
    ensures next == Vars(a, v.a, v.b, v.c, e, v.e, v.f, v.g) && After(t + 1, next)
  {
    hide Round, Schedule;
    next := Round(v, k, w);
  }

  lemma Rounds0(start: Vars) returns (v: Vars)
    requires After(0, start)
    requires start == Vars(0x6a09e667, 0xbb67ae85, 0x3c6ef372, 0xa54ff53a,
                           0x510e527f, 0x9b05688c, 0x1f83d9ab, 0x5be0cd19)
    ensures After(8, v)
    ensures v == Vars(0x85a07b5f, 0xe5030380, 0x2b4209f5, 0x04409a6a,
                      0x0c657a79, 0x9b27a401, 0x714260ad, 0x43ada245)
  {
    hide After, Word;
    Lengths(); K0(); FirstWords();
    v := start;
    v := Turn(0, v, 0x428a2f98, 0x61626380, 0x5d6aebcd, 0xfa2a4622);
    v := Turn(1, v, 0x71374491, 0x00000000, 0x5a6ad9ad, 0x78ce7989);
    v := Turn(2, v, 0xb5c0fbcf, 0x00000000, 0xc8c347a7, 0xf92939eb);
    v := Turn(3, v, 0xe9b5dba5, 0x00000000, 0xd550f666, 0x24e00850);
    v := Turn(4, v, 0x3956c25b, 0x00000000, 0x04409a6a, 0x43ada245);
    v := Turn(5, v, 0x59f111f1, 0x00000000, 0x2b4209f5, 0x714260ad);
    v := Turn(6, v, 0x923f82a4, 0x00000000, 0xe5030380, 0x9b27a401);
    v := Turn(7, v, 0xab1c5ed5, 0x00000000, 0x85a07b5f, 0x0c657a79);
  }

  lemma Rounds8(start: Vars) returns (v: Vars)
    requires After(8, start)
    requires start == Vars(0x85a07b5f, 0xe5030380, 0x2b4209f5, 0x04409a6a,
                           0x0c657a79, 0x9b27a401, 0x714260ad, 0x43ada245)
    ensures After(16, v)
    ensures v == Vars(0xb0fa238e, 0xc0645fde, 0xd932eb16, 0x87912990,
                      0x07590dcd, 0x0b92f20c, 0x745a48de, 0x1e578218)
  {
    hide After, Word;
    Lengths(); K8(); FirstWords();
    v := start;
    v := Turn(8, v, 0xd807aa98, 0x00000000, 0x8e04ecb9, 0x32ca2d8c);
    v := Turn(9, v, 0x12835b01, 0x00000000, 0x8c87346b, 0x1cc92596);
    v := Turn(10, v, 0x243185be, 0x00000000, 0x4798a3f4, 0x436b23e8);
    v := Turn(11, v, 0x550c7dc3, 0x00000000, 0xf71fc5a9, 0x816fd6e9);
    v := Turn(12, v, 0x72be5d74, 0x00000000, 0x87912990, 0x1e578218);
    v := Turn(13, v, 0x80deb1fe, 0x00000000, 0xd932eb16, 0x745a48de);
    v := Turn(14, v, 0x9bdc06a7, 0x00000000, 0xc0645fde, 0x0b92f20c);
    v := Turn(15, v, 0xc19bf174, 0x00000018, 0xb0fa238e, 0x07590dcd);
  }

  lemma Rounds16(start: Vars) returns (v: Vars)
    requires After(16, start)
    requires start == Vars(0xb0fa238e, 0xc0645fde, 0xd932eb16, 0x87912990,
                           0x07590dcd, 0x0b92f20c, 0x745a48de, 0x1e578218)
    ensures After(24, v)
    ensures v == Vars(0xc5d53d8d, 0xa7a3623f, 0xc2606d6d, 0x9dc68b63,
                      0xaa47c347, 0x49f5114a, 0xe1257970, 0x8ada8930)
  {
    hide After, Word;
    Lengths(); K16(); Words16();
    v := start;
    v := Turn(16, v, 0xe49b69c1, 0x61626380, 0x21da9a9b, 0x8034229c);
    v := Turn(17, v, 0xefbe4786, 0x000f0000, 0xc2fbd9d1, 0x846ee454);
    v := Turn(18, v, 0x0fc19dc6, 0x7da86405, 0xfe777bbf, 0xcc899961);
    v := Turn(19, v, 0x240ca1cc, 0x600003c6, 0xe1f20c33, 0xb0638179);
    v := Turn(20, v, 0x2de92c6f, 0x3e9d7b78, 0x9dc68b63, 0x8ada8930);
    v := Turn(21, v, 0x4a7484aa, 0x0183fc00, 0xc2606d6d, 0xe1257970);
    v := Turn(22, v, 0x5cb0a9dc, 0x12dcbfdb, 0xa7a3623f, 0x49f5114a);
    v := Turn(23, v, 0x76f988da, 0xe2e2c38e, 0xc5d53d8d, 0xaa47c347);
  }

  lemma Rounds24(start: Vars) returns (v: Vars)
    requires After(24, start)
    requires start == Vars(0xc5d53d8d, 0xa7a3623f, 0xc2606d6d, 0x9dc68b63,
                           0xaa47c347, 0x49f5114a, 0xe1257970, 0x8ada8930)
    ensures After(32, v)
    ensures v == Vars(0x73b33bf5, 0xea992a22, 0xa0060b30, 0x363482c9,
                      0xba591112, 0x0109ab3a, 0xade79437, 0x6112a3b7)
  {
    hide After, Word;
    Lengths(); K24(); Words24();
    v := start;
    v := Turn(24, v, 0x983e5152, 0xc8215c1a, 0x1c2c2838, 0x2823ef91);
    v := Turn(25, v, 0xa831c66d, 0xb73679a2, 0xcde8037d, 0x14383d8e);
    v := Turn(26, v, 0xb00327c8, 0xe5bc3909, 0xb62ec4bc, 0xc74c6516);
    v := Turn(27, v, 0xbf597fc7, 0x32663c5b, 0x77d37528, 0xedffbff8);
    v := Turn(28, v, 0xc6e00bf3, 0x9d209d67, 0x363482c9, 0x6112a3b7);
    v := Turn(29, v, 0xd5a79147, 0xec8726cb, 0xa0060b30, 0xade79437);
    v := Turn(30, v, 0x06ca6351, 0x702138a4, 0xea992a22, 0x0109ab3a);
    v := Turn(31, v, 0x14292967, 0xd3b7973b, 0x73b33bf5, 0xba591112);
  }

  lemma Rounds32(start: Vars) returns (v: Vars)
    requires After(32, start)
    requires start == Vars(0x73b33bf5, 0xea992a22, 0xa0060b30, 0x363482c9,
                           0xba591112, 0x0109ab3a, 0xade79437, 0x6112a3b7)
    ensures After(40, v)
    ensures v == Vars(0x79ea687a, 0x6dc57a8a, 0x34df1604, 0x41a65cb1,
                      0x1efbc0a0, 0xf0781bc8, 0xa507a53d, 0x0772a26b)
  {
    hide After, Word;
    Lengths(); K32(); Words32();
    v := start;
    v := Turn(32, v, 0x27b70a85, 0x93f5997f, 0x98e12507, 0x9cd9f5f6);
    v := Turn(33, v, 0x2e1b2138, 0x3b68ba73, 0xfe604df5, 0x59249dd3);
    v := Turn(34, v, 0x4d2c6dfc, 0xaff4ffc1, 0xa9a7738c, 0x085f3833);
    v := Turn(35, v, 0x53380d13, 0xf10a5c62, 0x65a0cfe4, 0xf4b002d6);
    v := Turn(36, v, 0x650a7354, 0x0a8b3996, 0x41a65cb1, 0x0772a26b);
    v := Turn(37, v, 0x766a0abb, 0x72af830a, 0x34df1604, 0xa507a53d);
    v := Turn(38, v, 0x81c2c92e, 0x9409e33e, 0x6dc57a8a, 0xf0781bc8);
    v := Turn(39, v, 0x92722c85, 0x24641522, 0x79ea687a, 0x1efbc0a0);
  }

  lemma Rounds40(start: Vars) returns (v: Vars)
    requires After(40, start)
    requires start == Vars(0x79ea687a, 0x6dc57a8a, 0x34df1604, 0x41a65cb1,
                           0x1efbc0a0, 0xf0781bc8, 0xa507a53d, 0x0772a26b)
    ensures After(48, v)
    ensures v == Vars(0x4172328d, 0xa14c14b0, 0x72ab4b91, 0x26628815,
                      0xfecf0bc6, 0xd57b94a9, 0xb7755da1, 0xa80f11f0)
  {
    hide After, Word;
    Lengths(); K40(); Words40();
    v := start;
    v := Turn(40, v, 0xa2bfe8a1, 0x9f47bf94, 0xd6670766, 0x26352d63);
    v := Turn(41, v, 0xa81a664b, 0xf0a64f5a, 0xdf46652f, 0x838b2711);
    v := Turn(42, v, 0xc24b8b70, 0x3e246a79, 0x17aa0dfe, 0xdecd4715);
    v := Turn(43, v, 0xc76c51a3, 0x27333ba3, 0x9d4baf93, 0xfda24c2e);
    v := Turn(44, v, 0xd192e819, 0x0c4763f2, 0x26628815, 0xa80f11f0);
    v := Turn(45, v, 0xd6990624, 0x840abf27, 0x72ab4b91, 0xb7755da1);
    v := Turn(46, v, 0xf40e3585, 0x7a290d5d, 0xa14c14b0, 0xd57b94a9);
    v := Turn(47, v, 0x106aa070, 0x065c43da, 0x4172328d, 0xfecf0bc6);
  }

  lemma Rounds48(start: Vars) returns (v: Vars)
    requires After(48, start)
    requires start == Vars(0x4172328d, 0xa14c14b0, 0x72ab4b91, 0x26628815,
                           0xfecf0bc6, 0xd57b94a9, 0xb7755da1, 0xa80f11f0)
    ensures After(56, v)
    ensures v == Vars(0x38cc9913, 0x3ec45cdb, 0xf5702fdb, 0x101fd28f,
                      0x54cb266b, 0xe50e1b4f, 0x9f4787c3, 0x529e7d00)
  {
    hide After, Word;
    Lengths(); K48(); Words48();
    v := start;
    v := Turn(48, v, 0x19a4c116, 0xfb3e89cb, 0x05757ceb, 0xbd714038);
    v := Turn(49, v, 0x1e376c08, 0xcc7617db, 0xf11bfaa8, 0x6e5c390c);
    v := Turn(50, v, 0x2748774c, 0xb9e66c34, 0x7a0508a1, 0x52f1ccf7);
    v := Turn(51, v, 0x34b0bcb5, 0xa9993667, 0x886e7a22, 0x49231c1e);
    v := Turn(52, v, 0x391c0cb3, 0x84badedd, 0x101fd28f, 0x529e7d00);
    v := Turn(53, v, 0x4ed8aa4a, 0xc21462bc, 0xf5702fdb, 0x9f4787c3);
    v := Turn(54, v, 0x5b9cca4f, 0x1487472c, 0x3ec45cdb, 0xe50e1b4f);
    v := Turn(55, v, 0x682e6ff3, 0xb20f7a99, 0x38cc9913, 0x54cb266b);
  }

  lemma Rounds56(start: Vars) returns (v: Vars)
    requires After(56, start)
    requires start == Vars(0x38cc9913, 0x3ec45cdb, 0xf5702fdb, 0x101fd28f,
                           0x54cb266b, 0xe50e1b4f, 0x9f4787c3, 0x529e7d00)
    ensures After(64, v)
    ensures v == Vars(0x506e3058, 0xd39a2165, 0x04d24d6c, 0xb85e2ce9,
                      0x5ef50f24, 0xfb121210, 0x948d25b6, 0x961f4894)
  {
    hide After, Word;
    Lengths(); K56(); Words56();
    v := start;
    v := Turn(56, v, 0x748f82ee, 0xef57b9cd, 0xfcd1887b, 0x9b5e906c);
    v := Turn(57, v, 0x78a5636f, 0xebe6b238, 0xc062d46f, 0x7e44008e);
    v := Turn(58, v, 0x84c87814, 0x9fe3095e, 0xffb70472, 0x6d83bfc6);
    v := Turn(59, v, 0x8cc70208, 0x78bc8d4b, 0xb6ae8fff, 0xb21bad3d);
    v := Turn(60, v, 0x90befffa, 0xa43fcf15, 0xb85e2ce9, 0x961f4894);
    v := Turn(61, v, 0xa4506ceb, 0x668b2ff8, 0x04d24d6c, 0x948d25b6);
    v := Turn(62, v, 0xbef9a3f7, 0xeeaba2cc, 0xd39a2165, 0xfb121210);
    v := Turn(63, v, 0xc67178f2, 0x12b1edeb, 0x506e3058, 0x5ef50f24);
  }

  lemma BlockIsCompressed()
    ensures Compressed(INITIAL, BLOCK) ==
            [0xba7816bf, 0x8f01cfea, 0x414140de, 0x5dae2223,
             0xb00361a3, 0x96177a9c, 0xb410ff61, 0xf20015ad]
  {
    hide After;
    Lengths();
    var v := Vars(0x6a09e667, 0xbb67ae85, 0x3c6ef372, 0xa54ff53a, 0x510e527f, 0x9b05688c, 0x1f83d9ab, 0x5be0cd19);
    assert After(0, v) by { InitialVars(v); }
    v := Rounds0(v);
    v := Rounds8(v);
    v := Rounds16(v);
    v := Rounds24(v);
    v := Rounds32(v);
    v := Rounds40(v);
    v := Rounds48(v);
    v := Rounds56(v);
    FinalSum(v);
  }

  lemma InitialVars(v: Vars)
    requires v == Vars(0x6a09e667, 0xbb67ae85, 0x3c6ef372, 0xa54ff53a, 0x510e527f, 0x9b05688c, 0x1f83d9ab, 0x5be0cd19)
    ensures After(0, v)
  {
  }

  lemma FinalSum(v: Vars)
    requires After(64, v)
    requires v == Vars(0x506e3058, 0xd39a2165, 0x04d24d6c, 0xb85e2ce9, 0x5ef50f24, 0xfb121210, 0x948d25b6, 0x961f4894)
    ensures Compressed(INITIAL, BLOCK) ==
            [0xba7816bf, 0x8f01cfea, 0x414140de, 0x5dae2223,
             0xb00361a3, 0x96177a9c, 0xb410ff61, 0xf20015ad]
  {
    hide Rounds, Schedule;
    Lengths();
  }

  /** The first test of section 8.5: the digest of "abc". */
  lemma DigestOfAbc()
    ensures Hash(ABC) ==
            [0xba, 0x78, 0x16, 0xbf] + [0x8f, 0x01, 0xcf, 0xea] + [0x41, 0x41, 0x40, 0xde] + [0x5d, 0xae, 0x22, 0x23]
            + [0xb0, 0x03, 0x61, 0xa3] + [0x96, 0x17, 0x7a, 0x9c] + [0xb4, 0x10, 0xff, 0x61] + [0xf2, 0x00, 0x15, 0xad]
  {
    hide Compressed, Padded, Be32, StateBytes;
    AbcIsPadded();
    BlockIsCompressed();
    assert [] + BLOCK == BLOCK;
    AbsorbSnoc(INITIAL, [], BLOCK);
    Joined(Compressed(INITIAL, BLOCK));
    WordBytes(0xba7816bf, 0xba7816bf, 0xba, 0x78, 0x16, 0xbf);
    WordBytes(0x8f01cfea, 0x8f01cfea, 0x8f, 0x01, 0xcf, 0xea);
    WordBytes(0x414140de, 0x414140de, 0x41, 0x41, 0x40, 0xde);
    WordBytes(0x5dae2223, 0x5dae2223, 0x5d, 0xae, 0x22, 0x23);
    WordBytes(0xb00361a3, 0xb00361a3, 0xb0, 0x03, 0x61, 0xa3);
    WordBytes(0x96177a9c, 0x96177a9c, 0x96, 0x17, 0x7a, 0x9c);
    WordBytes(0xb410ff61, 0xb410ff61, 0xb4, 0x10, 0xff, 0x61);
    WordBytes(0xf20015ad, 0xf20015ad, 0xf2, 0x00, 0x15, 0xad);
  }

  lemma WordBytes(w: word, n: nat, a: byte, b: byte, c: byte, d: byte)
    requires w as nat == n == a as int * 0x100_0000 + b as int * 0x1_0000 + c as int * 0x100 + d
    ensures Be32(w as nat) == [a, b, c, d]
  {
    FromBe32Is(a, b, c, d);
    FromBe32RoundTrip([a, b, c, d]);
  }

  lemma Joined(st: State)
    ensures StateBytes(st, 8) ==
            Be32(st[0] as nat) + Be32(st[1] as nat) + Be32(st[2] as nat) + Be32(st[3] as nat)
            + Be32(st[4] as nat) + Be32(st[5] as nat) + Be32(st[6] as nat) + Be32(st[7] as nat)
  {
    hide Be32;
    assert StateBytes(st, 2) == Be32(st[0] as nat) + Be32(st[1] as nat);
    assert StateBytes(st, 4) == StateBytes(st, 2) + Be32(st[2] as nat) + Be32(st[3] as nat);
    assert StateBytes(st, 6) == StateBytes(st, 4) + Be32(st[4] as nat) + Be32(st[5] as nat);
  }
}
