/** Stored passwords, "iterations$salt$key" with Base64 parts (`make_password_hash` and `verify_password_hash`). */
module Password {
  import opened Bytes
  import opened Options
  import B = Base64
  import P = Pbkdf2

  // ---- numbers in text ---------------------------------------------

  predicate IsDigit(c: char) { '0' <= c <= '9' }

  function Digit(d: nat): (c: char)
    requires d < 10
    ensures IsDigit(c) && c as int - '0' as int == d
  {
    ('0' as int + d) as char
  }

  /** `std::to_string`. */
  function Decimal(n: nat): (s: string)
    ensures s != "" && forall i :: 0 <= i < |s| ==> IsDigit(s[i])
  {
    if n < 10 then [Digit(n)] else Decimal(n / 10) + [Digit(n % 10)]
  }

  function NumberOf(digits: string): nat
    requires forall i :: 0 <= i < |digits| ==> IsDigit(digits[i])
  {
    if digits == "" then 0
    else
      assert IsDigit(digits[|digits| - 1]);
      NumberOf(digits[..|digits| - 1]) * 10 + (digits[|digits| - 1] as int - '0' as int)
  }

  lemma {:induction false} NumberOfDecimal(n: nat)
    ensures NumberOf(Decimal(n)) == n
  {
    if n >= 10 {
      NumberOfDecimal(n / 10);
      assert Decimal(n)[..|Decimal(n)| - 1] == Decimal(n / 10);
    }
  }

  predicate IsSpace(c: char) { c == ' ' || 9 <= c as int <= 13 }

  function SkipSpaces(s: string): string {
    if s != "" && IsSpace(s[0]) then SkipSpaces(s[1..]) else s
  }

  function LeadingDigits(s: string): (d: string)
    ensures d <= s && forall i :: 0 <= i < |d| ==> IsDigit(d[i])
  {
    if s != "" && IsDigit(s[0]) then [s[0]] + LeadingDigits(s[1..]) else ""
  }

  lemma {:induction false} AllDigits(s: string)
    requires forall i :: 0 <= i < |s| ==> IsDigit(s[i])
    ensures LeadingDigits(s) == s
  {
    if s != "" { AllDigits(s[1..]); }
  }


  /**
   * `std::stoul` with a 64-bit result: leading white space and one sign are skipped, trailing text is ignored,
   * and no digits or too large a number throws.
   */
  function ParseUnsigned(s: string): (n: Option<nat>) {
    var t := SkipSpaces(s);
    var negative := t != "" && t[0] == '-';
    var signed := negative || (t != "" && t[0] == '+');
    var digits := LeadingDigits(if signed then t[1..] else t);
    if digits == "" || NumberOf(digits) >= TWO_TO_THE_64 then None
    else if negative then Some((TWO_TO_THE_64 - NumberOf(digits)) % TWO_TO_THE_64)
    else Some(NumberOf(digits))
  }

  lemma ParseDecimal(n: nat)
    requires n < TWO_TO_THE_64
    ensures ParseUnsigned(Decimal(n)) == Some(n)
  {
    assert IsDigit(Decimal(n)[0]);
    AllDigits(Decimal(n));
    NumberOfDecimal(n);
  }

  // ---- the stored form ---------------------------------------------

  /** The position of the first `$` at or after `from`, or the length. */
  function Find(s: string, from: nat): (p: nat)
    requires from <= |s|
    ensures from <= p <= |s|
    ensures p < |s| ==> s[p] == '$'
    ensures forall i :: from <= i < p ==> s[i] != '$'
    decreases |s| - from
  {
    if from == |s| || s[from] == '$' then from else Find(s, from + 1)
  }

  datatype Stored = Stored(iterations: nat, salt: Data, key: Data)

  /** The three fields, if the text has them and the first is a number; undecodable Base64 gives no bytes. */
  function Parse(s: string): Option<Stored> {
    var p1 := Find(s, 0);
    if p1 == |s| then None
    else
      var p2 := Find(s, p1 + 1);
      if p2 == |s| then None
      else
        match ParseUnsigned(s[..p1])
        case None => None
        case Some(n) => Some(Stored(n % TWO_TO_THE_32, B.Decode(s[p1 + 1..p2]), B.Decode(s[p2 + 1..])))
  }

  predicate Verifies(password: Data, stored: string) {
    match Parse(stored)
    case None => false
    case Some(f) =>
      // zero iterations derive like one
      var c := if f.iterations == 0 then 1 else f.iterations;
      f.salt != [] && f.key != [] && P.Derived(password, f.salt, c, |f.key|) == f.key
  }

  const KEY_LENGTH: nat := 32

  function Made(password: Data, salt: Data, iterations: nat): string {
    Decimal(iterations) + "$" + B.Encode(salt) + "$" +
    B.Encode(P.Derived(password, salt, if iterations == 0 then 1 else iterations, KEY_LENGTH))
  }

  lemma FindIs(s: string, from: nat, p: nat)
    requires from <= p < |s| && s[p] == '$'
    requires forall i :: from <= i < p ==> s[i] != '$'
    ensures Find(s, from) == p
  {
  }

  /** No field of a made text holds a `$`, so it comes apart as it was put together. */
  lemma ParseMade(n: string, a: Data, b: Data)
    requires forall i :: 0 <= i < |n| ==> IsDigit(n[i])
    ensures var s := n + "$" + B.Encode(a) + "$" + B.Encode(b);
            var p1, p2 := |n|, |n| + 1 + |B.Encode(a)|;
            && Find(s, 0) == p1 && p1 + 1 <= |s| && Find(s, p1 + 1) == p2 && p2 + 1 <= |s|
            && s[..p1] == n && s[p1 + 1..p2] == B.Encode(a) && s[p2 + 1..] == B.Encode(b)
  {
    hide B.Encode;
    B.NoDollar(a);
    var s := n + "$" + B.Encode(a) + "$" + B.Encode(b);
    FindIs(s, 0, |n|);
    FindIs(s, |n| + 1, |n| + 1 + |B.Encode(a)|);
  }

  /**
   * A stored password verifies exactly the passwords that derive the same key with the same salt and count: the one
   * it was made from for every salt but the empty one and every 32-bit iteration count, and any other one only if
   * the keys collide.
   */
  lemma VerifiesMade(password: Data, attempt: Data, salt: Data, iterations: nat)
    requires iterations < TWO_TO_THE_32
    ensures iterations >= 1 ==>
              (Verifies(attempt, Made(password, salt, iterations))
               <==> salt != [] && P.Derived(attempt, salt, iterations, 32) == P.Derived(password, salt, iterations, 32))
    ensures iterations == 0 ==>
              (Verifies(attempt, Made(password, salt, 0))
               <==> salt != [] && P.Derived(attempt, salt, 1, 32) == P.Derived(password, salt, 1, 32))
    ensures Verifies(password, Made(password, salt, iterations)) <==> salt != []
  {
    hide P.Derived, B.Decode, B.Encode, ParseUnsigned, Decimal;
    var key := P.Derived(password, salt, if iterations == 0 then 1 else iterations, KEY_LENGTH);
    ParseMade(Decimal(iterations), salt, key);
    ParseDecimal(iterations);
    B.RoundTrip(salt);
    B.RoundTrip(key);
  }

  /** What a stored text with two dollar signs must be to verify a password. */
  lemma VerifiesParts(password: Data, n: string, a: string, b: string)
    requires (forall i :: 0 <= i < |n| ==> n[i] != '$') && (forall i :: 0 <= i < |a| ==> a[i] != '$')
    ensures var count, salt, key := ParseUnsigned(n), B.Decode(a), B.Decode(b);
            Verifies(password, n + "$" + a + "$" + b) <==>
            && count.Some? && salt != [] && key != []
            && var c := count.value % TWO_TO_THE_32; P.Derived(password, salt, if c == 0 then 1 else c, |key|) == key
  {
    hide P.Derived, B.Decode, ParseUnsigned;
    var s := n + "$" + a + "$" + b;
    FindIs(s, 0, |n|);
    FindIs(s, |n| + 1, |n| + 1 + |a|);
    assert s[..|n|] == n && s[|n| + 1..|n| + 1 + |a|] == a && s[|n| + 1 + |a| + 1..] == b;
  }

  /** Without two dollar signs nothing verifies. */
  lemma VerifiesNothing(password: Data, n: string, rest: string)
    requires (forall i :: 0 <= i < |n| ==> n[i] != '$') && (forall i :: 0 <= i < |rest| ==> rest[i] != '$')
    ensures !Verifies(password, n) && !Verifies(password, n + "$" + rest)
  {
    hide P.Derived, B.Decode, ParseUnsigned;
    assert Find(n, 0) == |n|;
    var s := n + "$" + rest;
    FindIs(s, 0, |n|);
    assert forall i :: |n| < i < |s| ==> s[i] == rest[i - |n| - 1];
    assert Find(s, |n| + 1) == |s|;
  }

  // ---- the methods -------------------------------------------------

  method MakePasswordHash(password: Data, iterations: nat, salt: Data) returns (out: string)
    ensures out == Made(password, salt, iterations)
    ensures iterations >= 1 ==>
              out == Decimal(iterations) + "$" + B.Encode(salt) + "$" + B.Encode(P.Derived(password, salt, iterations, 32))
  {
    hide B.Encode, P.Derived;
    var dk := P.DeriveKey(password, salt, iterations, KEY_LENGTH);
    var a := B.EncodeBytes(salt);
    var b := B.EncodeBytes(dk);
    out := Decimal(iterations);
    out := out + "$";
    out := out + a;
    out := out + "$";
    out := out + b;
  }

  lemma OrIsZero(a: byte, b: byte)
    ensures Or(a, b) == 0 <==> a == 0 && b == 0
  {
    Pow2Of8();
    OrBitsIsZero(a, b, 8);
  }

  lemma XorIsZero(a: byte, b: byte)
    ensures Xor(a, b) == 0 <==> a == b
  {
    Pow2Of8();
    XorBitsIsZero(a, b, 8);
  }

  /** The comparison that looks at every byte whatever it finds. */
  method SameBytes(got: Data, want: Data) returns (same: bool)
    requires |got| == |want|
    ensures same <==> got == want
  {
    hide Or, Xor;
    var diff: byte := 0;
    for i := 0 to |got|
      invariant diff == 0 <==> got[..i] == want[..i]
    {
      XorIsZero(got[i], want[i]);
      OrIsZero(diff, Xor(got[i], want[i]));
      assert got[..i + 1] == got[..i] + [got[i]] && want[..i + 1] == want[..i] + [want[i]];
      diff := Or(diff, Xor(got[i], want[i]));
    }
    assert got[..|got|] == got && want[..|want|] == want;
    return diff == 0;
  }

  method VerifyPasswordHash(password: Data, stored: string) returns (ok: bool)
    ensures ok <==> Verifies(password, stored)
  {
    hide B.Decode, P.Derived, ParseUnsigned;
    var p1 := Find(stored, 0);
    if p1 == |stored| { return false; }
    var p2 := Find(stored, p1 + 1);
    if p2 == |stored| { return false; }
    var n := ParseUnsigned(stored[..p1]);
    if n.None? { return false; }
    var iterations := n.value % TWO_TO_THE_32;
    var salt := B.DecodeText(stored[p1 + 1..p2]);
    var want := B.DecodeText(stored[p2 + 1..]);
    if salt == [] || want == [] { return false; }
    var got := P.DeriveKey(password, salt, iterations, |want|);
    if |got| != |want| { return false; }
    ok := SameBytes(got, want);
  }
}
