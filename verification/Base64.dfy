/** Base64 as in section 4 of RFC 4648 (`base64_encode` and `base64_decode` in common/util). */
module Base64 {
  import opened Bytes
  import opened Options

  type sextet = x: int | 0 <= x < 64

  /** The alphabet: A-Z, a-z, 0-9, `+` and `/`. */
  function Symbol(x: sextet): (c: char)
    ensures c != '=' && c != '$' && !Skipped(c)
  {
    if x < 26 then (65 + x) as char
    else if x < 52 then (71 + x) as char
    else if x < 62 then (x - 4) as char
    else if x == 62 then '+' else '/'
  }

  /** The inverse table, -1 outside the alphabet. */
  function Value(c: char): (v: int)
    ensures -1 <= v < 64
    ensures v >= 0 ==> Symbol(v) == c
  {
    var n := c as int;
    if 65 <= n < 91 then n - 65
    else if 97 <= n < 123 then n - 71
    else if 48 <= n < 58 then n + 4
    else if c == '+' then 62 else if c == '/' then 63 else -1
  }

  lemma ValueOfSymbol(x: sextet)
    ensures Value(Symbol(x)) == x
  {
  }

  /** Padding and the white space the decoder ignores. */
  predicate Skipped(c: char) { c == '=' || c == '\n' || c == '\r' || c == ' ' }

  // ---- the coding as a function ------------------------------------

  /** Three bytes are four groups of 6 bits. */
  function Split(a: byte, b: byte, c: byte): (g: seq<sextet>)
    ensures |g| == 4
  {
    [a / 4, a % 4 * 16 + b / 16, b % 16 * 4 + c / 64, c % 64]
  }

  /** Four groups of 6 bits are three bytes. */
  function Join1(w: sextet, x: sextet): byte { w as int * 4 + x / 16 }
  function Join2(x: sextet, y: sextet): byte { x as int % 16 * 16 + y / 4 }
  function Join3(y: sextet, z: sextet): byte { y as int % 4 * 64 + z }

  lemma JoinSplit(a: byte, b: byte, c: byte)
    ensures var g := Split(a, b, c); Join1(g[0], g[1]) == a && Join2(g[1], g[2]) == b && Join3(g[2], g[3]) == c
  {
  }

  /** The bits of `d` in groups of 6, the last group filled with zero bits. */
  function Groups(d: Data): (g: seq<sextet>) {
    if |d| == 0 then []
    else if |d| == 1 then Split(d[0], 0, 0)[..2]
    else if |d| == 2 then Split(d[0], d[1], 0)[..3]
    else Split(d[0], d[1], d[2]) + Groups(d[3..])
  }

  /** The whole bytes that a sequence of 6-bit groups holds. */
  function Ungroup(g: seq<sextet>): (d: Data) {
    if |g| < 2 then []
    else if |g| == 2 then [Join1(g[0], g[1])]
    else if |g| == 3 then [Join1(g[0], g[1]), Join2(g[1], g[2])]
    else [Join1(g[0], g[1]), Join2(g[1], g[2]), Join3(g[2], g[3])] + Ungroup(g[4..])
  }

  function Symbols(g: seq<sextet>): (s: string)
    ensures |s| == |g|
  {
    seq(|g|, i requires 0 <= i < |g| => Symbol(g[i]))
  }

  function Padding(n: nat): string {
    if n % 3 == 0 then "" else if n % 3 == 1 then "==" else "="
  }

  function Encode(d: Data): (s: string) {
    Symbols(Groups(d)) + Padding(|d|)
  }

  /** The 6-bit groups a text spells, or nothing if it holds a character that is neither skipped nor a symbol. */
  function Read(s: string): (g: Option<seq<sextet>>) {
    if s == "" then Some([])
    else
      var before, c := Read(s[..|s| - 1]), s[|s| - 1];
      if before.None? || Skipped(c) then before
      else if Value(c) < 0 then None
      else Some(before.value + [Value(c)])
  }

  /** An unreadable text decodes to no bytes. */
  function Decode(s: string): (d: Data) {
    match Read(s)
    case None => []
    case Some(g) => Ungroup(g)
  }

  // ---- round trip --------------------------------------------------

  lemma {:induction false} UngroupGroups(d: Data)
    ensures Ungroup(Groups(d)) == d
  {
    if |d| == 1 {
      JoinSplit(d[0], 0, 0);
    } else if |d| == 2 {
      JoinSplit(d[0], d[1], 0);
    } else if |d| >= 3 {
      UngroupGroups(d[3..]);
      JoinSplit(d[0], d[1], d[2]);
      assert Groups(d)[4..] == Groups(d[3..]);
      assert d == [d[0], d[1], d[2]] + d[3..];
    }
  }

  lemma ReadSnoc(s: string, c: char)
    ensures Read(s + [c]) ==
            if Read(s).None? || Skipped(c) then Read(s)
            else if Value(c) < 0 then None else Some(Read(s).value + [Value(c)])
  {
    assert (s + [c])[..|s|] == s;
  }

  lemma {:induction false} ReadSymbols(g: seq<sextet>)
    ensures Read(Symbols(g)) == Some(g)
  {
    if g != [] {
      var n := |g| - 1;
      ReadSymbols(g[..n]);
      ReadSnoc(Symbols(g[..n]), Symbol(g[n]));
      ValueOfSymbol(g[n]);
      assert Symbols(g) == Symbols(g[..n]) + [Symbol(g[n])];
      assert g == g[..n] + [g[n]];
    }
  }

  /** Decoding inverts encoding on every byte string. */
  lemma RoundTrip(d: Data)
    ensures Decode(Encode(d)) == d
  {
    var g := Groups(d);
    ReadSymbols(g);
    UngroupGroups(d);
    var s := Symbols(g);
    if |d| % 3 == 0 {
      assert Encode(d) == s;
    } else {
      ReadSnoc(s, '=');
      ReadSnoc(s + "=", '=');
      assert s + "==" == (s + "=") + "=";
    }
  }

  lemma NoDollar(d: Data)
    ensures forall i :: 0 <= i < |Encode(d)| ==> Encode(d)[i] != '$'
  {
  }

  // ---- the loops ---------------------------------------------------

  function Word(a: byte, b: byte, c: byte): nat { a as int * 65536 + b as int * 256 + c }

  lemma LowBits(q: int, r: sextet)
    ensures (q * 64 + r) % 64 == r
  {
  }

  lemma WordShift6(a: byte, b: byte, c: byte)
    ensures Word(a, b, c) / 64 == (a as int * 16 + b / 16) * 64 + (b % 16 * 4 + c / 64)
  {
  }

  lemma WordShift12(a: byte, b: byte, c: byte)
    ensures Word(a, b, c) / 4096 == (a / 4) as int * 64 + (a % 4 * 16 + b / 16)
  {
  }

  lemma WordEnds(a: byte, b: byte, c: byte)
    ensures Word(a, b, c) / 262144 == a / 4 && Word(a, b, c) % 64 == c % 64
  {
  }

  /** The source packs three bytes into a 24-bit word and cuts it into four groups. */
  method SplitWord(a: byte, b: byte, c: byte) returns (s: string)
    ensures s == Symbols(Split(a, b, c))
  {
    var v := Word(a, b, c);
    var w, x, y, z := v / 262144 % 64, v / 4096 % 64, v / 64 % 64, v % 64;
    assert [w, x, y, z] == Split(a, b, c) by {
      WordEnds(a, b, c);
      WordShift12(a, b, c);
      LowBits((a / 4) as int, a % 4 * 16 + b / 16);
      WordShift6(a, b, c);
      LowBits(a as int * 16 + b / 16, b % 16 * 4 + c / 64);
    }
    s := [Symbol(w), Symbol(x), Symbol(y), Symbol(z)];
  }

  lemma SymbolsAppend(g: seq<sextet>, h: seq<sextet>)
    ensures Symbols(g + h) == Symbols(g) + Symbols(h)
  {
  }

  /** The symbols from byte `i` on start with those of the next three bytes. */
  lemma SymbolsOfNext(data: Data, i: nat)
    requires i + 3 <= |data|
    ensures Symbols(Groups(data[i..])) == Symbols(Split(data[i], data[i + 1], data[i + 2])) + Symbols(Groups(data[i + 3..]))
  {
    hide Symbols, Split;
    assert data[i..][3..] == data[i + 3..];
    SymbolsAppend(Split(data[i], data[i + 1], data[i + 2]), Groups(data[i + 3..]));
  }

  lemma PaddingOfRest(n: nat, i: nat)
    requires i <= n && i % 3 == 0
    ensures Padding(n - i) == Padding(n)
  {
    assert (n - i) % 3 == n % 3;
  }

  method EncodeBytes(data: Data) returns (out: string)
    ensures out == Encode(data)
  {
    hide Symbols, Groups, Split, Padding;
    out := "";
    var i := 0;
    var n := |data|;
    assert data[0..] == data;
    while i + 3 <= n
      invariant 0 <= i <= n && i % 3 == 0
      invariant out + Symbols(Groups(data[i..])) == Symbols(Groups(data))
    {
      var s := SplitWord(data[i], data[i + 1], data[i + 2]);
      SymbolsOfNext(data, i);
      Assoc(out, s, Symbols(Groups(data[i + 3..])));
      out := out + s;
      i := i + 3;
    }
    PaddingOfRest(n, i);
    Assoc(out, Symbols(Groups(data[i..])), Padding(n));
    if i < n {
      var s := EncodeRest(data[i..]);
      out := out + s;
    } else {
      assert data[i..] == [];
      NothingToEncode();
    }
  }

  lemma NothingToEncode()
    ensures Symbols(Groups([])) == "" && Padding(0) == ""
  {
  }

  /** The last one or two bytes. */
  method EncodeRest(rest: Data) returns (s: string)
    requires 1 <= |rest| <= 2
    ensures s == Symbols(Groups(rest)) + Padding(|rest|)
  {
    var word := SplitWord(rest[0], if |rest| == 2 then rest[1] else 0, 0);
    s := if |rest| == 2 then word[..3] + "=" else word[..2] + "==";
  }

  function Last(g: seq<sextet>): sextet { if g == [] then 0 else g[|g| - 1] }

  /** The byte that the group `t` completes when `n` groups came before it, the last one `last`. */
  function Completed(n: nat, last: sextet, t: sextet): Data {
    if n % 4 == 0 then []
    else if n % 4 == 1 then [Join1(last, t)]
    else if n % 4 == 2 then [Join2(last, t)]
    else [Join3(last, t)]
  }

  lemma UngroupTwo(g: seq<sextet>)
    requires |g| == 2
    ensures Ungroup(g) == [] + [Join1(g[0], g[1])]
  {
  }

  lemma UngroupSecond(g: seq<sextet>, t: sextet)
    requires |g| == 1
    ensures Ungroup(g + [t]) == Ungroup(g) + Completed(|g|, Last(g), t)
  {
    UngroupTwo(g + [t]);
  }

  lemma UngroupThree(w: sextet, x: sextet, y: sextet)
    ensures Ungroup([w, x, y]) == [Join1(w, x)] + [Join2(x, y)]
  {
    hide Join1, Join2;
  }

  lemma UngroupThird(g: seq<sextet>, t: sextet)
    requires |g| == 2
    ensures Ungroup(g + [t]) == Ungroup(g) + Completed(|g|, Last(g), t)
  {
    hide Join1, Join2, Join3;
    assert g + [t] == [g[0], g[1], t];
    UngroupThree(g[0], g[1], t);
    UngroupTwo(g);
  }

  lemma UngroupFourth(g: seq<sextet>, t: sextet)
    requires |g| == 3
    ensures Ungroup(g + [t]) == Ungroup(g) + Completed(|g|, Last(g), t)
  {
    assert (g + [t])[..3] == g && Ungroup((g + [t])[4..]) == [];
  }

  lemma UngroupLong(g: seq<sextet>)
    requires |g| >= 4
    ensures Ungroup(g) == Ungroup(g[..4]) + Ungroup(g[4..])
  {
    assert Ungroup(g[..4][4..]) == [];
  }

  lemma CompletedTail(g: seq<sextet>, t: sextet)
    requires |g| >= 4
    ensures Completed(|g[4..]|, Last(g[4..]), t) == Completed(|g|, Last(g), t)
  {
    hide Join1, Join2, Join3;
    SameRemainder(|g|);
    assert |g| > 4 ==> Last(g[4..]) == Last(g);
  }

  lemma SameRemainder(n: nat)
    requires n >= 4
    ensures (n - 4) % 4 == n % 4 && (n % 4 != 0 ==> n > 4)
  {
  }

  lemma {:induction false} UngroupSnoc(g: seq<sextet>, t: sextet)
    ensures Ungroup(g + [t]) == Ungroup(g) + Completed(|g|, Last(g), t)
  {
    if |g| == 1 {
      UngroupSecond(g, t);
    } else if |g| == 2 {
      UngroupThird(g, t);
    } else if |g| == 3 {
      UngroupFourth(g, t);
    } else if |g| >= 4 {
      var h := g + [t];
      UngroupSnoc(g[4..], t);
      CompletedTail(g, t);
      UngroupLong(g);
      UngroupLong(h);
      assert h[..4] == g[..4] && h[4..] == g[4..] + [t];
      Assoc(Ungroup(g[..4]), Ungroup(g[4..]), Completed(|g|, Last(g), t));
    }
  }

  lemma LowByte(q: int, b: byte)
    ensures (256 * q + b) % 256 == b
  {
  }

  lemma Shifted(x: nat, t: sextet, k: nat)
    requires k == 4 || k == 16
    ensures (k * x + t) / k == x + t / k
  {
  }

  /** Reading the accumulator `4096 * m + 64 * r + t` at the three places where a byte is completed. */
  lemma ReadByte1(m: nat, r: sextet, t: sextet)
    ensures (4096 * m + 64 * (r as int) + t) / 16 % 256 == Join1(r, t)
  {
    var x := 256 * m + 4 * (r as int);
    assert 4096 * m + 64 * (r as int) + t == 16 * x + t;
    Shifted(x, t, 16);
    LowByte(m, Join1(r, t));
  }

  lemma ReadByte2(m: nat, r: sextet, t: sextet)
    ensures (4096 * m + 64 * (r as int) + t) / 4 % 256 == Join2(r, t)
  {
    var x := 1024 * m + 16 * (r as int);
    assert 4096 * m + 64 * (r as int) + t == 4 * x + t;
    Shifted(x, t, 4);
    assert x + t / 4 == 256 * (4 * m + r / 16) + Join2(r, t);
    LowByte(4 * m + r / 16, Join2(r, t));
  }

  lemma ReadByte3(m: nat, r: sextet, t: sextet)
    ensures (4096 * m + 64 * (r as int) + t) % 256 == Join3(r, t)
  {
    assert 64 * (r as int) == 256 * (r / 4) + 64 * (r % 4);
    LowByte(16 * m + r / 4, Join3(r, t));
  }

  /** The source's `v = (v << 6) | t` in 32 bits: whatever wraps away, the last two groups stay at the bottom. */
  function Accumulate(v: nat, t: sextet): (w: nat)
    requires v < TWO_TO_THE_32
    ensures w < TWO_TO_THE_32
  {
    (v * 64 + t) % TWO_TO_THE_32
  }

  lemma Accumulated(v: nat, t: sextet) returns (m: nat)
    requires v < TWO_TO_THE_32
    ensures Accumulate(v, t) == 4096 * m + 64 * (v % 64) + t
  {
    var (q, k) := (v / 64, (v * 64 + t) / TWO_TO_THE_32);
    assert v * 64 + t == 4096 * q + 64 * (v % 64) + t;
    assert Accumulate(v, t) == 4096 * (q - 0x10_0000 * k) + 64 * (v % 64) + t;
    m := q - 0x10_0000 * k;
  }

  lemma AccumulatorKeepsLast(v: nat, t: sextet)
    requires v < TWO_TO_THE_32
    ensures Accumulate(v, t) % 64 == t
  {
    var m := Accumulated(v, t);
    LowBits(64 * m + v % 64, t);
  }

  function ShiftRight(v: nat, bits: nat): nat {
    if bits == 0 then v else ShiftRight(v / 2, bits - 1)
  }

  lemma ShiftRightBy2(v: nat)
    ensures ShiftRight(v, 2) == v / 4
  {
    assert ShiftRight(v / 2, 1) == ShiftRight(v / 2 / 2, 0);
  }

  lemma ShiftRightBy4(v: nat)
    ensures ShiftRight(v, 4) == v / 16
  {
    ShiftRightBy2(v / 4);
    assert ShiftRight(v, 4) == ShiftRight(v / 2, 3) == ShiftRight(v / 2 / 2, 2);
    assert v / 2 / 2 == v / 4;
  }

  /** The bits of the last group that no byte has used yet. */
  function Unused(n: nat): nat { if n % 4 == 0 then 0 else 8 - 2 * (n % 4) }

  lemma EmittedByte(v: nat, n: nat, t: sextet)
    requires v < TWO_TO_THE_32 && n % 4 != 0
    ensures [ShiftRight(Accumulate(v, t), Unused(n) - 2) % 256] == Completed(n, v % 64, t)
  {
    var m := Accumulated(v, t);
    var w := Accumulate(v, t);
    if n % 4 == 1 {
      ShiftRightBy4(w);
      ReadByte1(m, v % 64, t);
    } else if n % 4 == 2 {
      ShiftRightBy2(w);
      ReadByte2(m, v % 64, t);
    } else {
      ReadByte3(m, v % 64, t);
    }
  }

  lemma UnusedStep(n: nat)
    ensures n % 4 == 0 ==> Unused(n) == 0 && Unused(n + 1) == 6
    ensures n % 4 != 0 ==> Unused(n) >= 2 && Unused(n + 1) == Unused(n) - 2
  {
  }

  /** One turn of the decoder's loop. */
  lemma DecodeStep(g: seq<sextet>, v: nat, t: sextet)
    requires v < TWO_TO_THE_32 && (g != [] ==> v % 64 == Last(g))
    ensures var (bits, w) := (Unused(|g|) + 6, Accumulate(v, t));
            && w % 64 == t
            && (bits < 8 ==> Unused(|g| + 1) == bits && Ungroup(g + [t]) == Ungroup(g))
            && (bits >= 8 ==> Unused(|g| + 1) == bits - 8
                              && Ungroup(g + [t]) == Ungroup(g) + [ShiftRight(w, bits - 8) % 256])
  {
    UnusedStep(|g|);
    UngroupSnoc(g, t);
    AccumulatorKeepsLast(v, t);
    if |g| % 4 == 0 {
      assert Completed(|g|, Last(g), t) == [];
    } else {
      EmittedByte(v, |g|, t);
    }
  }

  lemma {:induction false} UnreadableStays(s: string, i: nat)
    requires i <= |s| && Read(s[..i]).None?
    ensures Read(s).None?
    decreases |s| - i
  {
    if i < |s| {
      assert s[..i + 1] == s[..i] + [s[i]];
      ReadSnoc(s[..i], s[i]);
      UnreadableStays(s, i + 1);
    } else {
      assert s[..i] == s;
    }
  }

  method DecodeText(s: string) returns (out: Data)
    ensures out == Decode(s)
  {
    out := [];
    var v, bits := 0, 0;
    ghost var g: seq<sextet> := [];
    for i := 0 to |s|
      invariant Read(s[..i]) == Some(g)
      invariant out == Ungroup(g)
      invariant 0 <= v < TWO_TO_THE_32 && bits == Unused(|g|)
      invariant g != [] ==> v % 64 == Last(g)
    {
      assert s[..i + 1] == s[..i] + [s[i]];
      ReadSnoc(s[..i], s[i]);
      if Skipped(s[i]) { continue; }
      var t := Value(s[i]);
      if t < 0 {
        UnreadableStays(s, i + 1);
        return [];
      }
      DecodeStep(g, v, t);
      v := Accumulate(v, t);
      bits := bits + 6;
      if bits >= 8 {
        bits := bits - 8;
        out := out + [ShiftRight(v, bits) % 256];
      }
      g := g + [t];
    }
    assert s[..|s|] == s;
  }

  // ---- what the text looks like ------------------------------------

  const ALPHABET: string := "ABCDEFGHIJKLMNOPQRSTUVWXYZ" + "abcdefghijklmnopqrstuvwxyz" + "0123456789+/"

  lemma SymbolIs(x: sextet)
    ensures |ALPHABET| == 64 && Symbol(x) == ALPHABET[x]
  {
    hide Skipped;
    if x < 26 {
      UpperCase(x);
    } else if x < 52 {
      LowerCase(x - 26);
    } else {
      Digits(x - 52);
    }
  }

  lemma UpperCase(i: nat)
    requires i < 26
    ensures "ABCDEFGHIJKLMNOPQRSTUVWXYZ"[i] == (65 + i) as char
  {
  }

  lemma LowerCase(i: nat)
    requires i < 26
    ensures "abcdefghijklmnopqrstuvwxyz"[i] == (97 + i) as char
  {
  }

  lemma Digits(i: nat)
    requires i < 12
    ensures "0123456789+/"[i] == if i < 10 then (48 + i) as char else if i == 10 then '+' else '/'
  {
  }

  lemma {:induction false} GroupCount(d: Data)
    ensures |Groups(d)| == (8 * |d| + 5) / 6
  {
    hide Split;
    if |d| >= 3 { GroupCount(d[3..]); }
  }

  /** Whole groups of four characters, filled up with `=`. */
  lemma EncodedLength(d: Data)
    ensures |Encode(d)| == 4 * ((|d| + 2) / 3)
    ensures forall i :: 0 <= i < |Encode(d)| ==> (Encode(d)[i] == '=' <==> i >= (8 * |d| + 5) / 6)
  {
    GroupCount(d);
    hide Groups, Symbol;
  }

  lemma SymbolsOf(a: byte, b: byte, c: byte, w: sextet, x: sextet, y: sextet, z: sextet)
    requires a / 4 == w && a % 4 * 16 + b / 16 == x && b % 16 * 4 + c / 64 == y && c % 64 == z
    ensures Symbols(Split(a, b, c)) == [Symbol(w), Symbol(x), Symbol(y), Symbol(z)]
    ensures Symbols(Split(a, b, c)[..2]) == [Symbol(w), Symbol(x)]
    ensures Symbols(Split(a, b, c)[..3]) == [Symbol(w), Symbol(x), Symbol(y)]
  {
    hide Symbol;
  }

  /** Tests of section 10 of RFC 4648: "f", "fo" and "foo". */
  lemma EncodesFoo()
    ensures Encode([0x66]) == "Zg==" && Encode([0x66, 0x6f]) == "Zm8=" && Encode([0x66, 0x6f, 0x6f]) == "Zm9v"
  {
    SymbolsOf(0x66, 0, 0, 25, 32, 0, 0);
    SymbolsOf(0x66, 0x6f, 0, 25, 38, 60, 0);
    SymbolsOf(0x66, 0x6f, 0x6f, 25, 38, 61, 47);
    hide Split, Symbols;
    assert [0x66, 0x6f, 0x6f][3..] == [];
    assert Groups([0x66, 0x6f, 0x6f]) == Split(0x66, 0x6f, 0x6f);
  }

  predicate Known(c: char) { c in ALPHABET || c == '=' || c == '\n' || c == '\r' || c == ' ' }

  /** A text is readable exactly if it holds symbols and skipped characters only. */
  lemma {:induction false} ReadableIff(s: string)
    ensures Read(s).Some? <==> forall i :: 0 <= i < |s| ==> Known(s[i])
  {
    hide Known, Value, Skipped;
    if s != "" {
      var n := |s| - 1;
      ReadableIff(s[..n]);
      KnownIs(s[n]);
      assert forall i :: 0 <= i < n ==> s[..n][i] == s[i];
    }
  }

  lemma KnownIs(c: char)
    ensures Known(c) <==> Skipped(c) || Value(c) >= 0
  {
    InAlphabet(c);
    hide ALPHABET, Value;
  }

  lemma InAlphabet(c: char)
    ensures Value(c) >= 0 <==> c in ALPHABET
  {
    if Value(c) >= 0 { SymbolIs(Value(c)); }
    if i :| 0 <= i < |ALPHABET| && ALPHABET[i] == c {
      SymbolIs(i);
      ValueOfSymbol(i);
    }
  }
}
