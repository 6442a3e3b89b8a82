/** The wire format `[4-byte big-endian length][payload]`: what a byte stream means as a sequence of frames. */
module Framing {
  import opened Bytes

  /** A payload with its length prefix, which is truncated to 32 bits. */
  function Frame(payload: Data): (f: Data)
    ensures |f| == 4 + |payload|
  {
    Be32(|payload|) + payload
  }

  /** The stream that a writer of `payloads` produces. */
  function Encode(payloads: seq<Data>): (s: Data) {
    if payloads == [] then []
    else Encode(payloads[..|payloads| - 1]) + Frame(payloads[|payloads| - 1])
  }

  /** Lengths that a reader with limit `max` accepts: an empty frame is malformed. */
  predicate GoodLength(n: nat, max: nat) { 1 <= n <= max }

  /**
   * What a stream means: the complete frames before the first malformed header, the bytes that are left,
   * and whether those start with a malformed header.
   */
  datatype Parsed = Parsed(frames: seq<Data>, rest: Data, bad: bool)

  function HeadLength(s: Data): nat
    requires |s| >= 4
  {
    FromBe32(s[..4])
  }

  predicate StartsBad(s: Data, max: nat) {
    |s| >= 4 && !GoodLength(HeadLength(s), max)
  }

  predicate StartsWithFrame(s: Data, max: nat) {
    |s| >= 4 && GoodLength(HeadLength(s), max) && |s| >= 4 + HeadLength(s)
  }

  function HeadFrame(s: Data): Data
    requires |s| >= 4 && |s| >= 4 + HeadLength(s)
  {
    s[4..4 + HeadLength(s)]
  }

  function AfterFrame(s: Data): Data
    requires |s| >= 4 && |s| >= 4 + HeadLength(s)
  {
    s[4 + HeadLength(s)..]
  }

  function Parse(s: Data, max: nat): (p: Parsed) {
    if StartsWithFrame(s, max) then
      var tail := Parse(AfterFrame(s), max);
      Parsed([HeadFrame(s)] + tail.frames, tail.rest, tail.bad)
    else
      Parsed([], s, StartsBad(s, max))
  }

  // ---- Encode ------------------------------------------------------

  lemma EncodeSnoc(payloads: seq<Data>, p: Data)
    ensures Encode(payloads + [p]) == Encode(payloads) + Frame(p)
  {
    assert (payloads + [p])[..|payloads|] == payloads;
  }

  lemma {:induction false} EncodeCons(p: Data, payloads: seq<Data>)
    ensures Encode([p] + payloads) == Frame(p) + Encode(payloads)
  {
    if payloads == [] {
      EncodeSnoc([], p);
      assert [p] + payloads == [] + [p];
    } else {
      var n := |payloads| - 1;
      EncodeCons(p, payloads[..n]);
      Assoc(Frame(p), Encode(payloads[..n]), Frame(payloads[n]));
      EncodeSnoc([p] + payloads[..n], payloads[n]);
      assert [p] + payloads == ([p] + payloads[..n]) + [payloads[n]];
    }
  }

  // ---- Parse -------------------------------------------------------

  lemma HeadOfFrame(f: Data, tail: Data)
    requires |f| < TWO_TO_THE_32
    ensures var s := Frame(f) + tail;
            HeadLength(s) == |f| && HeadFrame(s) == f && AfterFrame(s) == tail
  {
    Be32RoundTrip(|f|);
    assert (Frame(f) + tail)[..4] == Be32(|f|);
  }

  lemma FrameOfHead(s: Data, max: nat)
    requires StartsWithFrame(s, max)
    ensures s == Frame(HeadFrame(s)) + AfterFrame(s)
  {
    FromBe32RoundTrip(s[..4]);
  }

  /** Parsing loses nothing: the frames, written out again, and the residue are the stream. */
  lemma {:induction false} ParseIsSound(s: Data, max: nat)
    ensures s == Encode(Parse(s, max).frames) + Parse(s, max).rest
    ensures forall f :: f in Parse(s, max).frames ==> GoodLength(|f|, max)
    ensures Parse(s, max).bad <==> StartsBad(Parse(s, max).rest, max)
    ensures !StartsWithFrame(Parse(s, max).rest, max)
  {
    if StartsWithFrame(s, max) {
      var tail := Parse(AfterFrame(s), max);
      ParseIsSound(AfterFrame(s), max);
      FrameOfHead(s, max);
      EncodeCons(HeadFrame(s), tail.frames);
      Assoc(Frame(HeadFrame(s)), Encode(tail.frames), tail.rest);
    }
  }

  /** The frames in front of a stream can be parsed on their own. */
  lemma {:induction false} ParseEncoded(good: seq<Data>, tail: Data, max: nat)
    requires max < TWO_TO_THE_32
    requires forall f :: f in good ==> GoodLength(|f|, max)
    ensures Parse(Encode(good) + tail, max)
         == Parsed(good + Parse(tail, max).frames, Parse(tail, max).rest, Parse(tail, max).bad)
  {
    if good == [] {
      assert Encode(good) + tail == tail;
    } else {
      var f, others := good[0], good[1..];
      var after := Encode(others) + tail;
      assert good == [f] + others;
      EncodeCons(f, others);
      Assoc(Frame(f), Encode(others), tail);
      HeadOfFrame(f, after);
      ParseEncoded(others, tail, max);
      Assoc([f], others, Parse(tail, max).frames);
    }
  }

  /** Bytes that arrive later only add frames: the residue is all a reader has to remember. */
  lemma ParseExtends(a: Data, b: Data, max: nat)
    requires max < TWO_TO_THE_32
    ensures TakenOff(a + b, max, Parse(a, max).frames, Parse(a, max).rest + b)
  {
    var p := Parse(a, max);
    ParseIsSound(a, max);
    Assoc(Encode(p.frames), p.rest, b);
    ParseEncoded(p.frames, p.rest + b, max);
  }

  /** After a malformed header no bytes can add a frame. */
  lemma BadIsFinal(a: Data, b: Data, max: nat)
    requires max < TWO_TO_THE_32
    requires Parse(a, max).bad
    ensures Parse(a + b, max) == Parsed(Parse(a, max).frames, Parse(a, max).rest + b, true)
  {
    var p := Parse(a, max);
    ParseIsSound(a, max);
    ParseExtends(a, b, max);
    assert (p.rest + b)[..4] == p.rest[..4];
  }

  /** The payloads before the first one a reader with limit `max` rejects. */
  function GoodPrefix(payloads: seq<Data>, max: nat): (good: seq<Data>)
    ensures good <= payloads
    ensures forall f :: f in good ==> GoodLength(|f|, max)
    ensures |good| < |payloads| ==> !GoodLength(|payloads[|good|]|, max)
  {
    if payloads == [] || !GoodLength(|payloads[0]|, max) then []
    else [payloads[0]] + GoodPrefix(payloads[1..], max)
  }

  /**
   * A reader recovers a written stream up to the first payload it rejects, and rejects it exactly when it is
   * empty or over the reader's limit. All payloads come back if and only if all lengths are good.
   */
  lemma DecodeOfEncode(payloads: seq<Data>, max: nat)
    requires max < TWO_TO_THE_32
    requires forall f :: f in payloads ==> |f| < TWO_TO_THE_32
    ensures var p := Parse(Encode(payloads), max);
            && p.frames == GoodPrefix(payloads, max)
            && (p.bad <==> exists f :: f in payloads && !(1 <= |f| <= max))
            && (!p.bad ==> p.frames == payloads && p.rest == [])
  {
    var good := GoodPrefix(payloads, max);
    var n := |good|;
    assert payloads == good + payloads[n..];
    EncodeAppend(good, payloads[n..]);
    ParseEncoded(good, Encode(payloads[n..]), max);
    if n < |payloads| {
      ParseBadHead(payloads[n..], max);
    } else {
      assert payloads[n..] == [];
    }
  }

  lemma ParseBadHead(payloads: seq<Data>, max: nat)
    requires payloads != [] && |payloads[0]| < TWO_TO_THE_32 && !GoodLength(|payloads[0]|, max)
    ensures Parse(Encode(payloads), max) == Parsed([], Encode(payloads), true)
  {
    assert payloads == [payloads[0]] + payloads[1..];
    EncodeCons(payloads[0], payloads[1..]);
    HeadOfFrame(payloads[0], Encode(payloads[1..]));
  }

  lemma {:induction false} EncodeAppend(a: seq<Data>, b: seq<Data>)
    ensures Encode(a + b) == Encode(a) + Encode(b)
  {
    if b == [] {
      assert a + b == a;
    } else {
      var n := |b| - 1;
      assert a + b == (a + b[..n]) + [b[n]];
      EncodeSnoc(a + b[..n], b[n]);
      EncodeAppend(a, b[..n]);
      Assoc(Encode(a), Encode(b[..n]), Frame(b[n]));
    }
  }

  /** A prefix of a stream parses to a prefix of its frames. */
  lemma ParsePrefix(a: Data, s: Data, max: nat)
    requires max < TWO_TO_THE_32
    requires a <= s
    ensures Parse(a, max).frames <= Parse(s, max).frames
    ensures Parse(a, max).bad ==> Parse(s, max).bad && Parse(s, max).frames == Parse(a, max).frames
  {
    assert s == a + s[|a|..];
    ParseExtends(a, s[|a|..], max);
    if Parse(a, max).bad { BadIsFinal(a, s[|a|..], max); }
  }

  // ---- The state both readers keep ---------------------------------

  /** The stream bytes a reader still holds: once it has consumed a header, `want` stands for those 4 bytes. */
  ghost function Pending(buf: Data, readingLength: bool, want: nat): (s: Data)
    requires want < TWO_TO_THE_32
  {
    if readingLength then buf else Be32(want) + buf
  }

  lemma PendingExtends(buf: Data, readingLength: bool, want: nat, data: Data)
    requires want < TWO_TO_THE_32
    ensures Pending(buf + data, readingLength, want) == Pending(buf, readingLength, want) + data
  {
    Assoc(Be32(want), buf, data);
  }

  /** A reader that has seen `stream` holds exactly the residue of parsing it. */
  ghost predicate ReaderAt(stream: Data, max: nat, buf: Data, readingLength: bool, want: nat) {
    && want < TWO_TO_THE_32
    && Pending(buf, readingLength, want) == Parse(stream, max).rest
    && (readingLength ==> want == 4 && (|buf| < 4 || StartsBad(buf, max)))
    && (!readingLength ==> GoodLength(want, max) && |buf| < want)
  }

  lemma TakeHeader(buf: Data)
    requires |buf| >= 4
    ensures Be32(HeadLength(buf)) + buf[4..] == buf
  {
    FromBe32RoundTrip(buf[..4]);
  }

  lemma FrameAtFront(buf: Data, want: nat)
    requires want < TWO_TO_THE_32 && want <= |buf|
    ensures Frame(buf[..want]) + buf[want..] == Be32(want) + buf
  {
    assert buf == buf[..want] + buf[want..];
    Assoc(Be32(want), buf[..want], buf[want..]);
  }

  /** Of a stream, `frames` are taken off and `pending` is what is still to be parsed. */
  ghost predicate TakenOff(stream: Data, max: nat, frames: seq<Data>, pending: Data) {
    var p := Parse(pending, max);
    Parse(stream, max) == Parsed(frames + p.frames, p.rest, p.bad)
  }

  lemma NothingTakenOff(stream: Data, max: nat)
    ensures TakenOff(stream, max, [], stream)
  {
    assert [] + Parse(stream, max).frames == Parse(stream, max).frames;
  }

  lemma TakeFrame(stream: Data, max: nat, frames: seq<Data>, buf: Data, want: nat)
    requires GoodLength(want, max) && max < TWO_TO_THE_32 && want <= |buf|
    requires TakenOff(stream, max, frames, Be32(want) + buf)
    ensures TakenOff(stream, max, frames + [buf[..want]], buf[want..])
  {
    FrameAtFront(buf, want);
    HeadOfFrame(buf[..want], buf[want..]);
    Assoc(frames, [buf[..want]], Parse(buf[want..], max).frames);
  }

  /** Nothing more can be taken off: what is pending is the residue. */
  lemma AllTakenOff(stream: Data, max: nat, frames: seq<Data>, pending: Data)
    requires TakenOff(stream, max, frames, pending) && !StartsWithFrame(pending, max)
    ensures Parse(stream, max) == Parsed(frames, pending, StartsBad(pending, max))
  {
  }

  lemma PartialBody(buf: Data, want: nat, max: nat)
    requires GoodLength(want, max) && max < TWO_TO_THE_32 && |buf| < want
    ensures !StartsWithFrame(Be32(want) + buf, max) && !StartsBad(Be32(want) + buf, max)
  {
    Be32RoundTrip(want);
    assert (Be32(want) + buf)[..4] == Be32(want);
  }

  /** Before the first malformed header the residue is a partial header or a partial body, never more. */
  lemma ResidueIsBounded(stream: Data, max: nat, buf: Data, readingLength: bool, want: nat)
    requires max < TWO_TO_THE_32
    requires ReaderAt(stream, max, buf, readingLength, want)
    ensures Parse(stream, max).bad <==> readingLength && |buf| >= 4
    ensures !Parse(stream, max).bad ==> if readingLength then |buf| < 4 else |buf| < want <= max
  {
    ParseIsSound(stream, max);
    if !readingLength {
      PartialBody(buf, want, max);
    }
  }
}
