/** The client's stream decoder (`FrameDecoder` in protocol/framing). */
module FrameDecoding {
  import opened Bytes
  import opened Framing

  /** `feed` returns the frames it completed, or throws: then the frames of that very call are lost. */
  datatype FeedResult = Frames(frames: seq<Data>) | ThrewZeroLength | ThrewTooLarge

  class FrameDecoder {
    var buf: Data
    var readingLen: bool
    var want: nat
    const maxFrameBytes: nat
    /** All bytes ever fed. */
    ghost var fed: Data

    ghost predicate Valid()
      reads this
    {
      maxFrameBytes < TWO_TO_THE_32 && ReaderAt(fed, maxFrameBytes, buf, readingLen, want)
    }

    constructor (maxFrameBytes: nat)
      requires maxFrameBytes < TWO_TO_THE_32
      ensures Valid() && fed == [] && this.maxFrameBytes == maxFrameBytes
    {
      this.maxFrameBytes := maxFrameBytes;
      buf, readingLen, want := [], true, 4;
      fed := [];
    }

    /**
     * A feed throws exactly when the stream so far holds a malformed header, and otherwise returns exactly the
     * frames that the new bytes complete.
     */
    method Feed(data: Data) returns (r: FeedResult)
      requires Valid()
      modifies this
      ensures Valid() && fed == old(fed) + data
      ensures var after := Parse(fed, maxFrameBytes);
              && (r.Frames? <==> !after.bad)
              && (r.Frames? ==> after.frames == Parse(old(fed), maxFrameBytes).frames + r.frames)
              && (r.ThrewZeroLength? <==> after.bad && |after.rest| >= 4 && HeadLength(after.rest) == 0)
    {
      ParseExtends(fed, data, maxFrameBytes);
      PendingExtends(buf, readingLen, want, data);
      buf := buf + data;
      fed := fed + data;
      r := ParseBuffer(Pending(buf, readingLen, want));
    }

    /** The loop of `feed`. */
    method ParseBuffer(ghost stream: Data) returns (r: FeedResult)
      requires maxFrameBytes < TWO_TO_THE_32 && want < TWO_TO_THE_32
      requires if readingLen then want == 4 else GoodLength(want, maxFrameBytes)
      requires stream == Pending(buf, readingLen, want)
      modifies this`buf, this`readingLen, this`want
      ensures var p := Parse(stream, maxFrameBytes);
              && (r.Frames? <==> !p.bad)
              && (r.Frames? ==> r.frames == p.frames)
              && (r.ThrewZeroLength? <==> p.bad && |p.rest| >= 4 && HeadLength(p.rest) == 0)
              && want < TWO_TO_THE_32 && Pending(buf, readingLen, want) == p.rest
      ensures readingLen ==> want == 4 && (|buf| < 4 || StartsBad(buf, maxFrameBytes))
      ensures !readingLen ==> GoodLength(want, maxFrameBytes) && |buf| < want
    {
      var frames: seq<Data> := [];
      while true
        invariant want < TWO_TO_THE_32
        invariant if readingLen then want == 4 else GoodLength(want, maxFrameBytes)
        invariant TakenOff(stream, maxFrameBytes, frames, Pending(buf, readingLen, want))
        decreases |buf|, readingLen
      {
        if readingLen {
          if |buf| < 4 {
            AllTakenOff(stream, maxFrameBytes, frames, buf);
            break;
          }
          var len := FromBe32(buf[..4]);
          if len == 0 || len > maxFrameBytes {
            AllTakenOff(stream, maxFrameBytes, frames, buf);
            return if len == 0 then ThrewZeroLength else ThrewTooLarge;
          }
          TakeHeader(buf);
          want := len;
          buf := buf[4..];
          readingLen := false;
        }
        if |buf| < want {
          PartialBody(buf, want, maxFrameBytes);
          AllTakenOff(stream, maxFrameBytes, frames, Be32(want) + buf);
          break;
        }
        TakeFrame(stream, maxFrameBytes, frames, buf, want);
        frames := frames + [buf[..want]];
        buf := buf[want..];
        readingLen := true;
        want := 4;
      }
      return Frames(frames);
    }
  }

  /** Feeds the chunks in turn, as the client does, until one throws. */
  method Decode(chunks: seq<Data>, maxFrameBytes: nat) returns (frames: seq<Data>, fedChunks: nat)
    requires maxFrameBytes < TWO_TO_THE_32
    ensures fedChunks <= |chunks|
    // what is returned depends on the bytes fed before the throwing call, not on how they were cut
    ensures frames == Parse(Concat(chunks[..fedChunks]), maxFrameBytes).frames
    ensures !Parse(Concat(chunks[..fedChunks]), maxFrameBytes).bad
    // the chunk that threw is the first one that completes a malformed header
    ensures fedChunks < |chunks| ==> Parse(Concat(chunks[..fedChunks + 1]), maxFrameBytes).bad
    ensures fedChunks == |chunks| <==> !Parse(Concat(chunks), maxFrameBytes).bad
  {
    var d := new FrameDecoder(maxFrameBytes);
    frames, fedChunks := [], 0;
    while fedChunks < |chunks|
      invariant fedChunks <= |chunks|
      invariant d.Valid() && d.maxFrameBytes == maxFrameBytes
      invariant d.fed == Concat(chunks[..fedChunks])
      invariant frames == Parse(d.fed, maxFrameBytes).frames && !Parse(d.fed, maxFrameBytes).bad
    {
      assert chunks[..fedChunks + 1] == chunks[..fedChunks] + [chunks[fedChunks]];
      ConcatSnoc(chunks[..fedChunks], chunks[fedChunks]);
      var r := d.Feed(chunks[fedChunks]);
      match r {
        case Frames(more) =>
          frames := frames + more;
          fedChunks := fedChunks + 1;
        case ThrewZeroLength =>
          ThrowIsFinal(chunks, fedChunks, maxFrameBytes);
          return;
        case ThrewTooLarge =>
          ThrowIsFinal(chunks, fedChunks, maxFrameBytes);
          return;
      }
    }
    assert chunks[..fedChunks] == chunks;
  }

  /** Once a feed has thrown, every later feed throws too, whatever bytes follow. */
  lemma ThrowIsFinal(chunks: seq<Data>, k: nat, max: nat)
    requires k < |chunks| && max < TWO_TO_THE_32
    requires Parse(Concat(chunks[..k + 1]), max).bad
    ensures forall n :: k < n <= |chunks| ==> Parse(Concat(chunks[..n]), max).bad
    ensures Parse(Concat(chunks), max).bad
  {
    forall n | k < n <= |chunks| ensures Parse(Concat(chunks[..n]), max).bad {
      assert chunks[..n] == chunks[..k + 1] + chunks[k + 1..n];
      ConcatAppend(chunks[..k + 1], chunks[k + 1..n]);
      BadIsFinal(Concat(chunks[..k + 1]), Concat(chunks[k + 1..n]), max);
    }
    assert chunks[..|chunks|] == chunks;
  }
}
