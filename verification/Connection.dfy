/**
 * One TCP connection (`Connection` in net/connection). Its I/O callbacks run on the reactor thread and its
 * write buffer is shared with senders on any thread. What the socket answers is an input: every call takes the
 * results its `recv` or `send` loop sees, an exhausted list standing for one more EAGAIN.
 */
module Connections {
  import opened Bytes
  import opened Framing

  datatype RecvResult = Received(data: Data) | EndOfStream | RecvWouldBlock | RecvInterrupted | RecvFailed

  type pos = n: int | n > 0 witness 1

  /** The kernel never takes more than it was offered; a count of 0 is reported through errno. */
  datatype SendResult = Sent(n: pos) | SendWouldBlock | SendInterrupted | SendFailed

  /** A closure posted to the reactor for this connection. */
  datatype Task = Flush | RequestClose | DeliverClose

  /** What the outside sees: socket calls on the descriptor and the two callbacks. */
  datatype Io = Recv | Send(bytes: Data) | FrameCallback(payload: Data) | CloseDescriptor | CloseCallback

  /** The connection as a value. The reader's buffer is the residue of parsing `received`. */
  datatype Conn = Conn(
    max: nat, received: Data,
    wbuf: Data, wire: Data, armed: bool,
    closing: bool, closed: bool,
    posts: seq<Task>, io: seq<Io>)

  function Fresh(max: nat): Conn {
    Conn(max, [], [], [], false, false, false, [], [])
  }

  function ScheduleClosed(c: Conn): Conn {
    if c.closing then c else c.(closing := true, posts := c.posts + [DeliverClose])
  }

  function CloseDelivered(c: Conn): Conn {
    if c.closed then c else c.(closed := true, io := c.io + [CloseDescriptor, CloseCallback])
  }

  /** The number of bytes one successful `send` takes. */
  function Taken(c: Conn, n: pos): (k: nat)
    requires c.wbuf != []
    ensures 1 <= k <= |c.wbuf|
  {
    if n > |c.wbuf| then |c.wbuf| else n
  }

  function Flushed(c: Conn, results: seq<SendResult>): Conn
    decreases |results|
  {
    if c.wbuf == [] then c.(armed := false)
    else if results == [] then c.(armed := true, io := c.io + [Send([])])
    else match results[0]
      case Sent(n) =>
        var k := Taken(c, n);
        Flushed(c.(wbuf := c.wbuf[k..], wire := c.wire + c.wbuf[..k], io := c.io + [Send(c.wbuf[..k])]),
                results[1..])
      case SendWouldBlock => c.(armed := true, io := c.io + [Send([])])
      case SendInterrupted => Flushed(c.(io := c.io + [Send([])]), results[1..])
      case SendFailed => c.(posts := c.posts + [RequestClose], io := c.io + [Send([])])
  }

  function Callbacks(frames: seq<Data>): (io: seq<Io>)
    ensures |io| == |frames|
  {
    seq(|frames|, i requires 0 <= i < |frames| => FrameCallback(frames[i]))
  }

  lemma CallbacksSnoc(io: seq<Io>, frames: seq<Data>, f: Data)
    ensures io + Callbacks(frames + [f]) == io + Callbacks(frames) + [FrameCallback(f)]
  {
  }

  /** The frames that `data` completes. */
  function NewFrames(c: Conn, data: Data): seq<Data> {
    Parse(Parse(c.received, c.max).rest + data, c.max).frames
  }

  function Took(c: Conn, data: Data): Conn {
    c.(received := c.received + data, io := c.io + [Recv] + Callbacks(NewFrames(c, data)))
  }

  function ReadAll(c: Conn, results: seq<RecvResult>): Conn
    decreases |results|
  {
    if results == [] then c.(io := c.io + [Recv])
    else match results[0]
      case Received(data) =>
        var d := Took(c, data);
        if Parse(d.received, d.max).bad then ScheduleClosed(d) else ReadAll(d, results[1..])
      case EndOfStream => ScheduleClosed(c.(io := c.io + [Recv]))
      case RecvWouldBlock => c.(io := c.io + [Recv])
      case RecvInterrupted => ReadAll(c.(io := c.io + [Recv]), results[1..])
      case RecvFailed => ScheduleClosed(c.(io := c.io + [Recv]))
  }

  function Handled(c: Conn, read: bool, write: bool, recvs: seq<RecvResult>, sends: seq<SendResult>): Conn {
    if c.closed then c
    else
      var d := if read then ReadAll(c, recvs) else c;
      if write && !d.closed then Flushed(d, sends) else d
  }

  /** The reactor runs the oldest posted closure. */
  function RanPost(c: Conn, sends: seq<SendResult>): Conn
    requires c.posts != []
  {
    var d := c.(posts := c.posts[1..]);
    match c.posts[0]
    case Flush => if d.closed then d else Flushed(d, sends)
    case RequestClose => ScheduleClosed(d)
    case DeliverClose => CloseDelivered(d)
  }

  // ---- the object --------------------------------------------------

  class Connection {
    const maxFrame: nat
    var rbuf: Data
    var readingLength: bool
    var want: nat
    var wbuf: Data
    var writeArmed: bool
    var closing: bool
    var closed: bool
    // the environment: bytes on the wire, posted closures, observed I/O
    var wire: Data
    var posts: seq<Task>
    var io: seq<Io>
    ghost var received: Data

    ghost predicate Valid()
      reads this`rbuf, this`readingLength, this`want, this`received
    {
      maxFrame < TWO_TO_THE_32 && ReaderAt(received, maxFrame, rbuf, readingLength, want)
    }

    ghost function Model(): Conn
      reads this
    {
      Conn(maxFrame, received, wbuf, wire, writeArmed, closing, closed, posts, io)
    }

    constructor (maxFrame: nat)
      requires maxFrame < TWO_TO_THE_32
      ensures Valid() && Model() == Fresh(maxFrame)
    {
      this.maxFrame := maxFrame;
      rbuf, readingLength, want := [], true, 4;
      wbuf, writeArmed, closing, closed := [], false, false, false;
      wire, posts, io, received := [], [], [], [];
    }

    method ScheduleClose()
      modifies this`closing, this`posts
      ensures Model() == ScheduleClosed(old(Model()))
    {
      if closing { return; }
      closing := true;
      posts := posts + [DeliverClose];
    }

    method DeliverCloseNow()
      modifies this`closed, this`io
      ensures Model() == CloseDelivered(old(Model()))
    {
      if closed { return; }
      closed := true;
      io := io + [CloseDescriptor, CloseCallback];
    }

    /** The inner parsing loop of `on_readable`: calls back for every complete frame in the buffer. */
    method ParseBuffer(ghost stream: Data) returns (bad: bool)
      requires maxFrame < TWO_TO_THE_32 && want < TWO_TO_THE_32
      requires if readingLength then want == 4 else GoodLength(want, maxFrame)
      requires stream == Pending(rbuf, readingLength, want)
      modifies this`rbuf, this`readingLength, this`want, this`io
      ensures io == old(io) + Callbacks(Parse(stream, maxFrame).frames)
      ensures bad == Parse(stream, maxFrame).bad
      ensures want < TWO_TO_THE_32 && Pending(rbuf, readingLength, want) == Parse(stream, maxFrame).rest
      ensures readingLength ==> want == 4 && (|rbuf| < 4 || StartsBad(rbuf, maxFrame))
      ensures !readingLength ==> GoodLength(want, maxFrame) && |rbuf| < want
    {
      ghost var frames: seq<Data> := [];
      NothingTakenOff(stream, maxFrame);
      assert old(io) + Callbacks([]) == old(io);
      hide TakenOff, Parse, Callbacks, Be32;
      while true
        invariant io == old(io) + Callbacks(frames)
        invariant want < TWO_TO_THE_32
        invariant if readingLength then want == 4 else GoodLength(want, maxFrame)
        invariant TakenOff(stream, maxFrame, frames, Pending(rbuf, readingLength, want))
        decreases |rbuf|, readingLength
      {
        if readingLength {
          if |rbuf| < 4 {
            AllTakenOff(stream, maxFrame, frames, rbuf);
            break;
          }
          var len := FromBe32(rbuf[..4]);
          if len == 0 || len > maxFrame {
            AllTakenOff(stream, maxFrame, frames, rbuf);
            return true;
          }
          TakeHeader(rbuf);
          want := len;
          rbuf := rbuf[4..];
          readingLength := false;
        }
        if |rbuf| < want {
          PartialBody(rbuf, want, maxFrame);
          AllTakenOff(stream, maxFrame, frames, Be32(want) + rbuf);
          break;
        }
        TakeFrame(stream, maxFrame, frames, rbuf, want);
        var payload := rbuf[..want];
        CallbacksSnoc(old(io), frames, payload);
        rbuf := rbuf[want..];
        readingLength := true;
        want := 4;
        frames := frames + [payload];
        io := io + [FrameCallback(payload)];
      }
      return false;
    }

    /** One `recv` of `data`, then the parsing loop. */
    method ParseChunk(data: Data) returns (bad: bool)
      requires Valid()
      modifies this`rbuf, this`readingLength, this`want, this`io, this`received
      ensures Valid() && Model() == Took(old(Model()), data)
      ensures bad == Parse(received, maxFrame).bad
    {
      hide Parse, Callbacks, Be32;
      ParseExtends(received, data, maxFrame);
      PendingExtends(rbuf, readingLength, want, data);
      rbuf := rbuf + data;
      received := received + data;
      io := io + [Recv];
      bad := ParseBuffer(Pending(rbuf, readingLength, want));
    }

    method OnReadable(results: seq<RecvResult>)
      requires Valid()
      modifies this
      ensures Valid() && Model() == ReadAll(old(Model()), results)
    {
      var i := 0;
      while i < |results|
        invariant 0 <= i <= |results|
        invariant Valid() && ReadAll(Model(), results[i..]) == ReadAll(old(Model()), results)
      {
        hide Took, Parse, ReaderAt;
        assert results[i..][1..] == results[i + 1..];
        match results[i] {
          case Received(data) =>
            var bad := ParseChunk(data);
            if bad { ScheduleClose(); return; }
          case EndOfStream =>
            io := io + [Recv];
            ScheduleClose();
            return;
          case RecvWouldBlock =>
            io := io + [Recv];
            return;
          case RecvInterrupted =>
            io := io + [Recv];
          case RecvFailed =>
            io := io + [Recv];
            ScheduleClose();
            return;
        }
        i := i + 1;
      }
      io := io + [Recv];
    }

    method TryFlushLocked(results: seq<SendResult>)
      modifies this`wbuf, this`wire, this`writeArmed, this`posts, this`io
      ensures Model() == Flushed(old(Model()), results)
    {
      var i := 0;
      while wbuf != []
        invariant 0 <= i <= |results|
        invariant Flushed(Model(), results[i..]) == Flushed(old(Model()), results)
        decreases |results| - i
      {
        if i == |results| || results[i].SendWouldBlock? {
          io := io + [Send([])];
          writeArmed := true;
          return;
        }
        assert results[i..][1..] == results[i + 1..];
        ghost var before := Model();
        match results[i] {
          case Sent(n) =>
            var k := if n > |wbuf| then |wbuf| else n;
            io := io + [Send(wbuf[..k])];
            wire := wire + wbuf[..k];
            wbuf := wbuf[k..];
            assert Flushed(before, results[i..]) == Flushed(Model(), results[i + 1..]);
          case SendInterrupted =>
            io := io + [Send([])];
          case SendFailed =>
            io := io + [Send([])];
            posts := posts + [RequestClose];
            return;
        }
        i := i + 1;
      }
      writeArmed := false;
    }

    method OnEvent(read: bool, write: bool, recvs: seq<RecvResult>, sends: seq<SendResult>)
      requires Valid()
      modifies this
      ensures Valid() && Model() == Handled(old(Model()), read, write, recvs, sends)
    {
      if closed { return; }
      if read { OnReadable(recvs); }
      if closed { return; }
      if write { TryFlushLocked(sends); }
    }

    /** The locked section of `send_frame`. */
    method Append(payload: Data)
      requires |payload| <= maxFrame
      modifies this`wbuf
      ensures wbuf == old(wbuf) + Frame(payload)
    {
      Assoc(wbuf, Be32(|payload|), payload);
      wbuf := wbuf + Be32(|payload|);
      wbuf := wbuf + payload;
    }

    /** `send_frame` with no other thread in between. */
    method SendFrame(payload: Data)
      modifies this`wbuf, this`posts
      ensures Model() == if !closing && !closed && |payload| <= maxFrame
                         then old(Model()).(wbuf := old(wbuf) + Frame(payload), posts := old(posts) + [Flush])
                         else old(Model())
    {
      if closing || closed { return; }
      if |payload| > maxFrame { return; }
      Append(payload);
      posts := posts + [Flush];
    }

    method RunPosted(sends: seq<SendResult>)
      requires Valid() && posts != []
      modifies this
      ensures Valid() && Model() == RanPost(old(Model()), sends)
    {
      var task := posts[0];
      posts := posts[1..];
      match task {
        case Flush =>
          if closed { return; }
          TryFlushLocked(sends);
        case RequestClose => ScheduleClose();
        case DeliverClose => DeliverCloseNow();
      }
    }
  }
}
