/**
 * A connection under every interleaving: any number of sender and closer threads against the reactor thread.
 * One event is one atomic action: an unlocked test, a locked section, a push to the reactor's queue, or one
 * callback of the reactor thread. An event whose thread is not at that point changes nothing.
 */
module ConnectionRuns {
  import opened Bytes
  import opened Framing
  import opened FrameDecoding
  import opened Connections

  /** A `send_frame` call in progress: past its first test, or past its locked section but not yet posted. */
  datatype Sender = Checked(payload: Data) | Appended

  datatype State = State(
    conn: Conn,
    senders: map<nat, Sender>,
    /** Threads between winning the `closing_` exchange and posting the close. */
    closers: set<nat>,
    /** Payloads in the order their locked sections ran. */
    accepted: seq<Data>)

  datatype Event =
    | SendCheck(thread: nat, payload: Data)
    | SendAppend(thread: nat)
    | SendPost(thread: nat)
    | CloseExchange(thread: nat)
    | ClosePost(thread: nat)
    | ReactorPost(sends: seq<SendResult>)
    | ReactorEvent(read: bool, write: bool, recvs: seq<RecvResult>, sends: seq<SendResult>)

  function Init(max: nat): State {
    State(Fresh(max), map[], {}, [])
  }

  function Step(s: State, e: Event): State {
    var c := s.conn;
    match e
    case SendCheck(t, p) =>
      if t in s.senders || c.closing || c.closed || |p| > c.max then s
      else s.(senders := s.senders[t := Checked(p)])
    case SendAppend(t) =>
      if t !in s.senders || !s.senders[t].Checked? then s
      else
        var p := s.senders[t].payload;
        s.(conn := c.(wbuf := c.wbuf + Frame(p)), senders := s.senders[t := Appended], accepted := s.accepted + [p])
    case SendPost(t) =>
      if t !in s.senders || !s.senders[t].Appended? then s
      else s.(conn := c.(posts := c.posts + [Flush]), senders := s.senders - {t})
    case CloseExchange(t) =>
      if c.closing || t in s.closers then s
      else s.(conn := c.(closing := true), closers := s.closers + {t})
    case ClosePost(t) =>
      if t !in s.closers then s
      else s.(conn := c.(posts := c.posts + [DeliverClose]), closers := s.closers - {t})
    case ReactorPost(sends) =>
      if c.posts == [] then s else s.(conn := RanPost(c, sends))
    case ReactorEvent(read, write, recvs, sends) =>
      s.(conn := Handled(c, read, write, recvs, sends))
  }

  function Run(max: nat, es: seq<Event>): State {
    if es == [] then Init(max) else Step(Run(max, es[..|es| - 1]), es[|es| - 1])
  }

  // ---- the write side ----------------------------------------------

  /** Everything accepted is on the wire or in the buffer, in order. */
  ghost predicate NothingLost(s: State) {
    s.conn.wire + s.conn.wbuf == Encode(s.accepted)
  }

  ghost predicate Fits(s: State) {
    && (forall p :: p in s.accepted ==> |p| <= s.conn.max)
    && (forall t :: t in s.senders && s.senders[t].Checked? ==> |s.senders[t].payload| <= s.conn.max)
  }

  /** Somebody is going to look at the write buffer again. */
  ghost predicate Attended(c: Conn, senders: map<nat, Sender>) {
    || c.armed
    || Flush in c.posts
    || RequestClose in c.posts
    || exists t :: t in senders && senders[t] == Appended
  }

  /** No stranded output: while the connection is not closing, buffered bytes have somebody to send them. */
  ghost predicate NotStranded(s: State) {
    !s.conn.closing && s.conn.wbuf != [] ==> Attended(s.conn, s.senders)
  }

  /** Write interest is armed only while there is something to write. */
  ghost predicate ArmedForBytes(c: Conn) { c.armed ==> c.wbuf != [] }

  // ---- the close protocol ------------------------------------------

  ghost predicate IsClose(x: Io) { x.CloseDescriptor? || x.CloseCallback? }

  /** Ordinary I/O, and after it either nothing or one descriptor close followed by one callback. */
  ghost predicate WellClosed(c: Conn) {
    var n := if c.closed then |c.io| - 2 else |c.io|;
    && 0 <= n
    && (forall i :: 0 <= i < n ==> !IsClose(c.io[i]))
    && (c.closed ==> c.io[n..] == [CloseDescriptor, CloseCallback])
  }

  /** The number of posted closures that deliver the close. */
  function ClosesIn(posts: seq<Task>): nat {
    if posts == [] then 0 else ClosesIn(posts[1..]) + (if posts[0] == DeliverClose then 1 else 0)
  }

  /** However many threads race to close, the one close is with its winner, posted, or delivered. */
  ghost predicate OneClose(s: State) {
    |s.closers| + ClosesIn(s.conn.posts) + (if s.conn.closed then 1 else 0) == (if s.conn.closing then 1 else 0)
  }

  function FramesIn(io: seq<Io>): seq<Data> {
    if io == [] then []
    else
      var before, last := FramesIn(io[..|io| - 1]), io[|io| - 1];
      if last.FrameCallback? then before + [last.payload] else before
  }

  ghost predicate DeliversParse(c: Conn) {
    FramesIn(c.io) == Parse(c.received, c.max).frames
  }

  ghost predicate Inv(s: State, max: nat) {
    && s.conn.max == max < TWO_TO_THE_32
    && NothingLost(s) && Fits(s) && NotStranded(s) && ArmedForBytes(s.conn)
    && WellClosed(s.conn) && OneClose(s)
    && DeliversParse(s.conn)
  }

  // ---- what the reactor's callbacks keep ---------------------------

  lemma FramesInSnoc(io: seq<Io>, x: Io)
    ensures FramesIn(io + [x]) == if x.FrameCallback? then FramesIn(io) + [x.payload] else FramesIn(io)
  {
    assert (io + [x])[..|io|] == io;
  }

  lemma {:induction false} FramesInCallbacks(io: seq<Io>, frames: seq<Data>)
    ensures FramesIn(io + Callbacks(frames)) == FramesIn(io) + frames
  {
    if frames == [] {
      assert io + Callbacks(frames) == io;
    } else {
      var n := |frames| - 1;
      FramesInCallbacks(io, frames[..n]);
      assert frames == frames[..n] + [frames[n]];
      CallbacksSnoc(io, frames[..n], frames[n]);
      FramesInSnoc(io + Callbacks(frames[..n]), FrameCallback(frames[n]));
    }
  }

  lemma {:induction false} ClosesInSnoc(posts: seq<Task>, x: Task)
    ensures ClosesIn(posts + [x]) == ClosesIn(posts) + (if x == DeliverClose then 1 else 0)
  {
    if posts != [] {
      ClosesInSnoc(posts[1..], x);
      assert (posts + [x])[1..] == posts[1..] + [x];
    }
  }

  /** More ordinary I/O on an open descriptor. */
  ghost predicate MoreIo(c: Conn, d: Conn) {
    && d.max == c.max && !d.closed
    && c.io <= d.io && (forall i :: |c.io| <= i < |d.io| ==> !IsClose(d.io[i]))
    && (DeliversParse(c) ==> DeliversParse(d))
  }

  lemma MoreIoStep(c: Conn, x: Io)
    requires !c.closed && !IsClose(x) && !x.FrameCallback?
    ensures MoreIo(c, c.(io := c.io + [x]))
  {
    FramesInSnoc(c.io, x);
  }

  /** A flush moves bytes to the wire and, if it leaves some, has armed the descriptor or asked for a close. */
  ghost predicate FlushFrom(c: Conn, d: Conn) {
    && d.wire + d.wbuf == c.wire + c.wbuf
    && d.received == c.received && d.closing == c.closing
    && (d.posts == c.posts || d.posts == c.posts + [RequestClose])
    && (d.wbuf != [] ==> d.armed || d.posts == c.posts + [RequestClose])
    && (d.wbuf == [] ==> !d.armed)
  }

  lemma {:induction false} FlushKeeps(c: Conn, results: seq<SendResult>)
    requires !c.closed
    ensures MoreIo(c, Flushed(c, results)) && FlushFrom(c, Flushed(c, results))
    decreases |results|
  {
    MoreIoStep(c, Send([]));
    if c.wbuf != [] && results != [] {
      match results[0] {
        case Sent(n) =>
          var k := Taken(c, n);
          var d := c.(wbuf := c.wbuf[k..], wire := c.wire + c.wbuf[..k], io := c.io + [Send(c.wbuf[..k])]);
          MoreIoStep(c, Send(c.wbuf[..k]));
          Assoc(c.wire, c.wbuf[..k], c.wbuf[k..]);
          FlushKeeps(d, results[1..]);
        case SendInterrupted =>
          FlushKeeps(c.(io := c.io + [Send([])]), results[1..]);
        case _ =>
      }
    }
  }

  /** Reading never touches the write side; it may ask for the close, once. */
  ghost predicate ReadFrom(c: Conn, d: Conn) {
    && d.wire == c.wire && d.wbuf == c.wbuf && d.armed == c.armed
    && c.received <= d.received
    && if d.closing == c.closing then d.posts == c.posts else d.closing && d.posts == c.posts + [DeliverClose]
  }

  lemma TookKeeps(c: Conn, data: Data)
    requires !c.closed && c.max < TWO_TO_THE_32
    ensures MoreIo(c, Took(c, data))
  {
    ParseExtends(c.received, data, c.max);
    FramesInSnoc(c.io, Recv);
    FramesInCallbacks(c.io + [Recv], NewFrames(c, data));
  }

  lemma {:induction false} ReadKeeps(c: Conn, results: seq<RecvResult>)
    requires !c.closed && c.max < TWO_TO_THE_32
    ensures MoreIo(c, ReadAll(c, results)) && ReadFrom(c, ReadAll(c, results))
    decreases |results|
  {
    MoreIoStep(c, Recv);
    if results != [] {
      match results[0] {
        case Received(data) =>
          TookKeeps(c, data);
          if !Parse(Took(c, data).received, c.max).bad {
            ReadKeeps(Took(c, data), results[1..]);
          }
        case RecvInterrupted =>
          ReadKeeps(c.(io := c.io + [Recv]), results[1..]);
        case _ =>
      }
    }
  }

  lemma FlushStepKeeps(s: State, d: Conn)
    requires Inv(s, s.conn.max) && !s.conn.closed && MoreIo(s.conn, d) && FlushFrom(s.conn, d)
    ensures Inv(s.(conn := d), s.conn.max)
  {
    ClosesInSnoc(s.conn.posts, RequestClose);
  }

  lemma ReadStepKeeps(s: State, d: Conn)
    requires Inv(s, s.conn.max) && !s.conn.closed && MoreIo(s.conn, d) && ReadFrom(s.conn, d)
    ensures Inv(s.(conn := d), s.conn.max)
  {
    ClosesInSnoc(s.conn.posts, DeliverClose);
  }

  lemma FlushPostKeeps(s: State, sends: seq<SendResult>)
    requires Inv(s, s.conn.max) && s.conn.posts != [] && s.conn.posts[0] == Flush
    ensures Inv(s.(conn := RanPost(s.conn, sends)), s.conn.max)
  {
    var d := s.conn.(posts := s.conn.posts[1..]);
    if !d.closed {
      FlushKeeps(d, sends);
      ClosesInSnoc(d.posts, RequestClose);
    }
  }

  lemma ClosePostKeeps(s: State, sends: seq<SendResult>)
    requires Inv(s, s.conn.max) && s.conn.posts != [] && s.conn.posts[0] != Flush
    ensures Inv(s.(conn := RanPost(s.conn, sends)), s.conn.max)
  {
    var c := s.conn;
    var d := c.(posts := c.posts[1..]);
    if c.posts[0] == RequestClose {
      ClosesInSnoc(d.posts, DeliverClose);
    } else {
      assert ClosesIn(c.posts) == ClosesIn(d.posts) + 1;
      FramesInSnoc(c.io, CloseDescriptor);
      FramesInSnoc(c.io + [CloseDescriptor], CloseCallback);
      assert c.io + [CloseDescriptor, CloseCallback] == c.io + [CloseDescriptor] + [CloseCallback];
    }
  }

  /** The reactor runs a posted closure. */
  lemma RanPostKeeps(s: State, sends: seq<SendResult>)
    requires Inv(s, s.conn.max) && s.conn.posts != []
    ensures Inv(s.(conn := RanPost(s.conn, sends)), s.conn.max)
  {
    if s.conn.posts[0] == Flush { FlushPostKeeps(s, sends); } else { ClosePostKeeps(s, sends); }
  }

  lemma HandledKeeps(s: State, read: bool, write: bool, recvs: seq<RecvResult>, sends: seq<SendResult>)
    requires Inv(s, s.conn.max)
    ensures Inv(s.(conn := Handled(s.conn, read, write, recvs, sends)), s.conn.max)
  {
    var c := s.conn;
    if !c.closed {
      var d := c;
      if read {
        d := ReadAll(c, recvs);
        ReadKeeps(c, recvs);
        ReadStepKeeps(s, d);
      }
      if write {
        FlushKeeps(d, sends);
        FlushStepKeeps(s.(conn := d), Flushed(d, sends));
      }
    }
  }

  lemma AppendKeeps(s: State, t: nat)
    requires Inv(s, s.conn.max) && t in s.senders && s.senders[t].Checked?
    ensures Inv(Step(s, SendAppend(t)), s.conn.max)
  {
    hide Frame, Parse, FramesIn, ClosesIn;
    var p := s.senders[t].payload;
    EncodeSnoc(s.accepted, p);
    Assoc(s.conn.wire, s.conn.wbuf, Frame(p));
    assert Step(s, SendAppend(t)).senders[t] == Appended;
  }

  lemma PostKeeps(s: State, t: nat)
    requires Inv(s, s.conn.max) && t in s.senders && s.senders[t].Appended?
    ensures Inv(Step(s, SendPost(t)), s.conn.max)
  {
    ClosesInSnoc(s.conn.posts, Flush);
    assert Flush in s.conn.posts + [Flush];
  }

  lemma CloserKeeps(s: State, e: Event)
    requires Inv(s, s.conn.max) && (e.CloseExchange? || e.ClosePost?)
    ensures Inv(Step(s, e), s.conn.max)
  {
    ClosesInSnoc(s.conn.posts, DeliverClose);
  }

  lemma StepKeeps(s: State, e: Event)
    requires Inv(s, s.conn.max)
    ensures Inv(Step(s, e), s.conn.max)
  {
    match e {
      case ReactorPost(sends) => if s.conn.posts != [] { RanPostKeeps(s, sends); }
      case ReactorEvent(read, write, recvs, sends) => HandledKeeps(s, read, write, recvs, sends);
      case SendAppend(t) => if t in s.senders && s.senders[t].Checked? { AppendKeeps(s, t); }
      case SendPost(t) => if t in s.senders && s.senders[t].Appended? { PostKeeps(s, t); }
      case SendCheck(t, p) =>
        if x :| x in s.senders && s.senders[x] == Appended {
          assert Step(s, e).senders[x] == Appended;
        }
      case _ => CloserKeeps(s, e);
    }
  }

  lemma {:induction false} RunKeeps(max: nat, es: seq<Event>)
    requires max < TWO_TO_THE_32
    ensures Inv(Run(max, es), max)
  {
    if es != [] {
      RunKeeps(max, es[..|es| - 1]);
      StepKeeps(Run(max, es[..|es| - 1]), es[|es| - 1]);
    }
  }

  // ---- theorems over every run -------------------------------------

  lemma RunLosesNothing(max: nat, es: seq<Event>)
    requires max < TWO_TO_THE_32
    ensures var s := Run(max, es);
            NothingLost(s) && forall f :: f in s.accepted ==> |f| < TWO_TO_THE_32
  {
    RunKeeps(max, es);
  }

  lemma PartOfEncoded(bytes: Data, payloads: seq<Data>, max: nat)
    requires max < TWO_TO_THE_32
    requires forall f :: f in payloads ==> |f| < TWO_TO_THE_32
    requires bytes <= Encode(payloads)
    ensures Parse(bytes, max).frames <= GoodPrefix(payloads, max)
  {
    DecodeOfEncode(payloads, max);
    ParsePrefix(bytes, Encode(payloads), max);
  }

  /** What has reached the wire holds accepted payloads, in the order of their locked sections, and nothing else. */
  lemma WireHoldsAccepted(max: nat, es: seq<Event>, bytes: Data, peerMax: nat)
    requires max < TWO_TO_THE_32 && peerMax < TWO_TO_THE_32
    requires bytes <= Run(max, es).conn.wire
    ensures var s, p := Run(max, es), Parse(bytes, peerMax);
            && p.frames <= GoodPrefix(s.accepted, peerMax) <= s.accepted
            && (s.conn.wbuf == [] && bytes == s.conn.wire ==>
                  && p.frames == GoodPrefix(s.accepted, peerMax)
                  && (p.bad <==> exists f :: f in s.accepted && !GoodLength(|f|, peerMax))
                  && (!p.bad ==> p.frames == s.accepted))
  {
    var s := Run(max, es);
    RunLosesNothing(max, es);
    assert bytes <= Encode(s.accepted);
    PartOfEncoded(bytes, s.accepted, peerMax);
    if s.conn.wbuf == [] && bytes == s.conn.wire {
      assert s.conn.wire + s.conn.wbuf == s.conn.wire;
      DecodeOfEncode(s.accepted, peerMax);
    }
  }

  /**
   * End to end: whatever the senders, partial sends and other events, and however the bytes are cut on their way,
   * the client's decoder returns accepted payloads in the order of their locked sections. Once all bytes are fed it
   * has not thrown exactly if it takes all their lengths, and then it has returned all of them; if it has thrown, it
   * has returned all payloads before the rejected one exactly if the feed that threw had completed none of them.
   */
  method StreamEndToEnd(ghost max: nat, ghost es: seq<Event>, chunks: seq<Data>, peerMax: nat)
    returns (frames: seq<Data>, fedChunks: nat)
    requires max < TWO_TO_THE_32 && peerMax < TWO_TO_THE_32
    requires Concat(chunks) <= Run(max, es).conn.wire
    ensures fedChunks <= |chunks| && frames == Parse(Concat(chunks[..fedChunks]), peerMax).frames
    ensures frames <= GoodPrefix(Run(max, es).accepted, peerMax) <= Run(max, es).accepted
    ensures var s := Run(max, es);
            s.conn.wbuf == [] && Concat(chunks) == s.conn.wire ==>
              && (fedChunks == |chunks| <==> forall f :: f in s.accepted ==> 1 <= |f| <= peerMax)
              && (fedChunks == |chunks| ==> frames == s.accepted)
              && (fedChunks < |chunks| ==>
                    (frames == GoodPrefix(s.accepted, peerMax) <==>
                     Parse(Concat(chunks[..fedChunks + 1]), peerMax).frames == frames))
  {
    frames, fedChunks := Decode(chunks, peerMax);
    WireHoldsAccepted(max, es, Concat(chunks), peerMax);
    FedIsPart(chunks, fedChunks, peerMax);
    if fedChunks < |chunks| {
      FedIsPart(chunks, fedChunks + 1, peerMax);
    } else {
      assert chunks[..fedChunks] == chunks;
    }
  }

  /** The frames of the first chunks are among those of all chunks, and all of them if a header was bad. */
  lemma FedIsPart(chunks: seq<Data>, n: nat, max: nat)
    requires n <= |chunks| && max < TWO_TO_THE_32
    ensures var part, all := Parse(Concat(chunks[..n]), max), Parse(Concat(chunks), max);
            part.frames <= all.frames && (part.bad ==> all.frames == part.frames)
  {
    assert chunks == chunks[..n] + chunks[n..];
    ConcatAppend(chunks[..n], chunks[n..]);
    ParsePrefix(Concat(chunks[..n]), Concat(chunks), max);
  }

  lemma RunSnoc(max: nat, es: seq<Event>, e: Event)
    ensures Run(max, es + [e]) == Step(Run(max, es), e)
  {
    assert (es + [e])[..|es|] == es;
  }

  /** A thread sends one payload. */
  lemma SendOne(max: nat, es: seq<Event>, t: nat, p: Data) returns (es': seq<Event>)
    requires var s := Run(max, es); t !in s.senders && !s.conn.closing && !s.conn.closed && |p| <= s.conn.max
    ensures var s := Run(max, es);
            Run(max, es') == s.(conn := s.conn.(wbuf := s.conn.wbuf + Frame(p), posts := s.conn.posts + [Flush]),
                                accepted := s.accepted + [p])
  {
    hide Run, Frame;
    var s := Run(max, es);
    es' := es + [SendCheck(t, p)];
    RunSnoc(max, es, SendCheck(t, p));
    RunSnoc(max, es', SendAppend(t));
    es' := es' + [SendAppend(t)];
    RunSnoc(max, es', SendPost(t));
    es' := es' + [SendPost(t)];
    assert s.senders[t := Appended] - {t} == s.senders;
  }

  /** An empty payload is accepted and sent like any other, for every limit and after any payload. */
  lemma EmptyPayloadIsSent(max: nat, p: Data) returns (es: seq<Event>)
    requires |p| <= max
    ensures var s := Run(max, es);
            s.accepted == [p, []] && s.conn.wbuf == [] && s.conn.wire == Frame(p) + Frame([])
  {
    es := SendOne(max, [], 0, p);
    es := SendOne(max, es, 0, []);
    var s, bytes := Run(max, es), Frame(p) + Frame([]);
    assert s.conn.wbuf == bytes && s.accepted == [p, []] by { assert [] + Frame(p) == Frame(p); }
    var e := ReactorPost([Sent(|bytes|)]);
    RunSnoc(max, es, e);
    es := es + [e];
    assert Run(max, es) == Step(s, e);
    hide Run, Frame;
    SendsAll(s.conn.(posts := s.conn.posts[1..]));
  }

  lemma SendsAll(c: Conn)
    requires c.wbuf != []
    ensures var d := Flushed(c, [Sent(|c.wbuf|)]); d.wbuf == [] && d.wire == c.wire + c.wbuf
  {
    assert c.wbuf[..|c.wbuf|] == c.wbuf && c.wbuf[|c.wbuf|..] == [];
  }

  lemma OnlyTheFirst(p: Data, max: nat)
    requires GoodLength(|p|, max)
    ensures GoodPrefix([p, []], max) == [p]
  {
    assert [p, []][1..] == [[]];
  }

  lemma OneChunk(chunk: Data, max: nat)
    ensures Concat([chunk]) == chunk && Parse(Concat([chunk][..0]), max).frames == []
  {
    ConcatSnoc([], chunk);
    assert [] + [chunk] == [chunk] && [] + chunk == chunk;
  }

  /** Every client rejects it, and loses the payload before it if both come in one chunk. */
  method ThrowLosesFrames(max: nat, p: Data, peerMax: nat) returns (frames: seq<Data>, ghost es: seq<Event>)
    requires max < TWO_TO_THE_32 && peerMax < TWO_TO_THE_32 && |p| <= max && GoodLength(|p|, peerMax)
    ensures var s := Run(max, es);
            s.accepted == [p, []] && s.conn.wbuf == [] && GoodPrefix(s.accepted, peerMax) == [p]
    ensures frames == []
  {
    es := EmptyPayloadIsSent(max, p);
    hide Run, Frame, Concat, Parse, GoodPrefix;
    var chunk := Frame(p) + Frame([]);
    OneChunk(chunk, peerMax);
    OnlyTheFirst(p, peerMax);
    var fed;
    frames, fed := StreamEndToEnd(max, es, [chunk], peerMax);
    assert Run(max, es).accepted[1] == [];
    assert fed == 0;
  }

  /** No stranded output bytes. */
  lemma NoStrandedBytes(max: nat, es: seq<Event>)
    requires max < TWO_TO_THE_32
    ensures var s := Run(max, es);
            && (!s.conn.closing && s.conn.wbuf != [] ==> Attended(s.conn, s.senders))
            && (s.conn.armed ==> s.conn.wbuf != [])
  {
    RunKeeps(max, es);
  }

  /**
   * The close protocol: at most one close callback, directly after the descriptor is closed, and no callback,
   * `recv` or `send` afterwards; a requested close is never lost and never doubled.
   */
  lemma ClosesOnce(max: nat, es: seq<Event>)
    requires max < TWO_TO_THE_32
    ensures var c := Run(max, es).conn;
            && (forall i :: 0 <= i < |c.io| && IsClose(c.io[i]) ==> c.closed && i >= |c.io| - 2)
            && (c.closed ==> |c.io| >= 2 && c.io[|c.io| - 2..] == [CloseDescriptor, CloseCallback])
    ensures OneClose(Run(max, es))
  {
    RunKeeps(max, es);
  }

  lemma ReceivedGrows(s: State, e: Event)
    requires s.conn.max < TWO_TO_THE_32
    ensures s.conn.received <= Step(s, e).conn.received
  {
    match e {
      case ReactorPost(sends) =>
        if s.conn.posts != [] && !s.conn.closed { FlushKeeps(s.conn.(posts := s.conn.posts[1..]), sends); }
      case ReactorEvent(read, write, recvs, sends) =>
        if !s.conn.closed {
          if read { ReadKeeps(s.conn, recvs); }
          if write { FlushKeeps(if read then ReadAll(s.conn, recvs) else s.conn, sends); }
        }
      case _ =>
    }
  }

  lemma {:induction false} ReceivedGrowsInRuns(max: nat, es: seq<Event>, more: seq<Event>)
    requires max < TWO_TO_THE_32
    ensures Run(max, es).conn.received <= Run(max, es + more).conn.received
  {
    if more == [] {
      assert es + more == es;
    } else {
      var n := |more| - 1;
      assert (es + more)[..|es + more| - 1] == es + more[..n];
      ReceivedGrowsInRuns(max, es, more[..n]);
      RunKeeps(max, es + more[..n]);
      ReceivedGrows(Run(max, es + more[..n]), more[n]);
    }
  }

  /**
   * The server's reader computes the pure parser in every run: the frames called back so far are those of the
   * bytes received so far, and once a header was malformed no later event adds one.
   */
  lemma ReaderComputesParse(max: nat, es: seq<Event>, more: seq<Event>)
    requires max < TWO_TO_THE_32
    ensures var c, d := Run(max, es).conn, Run(max, es + more).conn;
            && FramesIn(c.io) == Parse(c.received, max).frames
            && FramesIn(c.io) <= FramesIn(d.io)
            && (Parse(c.received, max).bad ==> FramesIn(d.io) == FramesIn(c.io))
  {
    RunKeeps(max, es);
    RunKeeps(max, es + more);
    ReceivedGrowsInRuns(max, es, more);
    ParsePrefix(Run(max, es).conn.received, Run(max, es + more).conn.received, max);
  }

  // ---- when a callback stops ---------------------------------------

  predicate Quiet(r: RecvResult) { r.Received? || r.RecvInterrupted? }

  /** The bytes of some `recv` results. */
  function Heard(results: seq<RecvResult>): Data {
    if results == [] then []
    else (if results[0].Received? then results[0].data else []) + Heard(results[1..])
  }

  /** Of `results` the reader takes the first `n`, and why it stops there. */
  ghost predicate ReadsUntil(c: Conn, results: seq<RecvResult>, d: Conn, n: nat) {
    && n <= |results| && (forall i :: 0 <= i < n ==> Quiet(results[i]))
    && d.received == c.received + Heard(results[..n])
    && (forall i :: 1 <= i < n ==> results[i - 1].Received? ==> !Parse(c.received + Heard(results[..i]), c.max).bad)
    && (n == |results| || !Quiet(results[n]) || Parse(d.received, c.max).bad)
    && (d.closing <==> || c.closing || Parse(d.received, c.max).bad
                       || (n < |results| && (results[n].EndOfStream? || results[n].RecvFailed?)))
  }

  lemma HeardFirst(results: seq<RecvResult>, n: nat)
    requires 1 <= n <= |results|
    ensures results[..n][1..] == results[1..][..n - 1]
    ensures Heard(results[..n]) == (if results[0].Received? then results[0].data else []) + Heard(results[1..][..n - 1])
  {
    assert results[..n][1..] == results[1..][..n - 1];
  }

  /**
   * The reader reads until the socket has no more, a header is bad, the peer is gone or the call fails; it asks for the
   * close in the last three cases and in no other.
   */
  lemma {:induction false} ReadCloses(c: Conn, results: seq<RecvResult>) returns (n: nat)
    requires Parse(c.received, c.max).bad ==> c.closing
    ensures ReadsUntil(c, results, ReadAll(c, results), n)
    decreases |results|
  {
    hide Parse;
    n := 0;
    assert c.received + Heard(results[..0]) == c.received;
    if results != [] && Quiet(results[0]) {
      var c1 := if results[0].Received? then Took(c, results[0].data) else c.(io := c.io + [Recv]);
      var first := if results[0].Received? then results[0].data else [];
      assert c1.received == c.received + first;
      if results[0].Received? && Parse(c1.received, c.max).bad {
        n := 1;
        HeardFirst(results, 1);
        assert results[1..][..0] == [] && first + [] == first;
      } else {
        var m := ReadCloses(c1, results[1..]);
        n := m + 1;
        ReadsOneMore(c, c1, results, ReadAll(c1, results[1..]), first, m);
      }
    }
  }

  lemma ReadsOneMore(c: Conn, c1: Conn, results: seq<RecvResult>, d: Conn, first: Data, m: nat)
    requires results != [] && Quiet(results[0]) && first == (if results[0].Received? then results[0].data else [])
    requires c1.received == c.received + first && c1.max == c.max && c1.closing == c.closing
    requires results[0].Received? ==> !Parse(c1.received, c.max).bad
    requires ReadsUntil(c1, results[1..], d, m)
    ensures ReadsUntil(c, results, d, m + 1)
  {
    hide Parse, Heard;
    forall i: nat | 1 <= i <= m + 1 ensures c.received + Heard(results[..i]) == c1.received + Heard(results[1..][..i - 1]) {
      HeardFirst(results, i);
      var more := Heard(results[1..][..i - 1]);
      assert Heard(results[..i]) == first + more;
      Assoc(c.received, first, more);
    }
    assert Heard(results[1..][..0]) == [] by { HeardNothing(results[1..][..0]); }
    forall i | 1 <= i < m + 1 && results[i - 1].Received?
      ensures !Parse(c.received + Heard(results[..i]), c.max).bad
    {
      if i == 1 {
        assert c1.received + Heard(results[1..][..0]) == c1.received;
      } else {
        var j := i - 1;
        assert results[1..][j - 1].Received?;
        assert !Parse(c1.received + Heard(results[1..][..j]), c1.max).bad;
      }
    }
  }

  lemma HeardNothing(results: seq<RecvResult>)
    requires results == []
    ensures Heard(results) == []
  {
  }

  /** A bad header is always answered with a close. */
  ghost predicate BadIsClosing(c: Conn) { Parse(c.received, c.max).bad ==> c.closing }

  lemma StepKeepsBadClosing(s: State, e: Event)
    requires Inv(s, s.conn.max) && BadIsClosing(s.conn)
    ensures BadIsClosing(Step(s, e).conn)
  {
    hide Parse;
    var c := s.conn;
    match e {
      case ReactorPost(sends) =>
        if c.posts != [] && !c.closed { FlushKeeps(c.(posts := c.posts[1..]), sends); }
      case ReactorEvent(read, write, recvs, sends) =>
        if !c.closed {
          var d := c;
          if read {
            d := ReadAll(c, recvs);
            ReadKeeps(c, recvs);
            var _ := ReadCloses(c, recvs);
          }
          if write { FlushKeeps(d, sends); }
        }
      case _ =>
    }
  }

  /** In every run a connection that has received a bad header is closing. */
  lemma {:induction false} BadHeaderCloses(max: nat, es: seq<Event>)
    requires max < TWO_TO_THE_32
    ensures var c := Run(max, es).conn; Parse(c.received, max).bad ==> c.closing
    ensures Run(max, es).conn.max == max
  {
    RunKeeps(max, es);
    if es != [] {
      var before := es[..|es| - 1];
      BadHeaderCloses(max, before);
      RunKeeps(max, before);
      hide Parse, Step;
      StepKeepsBadClosing(Run(max, before), es[|es| - 1]);
    }
  }

  /** The bytes that some `send` results take. */
  function Taking(results: seq<SendResult>): nat {
    if results == [] then 0 else (if results[0].Sent? then results[0].n else 0) + Taking(results[1..])
  }

  /**
   * A flush sends until the buffer is empty, the socket is full or the call fails: it takes all that the first `n`
   * results take, and stops there only for one of these reasons.
   */
  lemma {:induction false} FlushSends(c: Conn, results: seq<SendResult>) returns (n: nat)
    ensures n <= |results|
    ensures forall i :: 0 <= i < n ==> results[i].Sent? || results[i].SendInterrupted?
    ensures var d := Flushed(c, results);
            && (d.wbuf == [] || n == |results| || results[n].SendWouldBlock? || results[n].SendFailed?)
            && (d.wbuf != [] ==> |d.wire| == |c.wire| + Taking(results[..n]))
            && (d.wbuf != [] && n < |results| && results[n].SendFailed? ==> d.posts == c.posts + [RequestClose])
    decreases |results|
  {
    n := 0;
    if c.wbuf != [] && results != [] && (results[0].Sent? || results[0].SendInterrupted?) {
      var c1 := c.(io := c.io + [Send([])]);
      if results[0].Sent? {
        var k := Taken(c, results[0].n);
        c1 := c.(wbuf := c.wbuf[k..], wire := c.wire + c.wbuf[..k], io := c.io + [Send(c.wbuf[..k])]);
      }
      var m := FlushSends(c1, results[1..]);
      n := m + 1;
      assert results[..n][1..] == results[1..][..m];
    }
  }

  /** A writable event on an open connection, with room in the socket, puts all buffered bytes on the wire. */
  lemma WritableSends(c: Conn)
    requires !c.closed && c.wbuf != []
    ensures var d := Handled(c, false, true, [], [Sent(|c.wbuf|)]); d.wbuf == [] && d.wire == c.wire + c.wbuf && !d.armed
  {
    SendsAll(c);
  }

  // ---- the sections of one call in a row ---------------------------

  /** The three sections of `send_frame`, with nobody in between, do what the call does. */
  lemma SendSections(s: State, t: nat, p: Data)
    requires t !in s.senders
    ensures var c, s' := s.conn, Step(Step(Step(s, SendCheck(t, p)), SendAppend(t)), SendPost(t));
            if !c.closing && !c.closed && |p| <= c.max then
              && s'.conn == c.(wbuf := c.wbuf + Frame(p), posts := c.posts + [Flush])
              && s'.accepted == s.accepted + [p]
            else s' == s
  {
    hide Frame;
  }

  /** The two sections of `schedule_close` do what the call does. */
  lemma CloseSections(s: State, t: nat)
    requires t !in s.closers
    ensures Step(Step(s, CloseExchange(t)), ClosePost(t)).conn ==
            if s.conn.closing then s.conn else s.conn.(closing := true, posts := s.conn.posts + [DeliverClose])
  {
  }
}
