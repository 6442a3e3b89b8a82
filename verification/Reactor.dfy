/**
 * Posting closures to the event loop (`post`, the wake branch of `run`, `drain_posts`, `stop` in net/reactor_epoll
 * and net/reactor_select). One abstract protocol with a wake signal that is up or down, and the two concrete
 * reactors, whose signal is an eventfd counter and the bytes in a socket pair, refining it.
 */
module Reactor {

  /** Where the loop thread is: waiting for events, between taking the signal down and the swap, or in a batch. */
  datatype Loop<F> = Polling | Lowering | Executing(batch: seq<F>) | Stopped

  datatype State<F> = State(
    pending: seq<F>, raised: bool,
    /** Threads between pushing a closure and raising the signal. */
    posters: set<nat>,
    loop: Loop<F>,
    // histories: closures in the order they were pushed, and in the order they ran
    posted: seq<F>, ran: seq<F>)

  datatype Event<F> =
    | Push(t: nat, fn: F)
    | Signal(t: nat)
    | Raise
    | Lower(keep: bool)
    | Swap
    | RunOne
    | EndBatch
    | Exit
    | Idle

  function Init<F>(): State<F> {
    State([], false, {}, Polling, [], [])
  }

  function Step<F>(s: State<F>, e: Event<F>): State<F> {
    match e
    case Push(t, fn) =>
      if t in s.posters then s
      else s.(pending := s.pending + [fn], posted := s.posted + [fn], posters := s.posters + {t})
    case Signal(t) => if t in s.posters then s.(raised := true, posters := s.posters - {t}) else s
    case Raise => s.(raised := true)
    case Lower(keep) =>
      if (s.loop.Polling? && s.raised) || s.loop.Lowering? then s.(raised := s.raised && keep, loop := Lowering) else s
    case Swap => if s.loop.Lowering? then s.(loop := Executing(s.pending), pending := []) else s
    case RunOne =>
      if s.loop.Executing? && s.loop.batch != [] then
        s.(ran := s.ran + [s.loop.batch[0]], loop := Executing(s.loop.batch[1..]))
      else s
    case EndBatch => if s.loop == Executing([]) then s.(loop := Polling) else s
    case Exit => if s.loop.Polling? then s.(loop := Stopped) else s
    case Idle => s
  }

  function Run<F>(es: seq<Event<F>>): State<F> {
    if es == [] then Init() else Step(Run(es[..|es| - 1]), es[|es| - 1])
  }

  function Batch<F>(loop: Loop<F>): seq<F> {
    if loop.Executing? then loop.batch else []
  }

  /** What has run, what is left of the batch and what is pending are the posts, each once and in order. */
  ghost predicate InOrder<F>(s: State<F>) {
    s.posted == s.ran + Batch(s.loop) + s.pending
  }

  /** While the loop runs, a pending closure has a wake-up on its way. */
  ghost predicate WakePending<F>(s: State<F>) {
    !s.loop.Stopped? && s.pending != [] ==> s.raised || s.posters != {} || s.loop.Lowering?
  }

  ghost predicate Inv<F>(s: State<F>) {
    InOrder(s) && WakePending(s)
  }

  lemma StepKeeps<F>(s: State<F>, e: Event<F>)
    requires Inv(s)
    ensures Inv(Step(s, e))
  {
    match e {
      case Push(t, fn) => if t !in s.posters { assert t in Step(s, e).posters; }
      case RunOne =>
        if s.loop.Executing? && s.loop.batch != [] {
          var b := s.loop.batch;
          assert s.ran + b + s.pending == s.ran + [b[0]] + b[1..] + s.pending;
        }
      case _ =>
    }
  }

  lemma {:induction false} RunKeeps<F>(es: seq<Event<F>>)
    ensures Inv(Run(es))
  {
    if es != [] {
      RunKeeps(es[..|es| - 1]);
      StepKeeps(Run(es[..|es| - 1]), es[|es| - 1]);
    }
  }

  /** A loop that waits with its signal up takes the signal down and everything that is pending. */
  lemma WakeTakesAll<F>(s: State<F>)
    requires s.loop.Polling? && s.raised
    ensures var s' := Step(Step(s, Lower(false)), Swap);
            s'.loop == Executing(s.pending) && s'.pending == [] && !s'.raised && s'.ran == s.ran
  {
  }

  /** Then it runs the batch, oldest first, and waits again. */
  lemma {:induction false} BatchRuns<F>(s: State<F>) returns (es: seq<Event<F>>)
    requires s.loop.Executing?
    ensures Onwards(s, es) == s.(loop := Polling, ran := s.ran + s.loop.batch)
    decreases |Batch(s.loop)|
  {
    var b := s.loop.batch;
    if b == [] {
      es := [EndBatch];
      assert es[1..] == [] && s.ran + b == s.ran;
    } else {
      var rest := BatchRuns(Step(s, RunOne));
      es := [RunOne] + rest;
      assert es[1..] == rest && s.ran + [b[0]] + b[1..] == s.ran + b;
    }
  }

  function Onwards<F>(s: State<F>, es: seq<Event<F>>): State<F>
    decreases |es|
  {
    if es == [] then s else Onwards(Step(s, es[0]), es[1..])
  }

  lemma RunSnoc<F>(es: seq<Event<F>>, e: Event<F>)
    ensures Run(es + [e]) == Step(Run(es), e)
  {
    assert (es + [e])[..|es|] == es;
  }
}

/** The epoll reactor: the signal is the counter of a non-blocking eventfd. */
module EpollReactor {
  import R = Reactor

  /** The largest value an eventfd holds; a write that would pass it fails and changes nothing. */
  const MAX_COUNTER: nat := 0xFFFF_FFFF_FFFF_FFFE

  datatype State<F> = State(
    pending: seq<F>, counter: nat, stopping: bool, posters: set<nat>,
    loop: R.Loop<F>, posted: seq<F>, ran: seq<F>)

  datatype Event<F> =
    | Push(t: nat, fn: F)     // the locked section of `post`
    | Write(t: nat)           // its eventfd write
    | StopStore
    | StopWrite
    | Wake                    // epoll_wait reports the eventfd and the loop reads it
    | Swap
    | RunOne
    | EndBatch
    | ExitStopping            // the loop test sees `stopping_`
    | ExitError               // epoll_wait fails

  function Init<F>(): State<F> {
    State([], 0, false, {}, R.Polling, [], [])
  }

  function Written(counter: nat): nat {
    if counter < MAX_COUNTER then counter + 1 else counter
  }

  function Step<F>(s: State<F>, e: Event<F>): State<F> {
    match e
    case Push(t, fn) =>
      if t in s.posters then s
      else s.(pending := s.pending + [fn], posted := s.posted + [fn], posters := s.posters + {t})
    case Write(t) => if t in s.posters then s.(counter := Written(s.counter), posters := s.posters - {t}) else s
    case StopStore => s.(stopping := true)
    case StopWrite => s.(counter := Written(s.counter))
    case Wake => if s.loop.Polling? && s.counter > 0 then s.(counter := 0, loop := R.Lowering) else s
    case Swap => if s.loop.Lowering? then s.(loop := R.Executing(s.pending), pending := []) else s
    case RunOne =>
      if s.loop.Executing? && s.loop.batch != [] then
        s.(ran := s.ran + [s.loop.batch[0]], loop := R.Executing(s.loop.batch[1..]))
      else s
    case EndBatch => if s.loop == R.Executing([]) then s.(loop := R.Polling) else s
    case ExitStopping => if s.loop.Polling? && s.stopping then s.(loop := R.Stopped) else s
    case ExitError => if s.loop.Polling? then s.(loop := R.Stopped) else s
  }

  function Run<F>(es: seq<Event<F>>): State<F> {
    if es == [] then Init() else Step(Run(es[..|es| - 1]), es[|es| - 1])
  }

  function Abs<F>(s: State<F>): R.State<F> {
    R.State(s.pending, s.counter > 0, s.posters, s.loop, s.posted, s.ran)
  }

  /** The abstract event that a concrete one implements. */
  function AbsEvent<F>(s: State<F>, e: Event<F>): R.Event<F> {
    match e
    case Push(t, fn) => R.Push(t, fn)
    case Write(t) => R.Signal(t)
    case StopStore => R.Idle
    case StopWrite => R.Raise
    case Wake => if s.loop.Polling? then R.Lower(false) else R.Idle
    case Swap => R.Swap
    case RunOne => R.RunOne
    case EndBatch => R.EndBatch
    case ExitStopping => if s.stopping then R.Exit else R.Idle
    case ExitError => R.Exit
  }

  function AbsEvents<F>(es: seq<Event<F>>): seq<R.Event<F>> {
    if es == [] then []
    else AbsEvents(es[..|es| - 1]) + [AbsEvent(Run(es[..|es| - 1]), es[|es| - 1])]
  }

  lemma StepRefines<F>(s: State<F>, e: Event<F>)
    ensures Abs(Step(s, e)) == R.Step(Abs(s), AbsEvent(s, e))
  {
  }

  /** Every run of the epoll reactor is a run of the abstract protocol. */
  lemma {:induction false} Refines<F>(es: seq<Event<F>>)
    ensures Abs(Run(es)) == R.Run(AbsEvents(es))
  {
    if es != [] {
      var before, e := es[..|es| - 1], es[|es| - 1];
      Refines(before);
      StepRefines(Run(before), e);
      R.RunSnoc(AbsEvents(before), AbsEvent(Run(before), e));
    }
  }

  /** Closures run in post order, each at most once, and no wake-up is lost while the loop runs. */
  lemma PostsAreKept<F>(es: seq<Event<F>>)
    ensures var s := Run(es);
            && s.posted == s.ran + R.Batch(s.loop) + s.pending
            && (!s.loop.Stopped? && s.pending != [] ==> s.counter > 0 || s.posters != {} || s.loop.Lowering?)
  {
    Refines(es);
    R.RunKeeps(AbsEvents(es));
  }
}

/** The select reactor: the signal is the bytes in a non-blocking socket pair of some capacity. */
module SelectReactor {
  import R = Reactor

  datatype State<F> = State(
    capacity: nat,
    pending: seq<F>, bytes: nat, stopping: bool, posters: set<nat>,
    loop: R.Loop<F>, posted: seq<F>, ran: seq<F>)

  datatype Event<F> =
    | Push(t: nat, fn: F)     // the locked section of `post`
    | Send(t: nat)            // its one-byte send
    | StopStore
    | StopSend
    | Recv(n: nat)            // one call of the draining loop takes `n` bytes, at most 64
    | Swap                    // a call returned no bytes, for whatever reason
    | RunOne
    | EndBatch
    | ExitStopping
    | ExitError

  const CHUNK: nat := 64

  function Init<F>(capacity: nat): State<F> {
    State(capacity, [], 0, false, {}, R.Polling, [], [])
  }

  /** A send to a full buffer fails and changes nothing. */
  function Written<F>(s: State<F>): nat {
    if s.bytes < s.capacity then s.bytes + 1 else s.bytes
  }

  function Step<F>(s: State<F>, e: Event<F>): State<F> {
    match e
    case Push(t, fn) =>
      if t in s.posters then s
      else s.(pending := s.pending + [fn], posted := s.posted + [fn], posters := s.posters + {t})
    case Send(t) => if t in s.posters then s.(bytes := Written(s), posters := s.posters - {t}) else s
    case StopStore => s.(stopping := true)
    case StopSend => s.(bytes := Written(s))
    case Recv(n) =>
      if n <= CHUNK && n <= s.bytes && ((s.loop.Polling? && s.bytes > 0) || s.loop.Lowering?) then
        s.(bytes := s.bytes - n, loop := R.Lowering)
      else s
    case Swap => if s.loop.Lowering? then s.(loop := R.Executing(s.pending), pending := []) else s
    case RunOne =>
      if s.loop.Executing? && s.loop.batch != [] then
        s.(ran := s.ran + [s.loop.batch[0]], loop := R.Executing(s.loop.batch[1..]))
      else s
    case EndBatch => if s.loop == R.Executing([]) then s.(loop := R.Polling) else s
    case ExitStopping => if s.loop.Polling? && s.stopping then s.(loop := R.Stopped) else s
    case ExitError => if s.loop.Polling? then s.(loop := R.Stopped) else s
  }

  function Run<F>(capacity: nat, es: seq<Event<F>>): State<F> {
    if es == [] then Init(capacity) else Step(Run(capacity, es[..|es| - 1]), es[|es| - 1])
  }

  function Abs<F>(s: State<F>): R.State<F> {
    R.State(s.pending, s.bytes > 0, s.posters, s.loop, s.posted, s.ran)
  }

  function AbsEvent<F>(s: State<F>, e: Event<F>): R.Event<F> {
    match e
    case Push(t, fn) => R.Push(t, fn)
    case Send(t) => R.Signal(t)
    case StopStore => R.Idle
    case StopSend => R.Raise
    case Recv(n) => if n <= CHUNK && n <= s.bytes then R.Lower(n < s.bytes) else R.Idle
    case Swap => R.Swap
    case RunOne => R.RunOne
    case EndBatch => R.EndBatch
    case ExitStopping => if s.stopping then R.Exit else R.Idle
    case ExitError => R.Exit
  }

  function AbsEvents<F>(capacity: nat, es: seq<Event<F>>): seq<R.Event<F>> {
    if es == [] then []
    else AbsEvents(capacity, es[..|es| - 1]) + [AbsEvent(Run(capacity, es[..|es| - 1]), es[|es| - 1])]
  }

  lemma StepRefines<F>(s: State<F>, e: Event<F>)
    requires s.capacity > 0
    ensures Step(s, e).capacity == s.capacity
    ensures Abs(Step(s, e)) == R.Step(Abs(s), AbsEvent(s, e))
  {
  }

  /** Every run of the select reactor is a run of the same abstract protocol. */
  lemma {:induction false} Refines<F>(capacity: nat, es: seq<Event<F>>)
    requires capacity > 0
    ensures Run<F>(capacity, es).capacity == capacity
    ensures Abs(Run(capacity, es)) == R.Run(AbsEvents(capacity, es))
  {
    if es != [] {
      var before, e := es[..|es| - 1], es[|es| - 1];
      var s := Run(capacity, before);
      Refines(capacity, before);
      StepRefines(s, e);
      R.RunSnoc(AbsEvents(capacity, before), AbsEvent(s, e));
      assert AbsEvents(capacity, es) == AbsEvents(capacity, before) + [AbsEvent(s, e)];
      assert Run(capacity, es) == Step(s, e);
    }
  }

  lemma PostsAreKept<F>(capacity: nat, es: seq<Event<F>>)
    requires capacity > 0
    ensures var s := Run(capacity, es);
            && s.posted == s.ran + R.Batch(s.loop) + s.pending
            && (!s.loop.Stopped? && s.pending != [] ==> s.bytes > 0 || s.posters != {} || s.loop.Lowering?)
  {
    Refines(capacity, es);
    R.RunKeeps(AbsEvents(capacity, es));
  }
}
