/**
 * The worker pool (`ThreadPool` in common/thread_pool) as a step system over every interleaving of submitters,
 * workers and shutdown. The mutex is explicit; `stopping_` is an atomic read and written without it, so every
 * load and store of it is a step of its own. A worker blocked in `cv_.wait` is one at `Outside`: whether and when
 * it wakes is not modelled, so nothing here says that a task runs soon.
 */
module ThreadPool {

  datatype Owner = Free | ByWorker(w: nat) | BySubmitter(t: nat)

  datatype Worker =
    | Outside                 // at the loop top or in `cv_.wait`, without the mutex
    | Inside                  // holds the mutex, about to test the wait predicate
    | Passed                  // holds the mutex, the predicate was true
    | Running(ticket: nat)    // runs the task that was popped as number `ticket`
    | Exited

  datatype Submitter<Task> =
    | Checked(task: Task)     // saw `stopping_` false, waits for the mutex
    | Locked(task: Task)      // holds the mutex
    | Admitted(task: Task)    // holds the mutex, saw `stopping_` false again

  datatype State<Task> = State(
    q: seq<Task>, stopping: bool, lock: Owner,
    workers: seq<Worker>, submitters: map<nat, Submitter<Task>>,
    // histories: tasks whose `submit` returns true, tasks popped, tickets of the tasks that have run
    accepted: seq<Task>, popped: seq<Task>, ran: seq<nat>)

  datatype Event<Task> =
    | SubmitCheck(t: nat, task: Task)
    | SubmitLock(t: nat)
    | SubmitRecheck(t: nat)
    | SubmitPush(t: nat)
    | Shutdown
    | WorkerLock(w: nat)
    | WorkerTest(w: nat)
    | WorkerTake(w: nat)
    | WorkerDone(w: nat)

  /** A pool asked for no workers gets one. */
  function Init<Task>(n: nat): State<Task> {
    State([], false, Free, seq(if n == 0 then 1 else n, _ => Outside), map[], [], [], [])
  }

  predicate At<Task>(s: State<Task>, w: nat, pc: Worker) {
    w < |s.workers| && s.workers[w] == pc
  }

  function Step<Task>(s: State<Task>, e: Event<Task>): State<Task> {
    match e
    case SubmitCheck(t, task) =>
      if t in s.submitters || s.stopping then s else s.(submitters := s.submitters[t := Checked(task)])
    case SubmitLock(t) =>
      if t in s.submitters && s.submitters[t].Checked? && s.lock.Free? then
        s.(lock := BySubmitter(t), submitters := s.submitters[t := Locked(s.submitters[t].task)])
      else s
    case SubmitRecheck(t) =>
      if t in s.submitters && s.submitters[t].Locked? then
        if s.stopping then s.(lock := Free, submitters := s.submitters - {t})
        else s.(submitters := s.submitters[t := Admitted(s.submitters[t].task)])
      else s
    case SubmitPush(t) =>
      if t in s.submitters && s.submitters[t].Admitted? then
        var task := s.submitters[t].task;
        s.(q := s.q + [task], accepted := s.accepted + [task], lock := Free, submitters := s.submitters - {t})
      else s
    case Shutdown => s.(stopping := true)
    case WorkerLock(w) =>
      if At(s, w, Outside) && s.lock.Free? then s.(lock := ByWorker(w), workers := s.workers[w := Inside]) else s
    case WorkerTest(w) =>
      if !At(s, w, Inside) then s
      else if s.stopping || s.q != [] then s.(workers := s.workers[w := Passed])
      else s.(lock := Free, workers := s.workers[w := Outside])
    case WorkerTake(w) =>
      if !At(s, w, Passed) then s
      else if s.q == [] then
        s.(lock := Free, workers := s.workers[w := if s.stopping then Exited else Outside])
      else
        s.(q := s.q[1..], popped := s.popped + [s.q[0]],
           lock := Free, workers := s.workers[w := Running(|s.popped|)])
    case WorkerDone(w) =>
      if w < |s.workers| && s.workers[w].Running? then
        s.(ran := s.ran + [s.workers[w].ticket], workers := s.workers[w := Outside])
      else s
  }

  function Run<Task>(n: nat, es: seq<Event<Task>>): State<Task> {
    if es == [] then Init(n) else Step(Run(n, es[..|es| - 1]), es[|es| - 1])
  }

  // ---- invariant ---------------------------------------------------

  /** The mutex belongs to whoever is inside a locked section. */
  ghost predicate Exclusive<Task>(s: State<Task>) {
    && (forall w :: 0 <= w < |s.workers| && (s.workers[w].Inside? || s.workers[w].Passed?) ==> s.lock == ByWorker(w))
    && (forall t :: t in s.submitters && !s.submitters[t].Checked? ==> s.lock == BySubmitter(t))
  }

  ghost predicate Busy<Task>(s: State<Task>, ticket: nat) {
    exists w :: At(s, w, Running(ticket))
  }

  /** Every popped task has run once or is running on one worker. */
  ghost predicate Accounted<Task>(s: State<Task>) {
    && (forall i, j :: 0 <= i < j < |s.ran| ==> s.ran[i] != s.ran[j])
    && (forall k :: k in s.ran ==> k < |s.popped|)
    && (forall w :: 0 <= w < |s.workers| && s.workers[w].Running? ==>
          s.workers[w].ticket < |s.popped| && s.workers[w].ticket !in s.ran)
    && (forall v, w :: 0 <= v < w < |s.workers| && s.workers[v].Running? ==> s.workers[v] != s.workers[w])
    && (forall k: nat :: k < |s.popped| ==> k in s.ran || Busy(s, k))
  }

  ghost predicate AnyExited<Task>(s: State<Task>) {
    exists w :: At(s, w, Exited)
  }

  /** After the first exit nothing is queued and no submitter can still get in. */
  ghost predicate Drained<Task>(s: State<Task>) {
    AnyExited(s) ==>
      s.stopping && s.q == [] && forall t :: t in s.submitters ==> !s.submitters[t].Admitted?
  }

  ghost predicate Inv<Task>(s: State<Task>) {
    && |s.workers| > 0
    && s.accepted == s.popped + s.q
    && Exclusive(s) && Accounted(s) && Drained(s)
  }

  lemma TakeKeeps<Task>(s: State<Task>, w: nat)
    requires Inv(s) && At(s, w, Passed) && s.q != []
    ensures Inv(Step(s, WorkerTake(w)))
  {
    var s' := Step(s, WorkerTake(w));
    assert s.q == [s.q[0]] + s.q[1..];
    assert At(s', w, Running(|s.popped|));
    forall k: nat | k < |s'.popped| ensures k in s'.ran || Busy(s', k) {
      if k < |s.popped| && k !in s.ran {
        var v :| At(s, v, Running(k));
        assert At(s', v, Running(k));
      }
    }
    if v :| At(s', v, Exited) { assert At(s, v, Exited); }
  }

  lemma DoneKeeps<Task>(s: State<Task>, w: nat)
    requires Inv(s) && w < |s.workers| && s.workers[w].Running?
    ensures Inv(Step(s, WorkerDone(w)))
  {
    var s' := Step(s, WorkerDone(w));
    forall k: nat | k < |s'.popped| ensures k in s'.ran || Busy(s', k) {
      if k in s.ran {
        var i :| 0 <= i < |s.ran| && s.ran[i] == k;
        assert s'.ran[i] == k;
      } else if k == s.workers[w].ticket {
        assert s'.ran[|s.ran|] == k;
      } else {
        var v :| At(s, v, Running(k));
        assert At(s', v, Running(k));
      }
    }
    if v :| At(s', v, Exited) { assert At(s, v, Exited); }
  }

  /** Steps of a worker that neither take nor finish a task. */
  lemma WorkerMoveKeeps<Task>(s: State<Task>, w: nat, pc: Worker, lock: Owner)
    requires Inv(s) && w < |s.workers| && !s.workers[w].Running? && !pc.Running?
    requires lock == (if pc.Inside? || pc.Passed? then ByWorker(w) else Free)
    requires if s.workers[w].Inside? || s.workers[w].Passed? then s.lock == ByWorker(w) else s.lock == Free
    requires pc.Exited? ==> s.stopping && s.q == []
    requires !s.workers[w].Exited?
    ensures Inv(s.(lock := lock, workers := s.workers[w := pc]))
  {
    var s' := s.(lock := lock, workers := s.workers[w := pc]);
    forall k: nat | k < |s'.popped| ensures k in s'.ran || Busy(s', k) {
      if k !in s.ran {
        var v :| At(s, v, Running(k));
        assert At(s', v, Running(k));
      }
    }
    if v :| At(s', v, Exited) && v != w { assert At(s, v, Exited); }
  }

  lemma SubmitterKeeps<Task>(s: State<Task>, e: Event<Task>)
    requires Inv(s) && (e.SubmitCheck? || e.SubmitLock? || e.SubmitRecheck? || e.SubmitPush? || e.Shutdown?)
    ensures Inv(Step(s, e))
  {
    var s' := Step(s, e);
    assert s'.workers == s.workers;
    forall k: nat | k < |s'.popped| ensures k in s'.ran || Busy(s', k) {
      if k !in s.ran {
        var v :| At(s, v, Running(k));
        assert At(s', v, Running(k));
      }
    }
    if v :| At(s', v, Exited) { assert At(s, v, Exited); }
  }

  lemma StepKeeps<Task>(s: State<Task>, e: Event<Task>)
    requires Inv(s)
    ensures Inv(Step(s, e))
  {
    match e {
      case WorkerLock(w) => if At(s, w, Outside) && s.lock.Free? { WorkerMoveKeeps(s, w, Inside, ByWorker(w)); }
      case WorkerTest(w) =>
        if At(s, w, Inside) {
          if s.stopping || s.q != [] {
            WorkerMoveKeeps(s, w, Passed, ByWorker(w));
            assert s.(workers := s.workers[w := Passed]) == s.(lock := ByWorker(w), workers := s.workers[w := Passed]);
          } else {
            WorkerMoveKeeps(s, w, Outside, Free);
          }
        }
      case WorkerTake(w) =>
        if At(s, w, Passed) {
          if s.q != [] { TakeKeeps(s, w); } else { WorkerMoveKeeps(s, w, if s.stopping then Exited else Outside, Free); }
        }
      case WorkerDone(w) => if w < |s.workers| && s.workers[w].Running? { DoneKeeps(s, w); }
      case _ => SubmitterKeeps(s, e);
    }
  }

  lemma {:induction false} RunKeeps<Task>(n: nat, es: seq<Event<Task>>)
    ensures Inv(Run(n, es))
  {
    if es != [] {
      RunKeeps(n, es[..|es| - 1]);
      StepKeeps(Run(n, es[..|es| - 1]), es[|es| - 1]);
    }
  }

  // ---- theorems over every run -------------------------------------

  /** Tasks are popped in acceptance order, and no popped task is lost or started twice. */
  lemma FirstInFirstOut<Task>(n: nat, es: seq<Event<Task>>)
    ensures var s := Run(n, es);
            s.accepted == s.popped + s.q && Accounted(s)
  {
    RunKeeps(n, es);
  }

  lemma ExitStep<Task>(s: State<Task>, e: Event<Task>)
    requires Inv(s) && AnyExited(s)
    ensures AnyExited(Step(s, e)) && Step(s, e).q == [] && Step(s, e).accepted == s.accepted
  {
    var w :| At(s, w, Exited);
    assert At(Step(s, e), w, Exited);
    StepKeeps(s, e);
  }

  /** Once any worker has exited the queue is empty, and no continuation of the run accepts another task. */
  lemma {:induction false} ExitIsFinal<Task>(n: nat, es: seq<Event<Task>>, more: seq<Event<Task>>)
    requires AnyExited(Run(n, es))
    ensures var s, s' := Run(n, es), Run(n, es + more);
            AnyExited(s') && s'.q == [] && s'.accepted == s.accepted
  {
    if more == [] {
      assert es + more == es;
      RunKeeps(n, es);
    } else {
      var m := |more| - 1;
      assert (es + more)[..|es + more| - 1] == es + more[..m];
      ExitIsFinal(n, es, more[..m]);
      RunKeeps(n, es + more[..m]);
      ExitStep(Run(n, es + more[..m]), more[m]);
    }
  }

  /** When `shutdown` has joined all workers, every accepted task has run exactly once. */
  lemma ShutdownDrains<Task>(n: nat, es: seq<Event<Task>>)
    requires forall w :: 0 <= w < |Run(n, es).workers| ==> Run(n, es).workers[w].Exited?
    ensures var s := Run(n, es);
            && s.popped == s.accepted
            && |s.ran| == |s.accepted|
            && (forall k: nat :: k < |s.accepted| <==> k in s.ran)
            && (forall i, j :: 0 <= i < j < |s.ran| ==> s.ran[i] != s.ran[j])
  {
    var s := Run(n, es);
    RunKeeps(n, es);
    assert At(s, 0, Exited);
    forall k: nat | k < |s.accepted| ensures k in s.ran {
      assert !Busy(s, k);
    }
    Pigeonhole(s.ran, |s.accepted|);
  }

  /** A duplicate-free list of exactly the numbers below `n` has length `n`. */
  lemma {:induction false} Pigeonhole(xs: seq<nat>, n: nat)
    requires forall i, j :: 0 <= i < j < |xs| ==> xs[i] != xs[j]
    requires forall k: nat :: k < n <==> k in xs
    ensures |xs| == n
  {
    if n == 0 {
      assert forall i :: 0 <= i < |xs| ==> xs[i] in xs;
    } else {
      assert n - 1 in xs;
      var i :| 0 <= i < |xs| && xs[i] == n - 1;
      var ys := xs[..i] + xs[i + 1..];
      forall k: nat ensures k < n - 1 <==> k in ys {
        if k < n - 1 {
          assert k in xs;
          var j :| 0 <= j < |xs| && xs[j] == k;
          assert ys[if j < i then j else j - 1] == k;
        }
        if k in ys {
          var j :| 0 <= j < |ys| && ys[j] == k;
          var j' := if j < i then j else j + 1;
          assert xs[j'] == k && k in xs && j' != i;
        }
      }
      Pigeonhole(ys, n - 1);
    }
  }

  // ---- what the steps achieve --------------------------------------

  /** With the mutex free and no shutdown, a submit is accepted and queued last. */
  lemma SubmitIsAccepted<Task>(s: State<Task>, t: nat, task: Task)
    requires !s.stopping && s.lock.Free? && t !in s.submitters
    ensures var s' := Step(Step(Step(Step(s, SubmitCheck(t, task)), SubmitLock(t)), SubmitRecheck(t)), SubmitPush(t));
            s' == s.(q := s.q + [task], accepted := s.accepted + [task])
  {
    var s1 := Step(s, SubmitCheck(t, task));
    var s2 := Step(s1, SubmitLock(t));
    var s3 := Step(s2, SubmitRecheck(t));
    assert s3.submitters == s.submitters[t := Admitted(task)];
    assert s3.submitters - {t} == s.submitters;
  }

  /** Once the pool is stopping no submit gets in, whichever of its two tests sees it. */
  lemma SubmitIsRefused<Task>(s: State<Task>, t: nat, task: Task)
    requires s.stopping
    ensures t !in s.submitters ==> Step(s, SubmitCheck(t, task)) == s
    ensures t in s.submitters && s.submitters[t].Locked? ==>
              var s' := Step(s, SubmitRecheck(t)); t !in s'.submitters && s'.lock.Free? && s'.q == s.q
  {
  }

  /** With the mutex free an idle worker pops the oldest task, runs it and is idle again. */
  lemma WorkerRunsOldest<Task>(s: State<Task>, w: nat)
    requires At(s, w, Outside) && s.lock.Free? && s.q != []
    ensures var s' := Step(Step(Step(Step(s, WorkerLock(w)), WorkerTest(w)), WorkerTake(w)), WorkerDone(w));
            s' == s.(q := s.q[1..], popped := s.popped + [s.q[0]], ran := s.ran + [|s.popped|])
  {
    var s1 := Step(s, WorkerLock(w));
    var s2 := Step(s1, WorkerTest(w));
    var s3 := Step(s2, WorkerTake(w));
    assert s3.workers == s.workers[w := Running(|s.popped|)];
    assert s.workers[w := Running(|s.popped|)][w := Outside] == s.workers;
  }

  /** An idle worker of a stopping pool with nothing queued exits; of a running pool it goes on waiting. */
  lemma IdleWorkerExitsIffStopping<Task>(s: State<Task>, w: nat)
    requires At(s, w, Outside) && s.lock.Free? && s.q == []
    ensures var s' := Step(Step(Step(s, WorkerLock(w)), WorkerTest(w)), WorkerTake(w));
            s'.lock.Free? && At(s', w, if s.stopping then Exited else Outside)
  {
  }
}
