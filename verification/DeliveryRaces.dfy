/** What the interleavings of `DeliverySteps` can cost a user, and exactly when. */
module DeliveryRaces {
  import opened DeliverySteps
  import P = Presence
  import S = Store

  // ---- what interleaving can cost ----------------------------------

  /** A replay that has drained a queue finds the user offline again. */
  predicate Drops(s: State, e: Event) {
    && e.Go? && e.worker in s.workers && s.workers[e.worker].ReplayRead?
    && s.workers[e.worker].pending != [] && s.workers[e.worker].user !in s.presence
  }

  /** A copy is queued for a user who has come online since, with no replay still to drain the queue. */
  ghost predicate Strands(s: State, e: Event) {
    && e.Go? && e.worker in s.workers && (s.workers[e.worker].DmEnqueue? || s.workers[e.worker].RoomEnqueue?)
    && var u := if s.workers[e.worker].DmEnqueue? then s.workers[e.worker].receiver else s.workers[e.worker].member;
       u in s.presence && !DrainComing(s, u)
  }

  ghost predicate DrainComing(s: State, u: nat) {
    exists w :: w in s.workers && s.workers[w] == Drain(u)
  }

  /** An online user's queue is empty, or about to be drained. */
  ghost predicate Settled(s: State) {
    forall u :: u in s.presence && S.Queue(s.undelivered, u) != [] ==> DrainComing(s, u)
  }

  lemma DropsOnlySo(s: State, e: Event)
    ensures s.dropped <= Step(s, e).dropped
    ensures Step(s, e).dropped != s.dropped <==> Drops(s, e)
  {
    if e.Go? && e.worker in s.workers && s.workers[e.worker].ReplayRead? {
      var pc := s.workers[e.worker];
      assert Step(s, e) == Replayed(s, e.worker, pc.user, pc.pending);
    } else {
      hide P.Bound, P.Unbound;
    }
  }

  ghost predicate NeverDrops(es: seq<Event>) {
    forall i :: 0 <= i < |es| ==> !Drops(Run(es[..i]), es[i])
  }

  lemma NeverDropsSnoc(es: seq<Event>, e: Event)
    ensures NeverDrops(es + [e]) <==> NeverDrops(es) && !Drops(Run(es), e)
  {
    hide Run, Drops;
    assert (es + [e])[..|es|] == es && (es + [e])[|es|] == e;
    assert forall i :: 0 <= i <= |es| ==> (es + [e])[..i] == es[..i];
  }

  lemma {:induction false} DroppedIsEmptyUnless(es: seq<Event>)
    ensures Run(es).dropped == [] <==> NeverDrops(es)
  {
    if es != [] {
      hide Step, Drops, NeverDrops;
      var before, e := es[..|es| - 1], es[|es| - 1];
      assert es == before + [e];
      DroppedIsEmptyUnless(before);
      DropsOnlySo(Run(before), e);
      NeverDropsSnoc(before, e);
    }
  }

  /** The worker has the copy: it will look, will queue it, or has drained it. */
  ghost predicate Has(pc: Pc, k: Copy) {
    Decides(pc, k) || WillQueue(pc, k) || (pc.ReplayRead? && pc.user == k.user && k.msg in pc.pending)
  }

  /** The copy is with a worker, in the queue, or was handed over. */
  ghost predicate Kept(s: State, k: Copy) {
    || (exists w :: w in s.workers && Has(s.workers[w], k))
    || k.msg in S.Queue(s.undelivered, k.user)
    || (exists h :: h in s.hands && !h.echo && h.msg == k.msg && h.user == k.user)
  }

  lemma KeptHasPlace(s: State, k: Copy) returns (p: Place)
    requires Kept(s, k)
    ensures At(s, k, p) && !p.Dropped? && !p.PassedOver?
  {
    if w :| w in s.workers && Has(s.workers[w], k) {
      p := if Decides(s.workers[w], k) then Undecided(w) else Absent(w);
      if !Decides(s.workers[w], k) && !WillQueue(s.workers[w], k) {
        var i :| 0 <= i < |s.workers[w].pending| && s.workers[w].pending[i] == k.msg;
        p := InReplay(w, i);
      }
    } else if k.msg in S.Queue(s.undelivered, k.user) {
      var i :| 0 <= i < |S.Queue(s.undelivered, k.user)| && S.Queue(s.undelivered, k.user)[i] == k.msg;
      p := Queued(i);
    } else {
      var h :| h in s.hands && !h.echo && h.msg == k.msg && h.user == k.user;
      var i :| 0 <= i < |s.hands| && s.hands[i] == h;
      p := Handed(i);
    }
  }

  lemma PlaceIsKept(s: State, k: Copy, p: Place)
    requires At(s, k, p) && !p.Dropped? && !p.PassedOver?
    ensures Kept(s, k)
  {
    match p {
      case Undecided(w) => assert Has(s.workers[w], k);
      case Absent(w) => assert Has(s.workers[w], k);
      case InReplay(w, i) => assert Has(s.workers[w], k);
      case Handed(i) => assert s.hands[i] in s.hands;
      case Queued(i) =>
    }
  }

  /** Every copy made so far in the run is still with a worker, queued or handed over, or was for an absent sender. */
  ghost predicate NothingLost(es: seq<Event>) {
    forall n, k :: 0 <= n <= |es| && k in Run(es[..n]).place ==> Kept(Run(es), k) || PassedOverAs(Run(es), k)
  }

  ghost predicate PassedOverAs(s: State, k: Copy) { k in s.passed && IsSender(s.senders, k) }

  lemma CopyIsKept(es: seq<Event>, n: nat, k: Copy)
    requires Run(es).dropped == [] && n <= |es| && k in Run(es[..n]).place
    ensures Kept(Run(es), k) || PassedOverAs(Run(es), k)
  {
    hide Run;
    var p := EachCopyIsInOnePlace(es, n, k);
    if p.PassedOver? {
      assert Run(es).passed[p.index] == k;
    } else {
      PlaceIsKept(Run(es), k, p);
    }
  }

  lemma DroppedIsLost(es: seq<Event>)
    requires Run(es).dropped != []
    ensures var k := Run(es).dropped[0];
            k in Run(es).place && !Kept(Run(es), k) && !PassedOverAs(Run(es), k)
  {
    hide Run;
    RunKeeps(es);
    var s := Run(es);
    var k := s.dropped[0];
    assert At(s, k, Dropped(0));
    PlaceOf(s, k, Dropped(0));
    if Kept(s, k) {
      var p := KeptHasPlace(s, k);
      NeverTwoPlaces(es, k, p, Dropped(0));
    }
    if i :| 0 <= i < |s.passed| && s.passed[i] == k {
      assert At(s, k, PassedOver(i));
      NeverTwoPlaces(es, k, PassedOver(i), Dropped(0));
    }
  }

  /** No copy leaves the system in a run, exactly if no replay of it finds the user gone. */
  lemma NothingIsLostUnless(es: seq<Event>)
    ensures NothingLost(es) <==> NeverDrops(es)
  {
    hide Run, NeverDrops, Kept, PassedOverAs;
    DroppedIsEmptyUnless(es);
    if Run(es).dropped == [] {
      forall n, k | 0 <= n <= |es| && k in Run(es[..n]).place ensures Kept(Run(es), k) || PassedOverAs(Run(es), k) {
        CopyIsKept(es, n, k);
      }
    } else {
      DroppedIsLost(es);
      assert es[..|es|] == es;
    }
  }

  // ---- queues of online users --------------------------------------

  lemma DrainStays(s: State, s': State, w: nat, u: nat)
    requires OneMoves(s, s', w)
    requires w in s.workers && s.workers[w] == Drain(u) ==> w in s'.workers && s'.workers[w] == Drain(u)
    ensures DrainComing(s, u) ==> DrainComing(s', u)
    ensures DrainComing(s', u) && !DrainComing(s, u) ==> w in s'.workers && s'.workers[w] == Drain(u)
  {
    if v :| v in s.workers && s.workers[v] == Drain(u) { assert v in s'.workers && s'.workers[v] == Drain(u); }
  }

  /** Queues, presence and the workers about to drain stay as they are. */
  lemma SettledStill(s: State, s': State, w: nat)
    requires Settled(s) && OneMoves(s, s', w)
    requires w in s.workers && s.workers[w].Drain? ==> w in s'.workers && s'.workers[w] == s.workers[w]
    requires s'.presence == s.presence && s'.undelivered == s.undelivered
    ensures Settled(s')
  {
    hide DrainComing;
    forall u { DrainStays(s, s', w, u); }
  }

  lemma BindKeepsSettled(s: State, e: Event)
    requires Settled(s) && e.Bind? && e.worker !in s.workers
    ensures Settled(Started(s, e))
  {
    var s' := Started(s, e);
    forall u | u in s'.presence && S.Queue(s'.undelivered, u) != [] ensures DrainComing(s', u) {
      DrainStays(s, s', e.worker, u);
      if u == e.user && u !in s.presence { assert e.worker in s'.workers && s'.workers[e.worker] == Drain(u); }
    }
  }

  lemma DrainKeepsSettled(s: State, w: nat, u: nat)
    requires Settled(s) && w in s.workers && s.workers[w] == Drain(u)
    ensures Settled(Drained(s, w, u))
  {
    var s' := Drained(s, w, u);
    forall v | v in s'.presence && S.Queue(s'.undelivered, v) != [] ensures DrainComing(s', v) {
      DrainStays(s, s', w, v);
    }
  }

  lemma EnqueueSettles(s: State, w: nat, m: nat, u: nat, after: Pc)
    requires Settled(s) && w in s.workers && !s.workers[w].Drain? && !after.Drain?
    ensures Settled(Enqueued(s, w, m, u, after)) <==> !(u in s.presence && !DrainComing(s, u))
  {
    hide DrainComing;
    var s' := Enqueued(s, w, m, u, after);
    assert S.Queue(s'.undelivered, u) != [];
    forall v { DrainStays(s, s', w, v); }
  }

  lemma UnbindKeepsSettled(s: State, u: nat, c: nat)
    requires Settled(s)
    ensures Settled(s.(presence := P.Unbound(s.presence, u, c)))
  {
  }

  lemma WentSettles(s: State, w: nat)
    requires Settled(s) && w in s.workers
    ensures Settled(Went(s, w)) <==> !Strands(s, Go(w))
  {
    hide Settled, DrainComing;
    match s.workers[w] {
      case DmEnqueue(m, sender, receiver) => EnqueueSettles(s, w, m, receiver, EchoRead(m, sender));
      case RoomEnqueue(m, sender, member, rest) => EnqueueSettles(s, w, m, member, RoomFan(m, sender, rest));
      case Drain(u) => DrainKeepsSettled(s, w, u);
      case _ => SettledStill(s, Went(s, w), w);
    }
  }

  lemma SettledUnlessStranded(s: State, e: Event)
    requires Settled(s)
    ensures Settled(Step(s, e)) <==> !Strands(s, e)
  {
    hide DrainComing, Settled, Went;
    if e.Unbind? {
      UnbindKeepsSettled(s, e.user, e.conn);
    } else if e.worker !in s.workers {
      if e.Bind? { BindKeepsSettled(s, e); } else { SettledStill(s, Step(s, e), e.worker); }
    } else if e.Go? {
      WentSettles(s, e.worker);
    } else {
      RoomSectionSettles(s, e);
    }
  }

  /** Reading the members and the turns of the fan-out leave queues alone. */
  lemma RoomSectionSettles(s: State, e: Event)
    requires Settled(s) && !e.Unbind? && !e.Go? && e.worker in s.workers
    ensures Settled(Step(s, e))
  {
    hide DrainComing, Settled, Copies;
    SettledStill(s, Step(s, e), e.worker);
  }

  ghost predicate NeverStrands(es: seq<Event>) {
    forall i :: 0 <= i < |es| ==> !Strands(Run(es[..i]), es[i])
  }

  ghost predicate AlwaysSettled(es: seq<Event>) {
    forall i :: 0 <= i <= |es| ==> Settled(Run(es[..i]))
  }

  lemma NeverStrandsSnoc(es: seq<Event>, e: Event)
    ensures NeverStrands(es + [e]) <==> NeverStrands(es) && !Strands(Run(es), e)
  {
    hide Run, Strands;
    assert (es + [e])[..|es|] == es && (es + [e])[|es|] == e;
    assert forall i :: 0 <= i <= |es| ==> (es + [e])[..i] == es[..i];
  }

  lemma AlwaysSettledSnoc(es: seq<Event>, e: Event)
    ensures AlwaysSettled(es + [e]) <==> AlwaysSettled(es) && Settled(Run(es + [e]))
    ensures AlwaysSettled(es) ==> Settled(Run(es))
  {
    hide Run, Settled;
    assert (es + [e])[..|es| + 1] == es + [e] && es[..|es|] == es;
    assert forall i :: 0 <= i <= |es| ==> (es + [e])[..i] == es[..i];
  }

  /** An online user's queue is always empty or about to be drained, exactly if no copy is queued too late. */
  lemma {:induction false} QueuesAreDrainedUnlessStranded(es: seq<Event>)
    ensures AlwaysSettled(es) <==> NeverStrands(es)
  {
    if es == [] {
      assert es[..0] == es;
    } else {
      hide Step, Settled, Strands, NeverStrands, AlwaysSettled;
      var before, e := es[..|es| - 1], es[|es| - 1];
      assert es == before + [e];
      QueuesAreDrainedUnlessStranded(before);
      AlwaysSettledSnoc(before, e);
      NeverStrandsSnoc(before, e);
      if AlwaysSettled(before) { SettledUnlessStranded(Run(before), e); }
    }
  }

  // ---- both happen -------------------------------------------------

  lemma Continue(es: seq<Event>, s: State, e: Event) returns (es': seq<Event>)
    requires Run(es) == s
    ensures Run(es') == Step(s, e)
  {
    es' := es + [e];
    RunSnoc(es, e);
  }

  /** User 5 has a message for user 7, who is offline, about to be queued. */
  lemma SomeRunSeesOffline() returns (es: seq<Event>)
    ensures var s := Run(es);
            s.workers == map[1 := DmEnqueue(1, 5, 7)] && s.presence == map[] && s.undelivered == map[] && s.dropped == []
  {
    es := Continue([], Init(), StartDm(1, 5, 7));
    es := Continue(es, Run(es), Go(1));
  }

  /** The message is queued, 7 comes online and drains the queue, and is gone again before it is handed over. */
  lemma SomeRunDrops() returns (es: seq<Event>)
    ensures Run(es).dropped == [Copy(1, 7)]
  {
    hide Run;
    es := SomeRunSeesOffline();
    es := Continue(es, Run(es), Go(1));
    es := Continue(es, Run(es), Bind(2, 7, 9));
    assert Run(es).workers[2] == Drain(7) && Run(es).undelivered[7] == [1];
    es := Continue(es, Run(es), Go(2));
    assert Run(es).workers[2] == ReplayRead(7, [1]);
    es := Continue(es, Run(es), Unbind(7, 9));
    assert Run(es).presence == map[];
    es := Continue(es, Run(es), Go(2));
  }

  /** User 7 comes online and finds an empty queue before the message is queued; it then waits for the next login. */
  lemma SomeRunStrands() returns (es: seq<Event>)
    ensures 7 in Run(es).presence && S.Queue(Run(es).undelivered, 7) == [1] && !DrainComing(Run(es), 7)
  {
    hide Run;
    es := SomeRunSeesOffline();
    es := Continue(es, Run(es), Bind(2, 7, 9));
    assert Run(es).workers[2] == Drain(7);
    es := Continue(es, Run(es), Go(2));
    assert Run(es).workers[2] == ReplayRead(7, []);
    es := Continue(es, Run(es), Go(2));
    assert Run(es).workers == map[1 := DmEnqueue(1, 5, 7)];
    es := Continue(es, Run(es), Go(1));
  }
}
