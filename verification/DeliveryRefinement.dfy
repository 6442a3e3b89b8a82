/**
 * A run of whole handlers is a run of locked sections: each handler and close callback of `Delivery` is simulated by
 * letting one worker of `DeliverySteps` take all its sections in a row. So conservation and at-most-once delivery are
 * about one system.
 */
module DeliveryRefinement {
  import opened Options
  import opened Messages
  import opened Store
  import P = Presence
  import D = Delivery
  import R = DeliveryRuns
  import opened DeliverySteps

  /** The hand-off is part of the batch. */
  predicate PartOf(b: D.Entry, h: Hand) {
    b.Batch? && h.echo == (b.kind == D.Echo) && h.msg == b.msg && P.ConnectionsOf(b.to, h.user) == h.conns && h.user in b.to
  }

  ghost predicate InLog(log: seq<D.Entry>, h: Hand) {
    exists b :: b in log && PartOf(b, h)
  }

  /** The same messages are handed to the same connections. */
  ghost predicate SameHands(log: seq<D.Entry>, hands: seq<Hand>) {
    forall h :: InLog(log, h) <==> h in hands
  }

  lemma SameHandsAppend(log: seq<D.Entry>, more: seq<D.Entry>, hands: seq<Hand>, moreHands: seq<Hand>)
    requires SameHands(log, hands) && SameHands(more, moreHands)
    ensures SameHands(log + more, hands + moreHands)
  {
    hide PartOf;
    forall h ensures InLog(log + more, h) <==> InLog(log, h) || InLog(more, h) {
      if b :| b in log && PartOf(b, h) { assert b in log + more; }
      if b :| b in more && PartOf(b, h) { assert b in log + more; }
    }
  }

  lemma MarkHandsNobody(c: nat)
    ensures SameHands([D.Mark(c)], [])
  {
  }

  /** The two states between two handlers. */
  ghost predicate Related(s: D.Server, t: State) {
    && t.next == |s.messages| + 1 && t.presence == s.presence && t.undelivered == s.undelivered
    && t.workers == map[] && t.dropped == [] && SameHands(s.log, t.hands)
  }

  lemma Idle(s: D.Server, s': D.Server, t: State, c: nat)
    requires Related(s, t) && |s'.messages| == |s.messages| && s'.presence == s.presence && s'.undelivered == s.undelivered
    requires s'.log == s.log || s'.log == s.log + [D.Mark(c)]
    ensures Related(s', t)
  {
    MarkHandsNobody(c);
    SameHandsAppend(s.log, [D.Mark(c)], t.hands, []);
    assert t.hands + [] == t.hands;
  }

  // ---- binding -----------------------------------------------------

  function ReplayHands(q: seq<nat>, u: nat, conns: set<nat>): seq<Hand> {
    seq(|q|, i requires 0 <= i < |q| => Hand(false, q[i], u, conns))
  }

  lemma ReplaysAreHands(pending: Log, q: seq<nat>, u: nat, conns: set<nat>)
    requires |pending| == |q| && forall i :: 0 <= i < |q| ==> pending[i].id == q[i]
    ensures SameHands(D.Replays(pending, u, conns), ReplayHands(q, u, conns))
  {
    var log, hands := D.Replays(pending, u, conns), ReplayHands(q, u, conns);
    forall h ensures InLog(log, h) <==> h in hands {
      if b :| b in log && PartOf(b, h) {
        var i :| 0 <= i < |log| && log[i] == b;
        assert hands[i] == h;
      }
      if h in hands {
        var i :| 0 <= i < |hands| && hands[i] == h;
        assert log[i] in log && PartOf(log[i], h);
      }
    }
  }

  /** The sections of a bind: the presence table, then, if the user came online, the drain and the look-up. */
  lemma BindSections(fs: seq<Event>, u: nat, c: nat) returns (gs: seq<Event>)
    requires Run(fs).workers == map[]
    ensures var t, t' := Run(fs), Run(gs);
            && t'.workers == map[] && t'.next == t.next && t'.dropped == t.dropped
            && t'.presence == P.Bound(t.presence, u, c)
            && t'.undelivered == (if u in t.presence then t.undelivered else t.undelivered - {u})
            && t'.hands == t.hands + if u in t.presence then [] else ReplayHands(Queue(t.undelivered, u), u, {c})
  {
    var t := Run(fs);
    RunSnoc(fs, Bind(0, u, c));
    gs := fs + [Bind(0, u, c)];
    hide Run;
    assert t.hands + [] == t.hands;
    if u !in t.presence {
      assert Run(gs).workers == map[0 := Drain(u)];
      assert P.Bound(t.presence, u, c)[u] == {c};
      hide P.Bound;
      gs := ReplaySections(gs, u);
    }
  }

  lemma ReplaySections(fs: seq<Event>, u: nat) returns (gs: seq<Event>)
    requires Run(fs).workers == map[0 := Drain(u)] && u in Run(fs).presence
    ensures var t, t' := Run(fs), Run(gs);
            && t'.workers == map[] && t'.next == t.next && t'.dropped == t.dropped && t'.presence == t.presence
            && t'.undelivered == t.undelivered - {u}
            && t'.hands == t.hands + ReplayHands(Queue(t.undelivered, u), u, t.presence[u])
  {
    hide Run;
    var t := Run(fs);
    assert t.workers[0] == Drain(u);
    RunSnoc(fs, Go(0));
    gs := fs + [Go(0)];
    assert Run(gs).workers == map[0 := ReplayRead(u, Queue(t.undelivered, u))];
    assert Run(gs).workers[0] == ReplayRead(u, Queue(t.undelivered, u));
    RunSnoc(gs, Go(0));
    gs := gs + [Go(0)];
    assert Run(gs).workers == map[];
  }

  lemma BindRelates(s: D.Server, fs: seq<Event>, c: nat, u: nat) returns (gs: seq<Event>)
    requires D.Inv(s) && Related(s, Run(fs)) && c in s.conns
    ensures Related(D.BoundTo(s, c, u), Run(gs))
  {
    hide Run, SameHands, ReplayHands, D.Inv, D.BoundTo, Found;
    gs := BindSections(fs, u, c);
    R.BindSets(s, c, u);
    R.BindAppends(s, c, u);
    BoundStore(s, c, u);
    var q := Queue(s.undelivered, u);
    MarkHandsNobody(c);
    var t := Run(fs);
    if u in s.presence {
      SameHandsAppend(s.log, [D.Mark(c)], t.hands, []);
      assert R.Binding(s, c, u) == [D.Mark(c)];
    } else {
      R.QueueIsIncreasing(s, u);
      var replays := D.Replays(Found(s.messages, q), u, {c});
      ReplaysAreHands(Found(s.messages, q), q, u, {c});
      SameHandsAppend([D.Mark(c)], replays, [], ReplayHands(q, u, {c}));
      assert [] + ReplayHands(q, u, {c}) == ReplayHands(q, u, {c});
      SameHandsAppend(s.log, R.Binding(s, c, u), t.hands, ReplayHands(q, u, {c}));
    }
  }

  lemma BoundStore(s: D.Server, c: nat, u: nat)
    requires c in s.conns
    ensures |D.BoundTo(s, c, u).messages| == |s.messages|
    ensures D.BoundTo(s, c, u).undelivered == if u in s.presence then s.undelivered else s.undelivered - {u}
  {
  }

  lemma ReleaseRelates(s: D.Server, fs: seq<Event>, c: nat) returns (gs: seq<Event>)
    requires Related(s, Run(fs)) && c in s.conns
    ensures Related(D.Released(s, c), Run(gs))
  {
    var u := s.conns[c].user;
    var t := Run(fs);
    gs := fs;
    hide Run;
    if u != 0 {
      RunSnoc(fs, Unbind(u, c));
      gs := fs + [Unbind(u, c)];
    }
    Idle(D.Released(s, c).(log := s.log), D.Released(s, c), Run(gs), c);
  }

  // ---- direct messages ---------------------------------------------

  /** Between the sections of one handler only worker 0 is busy, and presence stays as it is. */
  ghost predicate Busy(t: State, t': State, pc: Pc) {
    t'.workers == map[0 := pc] && t'.presence == t.presence && t'.dropped == t.dropped && t'.next == t.next + 1
  }

  lemma DmStart(fs: seq<Event>, sender: nat, receiver: nat) returns (gs: seq<Event>)
    requires Run(fs).workers == map[]
    ensures var t, t' := Run(fs), Run(gs);
            && Busy(t, t', DmRead(t.next, sender, receiver))
            && t'.undelivered == t.undelivered && t'.hands == t.hands
  {
    gs := fs + [StartDm(0, sender, receiver)];
    RunSnoc(fs, StartDm(0, sender, receiver));
  }

  lemma EchoSection(t: State, fs: seq<Event>, m: nat, sender: nat) returns (gs: seq<Event>)
    requires Busy(t, Run(fs), EchoRead(m, sender))
    ensures var t1, t' := Run(fs), Run(gs);
            && t'.workers == map[] && t'.presence == t.presence && t'.dropped == t.dropped && t'.next == t.next + 1
            && t'.undelivered == t1.undelivered && t'.hands == t1.hands + Hands(t, true, m, sender)
  {
    hide Run;
    gs := fs + [Go(0)];
    RunSnoc(fs, Go(0));
    assert Run(fs).workers[0] == EchoRead(m, sender);
    assert Run(gs).workers == map[];
  }

  lemma DmOnlineSections(fs: seq<Event>, sender: nat, receiver: nat) returns (gs: seq<Event>)
    requires Run(fs).workers == map[] && receiver in Run(fs).presence
    ensures var t, t' := Run(fs), Run(gs);
            && t'.workers == map[] && t'.presence == t.presence && t'.dropped == t.dropped && t'.next == t.next + 1
            && t'.undelivered == t.undelivered
            && t'.hands == t.hands + [Hand(false, t.next, receiver, t.presence[receiver])] + Hands(t, true, t.next, sender)
  {
    hide Run;
    var t := Run(fs);
    gs := DmStart(fs, sender, receiver);
    RunSnoc(gs, Go(0));
    assert Run(gs).workers[0] == DmRead(t.next, sender, receiver);
    gs := gs + [Go(0)];
    assert Busy(t, Run(gs), EchoRead(t.next, sender));
    gs := EchoSection(t, gs, t.next, sender);
  }

  lemma DmOfflineSections(fs: seq<Event>, sender: nat, receiver: nat) returns (gs: seq<Event>)
    requires Run(fs).workers == map[] && receiver !in Run(fs).presence
    ensures var t, t' := Run(fs), Run(gs);
            && t'.workers == map[] && t'.presence == t.presence && t'.dropped == t.dropped && t'.next == t.next + 1
            && t'.undelivered == t.undelivered[receiver := Queue(t.undelivered, receiver) + [t.next]]
            && t'.hands == t.hands + Hands(t, true, t.next, sender)
  {
    hide Run;
    var t := Run(fs);
    gs := DmStart(fs, sender, receiver);
    RunSnoc(gs, Go(0));
    assert Run(gs).workers[0] == DmRead(t.next, sender, receiver);
    gs := gs + [Go(0)];
    assert Busy(t, Run(gs), DmEnqueue(t.next, sender, receiver));
    RunSnoc(gs, Go(0));
    assert Run(gs).workers[0] == DmEnqueue(t.next, sender, receiver);
    gs := gs + [Go(0)];
    assert Busy(t, Run(gs), EchoRead(t.next, sender));
    gs := EchoSection(t, gs, t.next, sender);
  }

  lemma EchoIsHand(s: D.Server, t: State, sender: nat)
    requires t.presence == s.presence
    ensures SameHands(D.EchoOf(s, sender), Hands(t, true, D.NextId(s), sender))
  {
    if sender in s.presence { OneHand(D.Echo, D.NextId(s), sender, s.presence[sender]); }
  }

  lemma OneHand(kind: D.Kind, m: nat, u: nat, conns: set<nat>)
    ensures SameHands([D.Batch(kind, m, map[u := conns])], [Hand(kind == D.Echo, m, u, conns)])
  {
    var b := D.Batch(kind, m, map[u := conns]);
    forall h ensures InLog([b], h) <==> h in [Hand(kind == D.Echo, m, u, conns)] {
      if PartOf(b, h) { assert b in [b]; }
    }
  }

  lemma DmRelates(s: D.Server, fs: seq<Event>, sender: nat, receiver: nat, content: string, ts: int)
    returns (gs: seq<Event>)
    requires Related(s, Run(fs))
    ensures Related(D.SentDm(s, sender, receiver, content, ts), Run(gs))
  {
    hide Run, SameHands, WithStatus, D.EchoOf, Hands, D.Enqueued;
    var t, id := Run(fs), D.NextId(s);
    EchoIsHand(s, t, sender);
    var echo, echoHands := D.EchoOf(s, sender), Hands(t, true, id, sender);
    if receiver in s.presence {
      gs := DmOnlineSections(fs, sender, receiver);
      var conns := s.presence[receiver];
      OneHand(D.Live, id, receiver, conns);
      var live, hand := [D.Batch(D.Live, id, map[receiver := conns])], [Hand(false, id, receiver, conns)];
      SameHandsAppend(s.log, live, t.hands, hand);
      SameHandsAppend(s.log + live, echo, t.hands + hand, echoHands);
    } else {
      gs := DmOfflineSections(fs, sender, receiver);
      D.QueuedForOne(s.undelivered, id, receiver);
      SameHandsAppend(s.log, echo, t.hands, echoHands);
    }
  }

  // ---- room messages -----------------------------------------------

  /** What the fan-out to `rest` does to queues and hand-offs. */
  ghost predicate FannedOut(t: State, t': State, m: nat, sender: nat, rest: set<nat>, more: seq<Hand>) {
    && t'.presence == t.presence && t'.dropped == t.dropped && t'.next == t.next
    && t'.undelivered == D.Enqueued(t.undelivered, D.Absent(t.presence, rest, sender), m)
    && t'.hands == t.hands + more
    && SameHands([D.Batch(D.Live, m, D.Online(t.presence, rest))], more)
  }

  /** The turn of the loop for one member. */
  lemma FanOne(fs: seq<Event>, m: nat, sender: nat, rest: set<nat>, u: nat) returns (gs: seq<Event>)
    requires Run(fs).workers == map[0 := RoomFan(m, sender, rest)] && u in rest
    ensures var t, t' := Run(fs), Run(gs);
            && t'.workers == map[0 := RoomFan(m, sender, rest - {u})]
            && t'.presence == t.presence && t'.dropped == t.dropped && t'.next == t.next
            && t'.hands == t.hands + Hands(t, false, m, u)
            && t'.undelivered == if u in t.presence || u == sender then t.undelivered
                                 else t.undelivered[u := Queue(t.undelivered, u) + [m]]
  {
    hide Run;
    var t := Run(fs);
    RunSnoc(fs, Fan(0, u));
    gs := fs + [Fan(0, u)];
    assert t.workers[0] == RoomFan(m, sender, rest);
    assert t.hands + [] == t.hands;
    if u !in t.presence && u != sender {
      assert Run(gs).workers[0] == RoomEnqueue(m, sender, u, rest - {u});
      RunSnoc(gs, Go(0));
      gs := gs + [Go(0)];
    }
  }

  lemma EnqueuedFirst(table: map<nat, seq<nat>>, to: set<nat>, id: nat, u: nat)
    requires u !in to
    ensures D.Enqueued(table[u := Queue(table, u) + [id]], to, id) == D.Enqueued(table, to + {u}, id)
  {
  }

  lemma AbsentFirst(table: P.Table, rest: set<nat>, sender: nat, u: nat)
    requires u in rest
    ensures var later := D.Absent(table, rest - {u}, sender);
            u !in later && D.Absent(table, rest, sender) == if u in table || u == sender then later else later + {u}
  {
  }

  lemma OnlineFirst(table: P.Table, m: nat, rest: set<nat>, u: nat, h: Hand)
    requires u in rest
    ensures PartOf(D.Batch(D.Live, m, D.Online(table, rest)), h) <==>
            || PartOf(D.Batch(D.Live, m, D.Online(table, rest - {u})), h)
            || (u in table && h == Hand(false, m, u, table[u]))
  {
  }

  lemma OneBatch(b: D.Entry, h: Hand)
    ensures InLog([b], h) <==> PartOf(b, h)
  {
    if PartOf(b, h) { assert b in [b]; }
  }

  lemma HandsFirst(t: State, m: nat, rest: set<nat>, u: nat, more: seq<Hand>)
    requires u in rest && SameHands([D.Batch(D.Live, m, D.Online(t.presence, rest - {u}))], more)
    ensures SameHands([D.Batch(D.Live, m, D.Online(t.presence, rest))], Hands(t, false, m, u) + more)
  {
    var all, others := D.Batch(D.Live, m, D.Online(t.presence, rest)), D.Batch(D.Live, m, D.Online(t.presence, rest - {u}));
    forall h ensures InLog([all], h) <==> h in Hands(t, false, m, u) + more {
      OneBatch(all, h);
      OneBatch(others, h);
      OnlineFirst(t.presence, m, rest, u, h);
      hide PartOf, InLog, D.Online;
      assert InLog([others], h) <==> h in more;
    }
  }

  lemma FanFirst(t: State, t1: State, t': State, m: nat, sender: nat, rest: set<nat>, u: nat, more: seq<Hand>)
    requires u in rest && t1.presence == t.presence && t1.dropped == t.dropped && t1.next == t.next
    requires t1.hands == t.hands + Hands(t, false, m, u)
    requires t1.undelivered == if u in t.presence || u == sender then t.undelivered
                               else t.undelivered[u := Queue(t.undelivered, u) + [m]]
    requires FannedOut(t1, t', m, sender, rest - {u}, more)
    ensures FannedOut(t, t', m, sender, rest, Hands(t, false, m, u) + more)
  {
    hide SameHands, D.Enqueued, D.Absent, D.Online, Hands;
    HandsFirst(t, m, rest, u, more);
    AbsentFirst(t.presence, rest, sender, u);
    EnqueuedFirst(t.undelivered, D.Absent(t.presence, rest - {u}, sender), m, u);
    assert t.hands + Hands(t, false, m, u) + more == t.hands + (Hands(t, false, m, u) + more);
  }

  lemma FanNobody(t: State, m: nat, sender: nat)
    ensures FannedOut(t, t, m, sender, {}, [])
  {
    assert D.Absent(t.presence, {}, sender) == {};
    D.EnqueuedForNobody(t.undelivered, m);
    forall h { OneBatch(D.Batch(D.Live, m, D.Online(t.presence, {})), h); }
  }

  /** The whole loop, in some order of the members. */
  lemma {:induction false} FanAll(fs: seq<Event>, m: nat, sender: nat, rest: set<nat>)
    returns (gs: seq<Event>, more: seq<Hand>)
    requires Run(fs).workers == map[0 := RoomFan(m, sender, rest)]
    ensures Run(gs).workers == map[0 := RoomFan(m, sender, {})]
    ensures FannedOut(Run(fs), Run(gs), m, sender, rest, more)
    decreases rest
  {
    hide Run, FannedOut;
    if rest == {} {
      FanNobody(Run(fs), m, sender);
      gs, more := fs, [];
    } else {
      var u :| u in rest;
      var hs := FanOne(fs, m, sender, rest, u);
      gs, more := FanAll(hs, m, sender, rest - {u});
      FanFirst(Run(fs), Run(hs), Run(gs), m, sender, rest, u, more);
      more := Hands(Run(fs), false, m, u) + more;
    }
  }

  lemma RoomStart(fs: seq<Event>, sender: nat, members: set<nat>) returns (gs: seq<Event>)
    requires Run(fs).workers == map[]
    ensures var t, t' := Run(fs), Run(gs);
            && Busy(t, t', RoomFan(t.next, sender, members))
            && t'.undelivered == t.undelivered && t'.hands == t.hands
  {
    hide Run;
    var t := Run(fs);
    gs := fs + [StartRoom(0, sender)];
    RunSnoc(fs, StartRoom(0, sender));
    assert Run(gs).workers[0] == RoomMembers(t.next, sender);
    RunSnoc(gs, Event.Members(0, members));
    gs := gs + [Event.Members(0, members)];
  }

  lemma RoomSections(fs: seq<Event>, sender: nat, members: set<nat>) returns (gs: seq<Event>, more: seq<Hand>)
    requires Run(fs).workers == map[]
    ensures var t, t' := Run(fs), Run(gs);
            && t'.workers == map[] && FannedOut(t.(next := t.next + 1), t', t.next, sender, members, more)
  {
    hide Run, SameHands, D.Enqueued, D.Absent, D.Online;
    var t := Run(fs);
    gs := RoomStart(fs, sender, members);
    gs, more := FanAll(gs, t.next, sender, members);
    RunSnoc(gs, Go(0));
    assert Run(gs).workers[0] == RoomFan(t.next, sender, {});
    gs := gs + [Go(0)];
    assert Run(gs).workers == map[];
  }

  lemma RoomRelates(s: D.Server, fs: seq<Event>, sender: nat, room: nat, content: string, ts: int)
    returns (gs: seq<Event>)
    requires Related(s, Run(fs))
    ensures Related(D.SentRoom(s, sender, room, content, ts), Run(gs))
  {
    hide Run, SameHands, D.Enqueued, D.Absent, D.Online;
    var members := D.Loaded(s, room).cache[room];
    gs := fs;
    if sender in members {
      var t, more := Run(fs), [];
      gs, more := RoomSections(fs, sender, members);
      SameHandsAppend(s.log, [D.Batch(D.Live, t.next, D.Online(t.presence, members))], t.hands, more);
    }
  }

  // ---- whole handlers ----------------------------------------------

  lemma RequestRelates(s: D.Server, fs: seq<Event>, u: nat, e: D.Event) returns (gs: seq<Event>)
    requires Related(s, Run(fs))
    ensures Related(D.Request(s, u, e), Run(gs))
  {
    hide Run, Related, D.SentDm, D.SentRoom, D.Joined, D.Left;
    gs := fs;
    if e.SendDm? && D.DmIsGood(s, e.receiver, e.content) {
      gs := DmRelates(s, fs, u, e.receiver, e.content, e.ts);
    } else if e.SendRoom? && D.RoomIsGood(s, e.room, e.content) {
      gs := RoomRelates(s, fs, u, e.room, e.content, e.ts);
    } else {
      OtherRequest(s, u, e);
      Idle(s, D.Request(s, u, e), Run(fs), 0);
    }
  }

  lemma OtherRequest(s: D.Server, u: nat, e: D.Event)
    requires !(e.SendDm? && D.DmIsGood(s, e.receiver, e.content))
    requires !(e.SendRoom? && D.RoomIsGood(s, e.room, e.content))
    ensures var s' := D.Request(s, u, e);
            && s'.messages == s.messages && s'.presence == s.presence
            && s'.undelivered == s.undelivered && s'.log == s.log
  {
    hide D.SentDm, D.SentRoom;
  }

  lemma StepRelates(s: D.Server, fs: seq<Event>, e: D.Event) returns (gs: seq<Event>)
    requires D.Inv(s) && Related(s, Run(fs))
    ensures Related(D.Step(s, e), Run(gs))
  {
    hide Run, Related, D.Inv, D.BoundTo, D.Released, D.Request;
    gs := fs;
    if e.Register? || e.Connect? || e.conn !in s.conns {
      Idle(s, D.Step(s, e), Run(fs), 0);
    } else if e.Login? {
      gs := BindRelates(s, fs, e.conn, e.id);
    } else if e.Logout? || (e.Close? && s.conns[e.conn].open) {
      gs := ReleaseRelates(s, fs, e.conn);
      Idle(D.Released(s, e.conn), D.Step(s, e), Run(gs), 0);
    } else if !e.Close? {
      if s.conns[e.conn].user == 0 && e.auth.Some? { gs := BindRelates(s, fs, e.conn, e.auth.value); }
      var (t, u) := D.Authenticated(s, e.conn, e.auth);
      if u != 0 { gs := RequestRelates(t, gs, u, e); }
    }
  }

  /**
   * Every run of whole handlers is a run of locked sections with the same queues, the same presence and the same
   * hand-offs, in which nothing is dropped.
   */
  lemma {:induction false} HandlersAreSections(maxMessage: nat, es: seq<D.Event>) returns (fs: seq<Event>)
    ensures Related(D.Run(maxMessage, es), Run(fs))
  {
    if es == [] {
      fs := [];
    } else {
      var before := es[..|es| - 1];
      fs := HandlersAreSections(maxMessage, before);
      D.RunKeeps(maxMessage, before);
      hide Run, Related, D.Inv, D.Step;
      fs := StepRelates(D.Run(maxMessage, before), fs, es[|es| - 1]);
    }
  }
}
