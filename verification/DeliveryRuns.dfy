/** What the handlers guarantee beyond conservation: who gets a message, on which connections, and in which order. */
module DeliveryRuns {
  import opened Options
  import opened Messages
  import opened Store
  import opened Delivery
  import P = Presence

  // ---- who a message is for ----------------------------------------

  /** The sender of a request that comes in on connection `c`. */
  function SenderOf(s: Server, c: nat, auth: Option<user>): nat
    requires c in s.conns
  {
    if s.conns[c].user != 0 || auth.None? then s.conns[c].user else auth.value
  }

  predicate SameStore(s: Server, t: Server) {
    t == s.(conns := t.conns, presence := t.presence, log := t.log, undelivered := t.undelivered)
  }

  lemma AuthenticationStoresNothing(s: Server, c: nat, auth: Option<user>)
    requires c in s.conns
    ensures SameStore(s, Authenticated(s, c, auth).0) && Authenticated(s, c, auth).1 == SenderOf(s, c, auth)
  {
  }

  lemma DmIsFor(s: Server, sender: nat, receiver: nat, content: string, ts: int)
    ensures SentDm(s, sender, receiver, content, ts).targets == s.targets[NextId(s) := {receiver}]
  {
  }

  lemma RoomIsFor(s: Server, sender: nat, room: nat, content: string, ts: int)
    requires CacheExact(s)
    ensures var s' := SentRoom(s, sender, room, content, ts);
            if sender in Members(s.members, room) then
              s'.targets == s.targets[NextId(s) := Members(s.members, room) - {sender}]
            else s'.targets == s.targets && s'.messages == s.messages
  {
  }

  ghost predicate IsSend(s: Server, e: Event) {
    (e.SendDm? || e.SendRoom?) && e.conn in s.conns && SenderOf(s, e.conn, e.auth) != 0
  }

  /**
   * A direct message is stored for its receiver and a room message for every stored member but the sender, whatever
   * the cache held; anything else, and any refused send, stores nothing.
   */
  lemma MessageIsForEveryMember(s: Server, e: Event)
    requires CacheExact(s)
    ensures var s' := Step(s, e);
            if IsSend(s, e) && e.SendDm? && DmIsGood(s, e.receiver, e.content) then
              s'.targets == s.targets[NextId(s) := {e.receiver}]
            else if && IsSend(s, e) && e.SendRoom? && RoomIsGood(s, e.room, e.content)
                    && SenderOf(s, e.conn, e.auth) in Members(s.members, e.room) then
              s'.targets == s.targets[NextId(s) := Members(s.members, e.room) - {SenderOf(s, e.conn, e.auth)}]
            else s'.targets == s.targets && s'.messages == s.messages
  {
    hide BoundTo, SentDm, SentRoom, Authenticated;
    if e.Login? && e.conn in s.conns {
      assert SameStore(s, BoundTo(s, e.conn, e.id)) by { BindingStoresNothing(s, e.conn, e.id); }
    } else if !e.Register? && !e.Connect? && !e.Logout? && !e.Close? && e.conn in s.conns {
      AuthenticationStoresNothing(s, e.conn, e.auth);
      var t := Authenticated(s, e.conn, e.auth).0;
      var from := SenderOf(s, e.conn, e.auth);
      if e.SendDm? {
        DmIsFor(t, from, e.receiver, e.content, e.ts);
      } else if e.SendRoom? {
        RoomIsFor(t, from, e.room, e.content, e.ts);
      }
    }
  }

  lemma BindingStoresNothing(s: Server, c: nat, u: nat)
    requires c in s.conns
    ensures SameStore(s, BoundTo(s, c, u))
  {
  }

  // ---- on which connections ----------------------------------------

  /** What a send appends: batches of the new message, to all the connections of each user they are for. */
  ghost predicate IsSending(more: seq<Entry>, id: nat, table: P.Table) {
    forall i :: 0 <= i < |more| ==>
      && more[i].Batch? && more[i].msg == id && more[i].kind != Replay
      && forall u :: u in more[i].to ==> u in table && more[i].to[u] == table[u]
  }

  /** What a bind appends: a mark and, if the user was offline, the queue, to this connection only. */
  function Binding(s: Server, c: nat, u: nat): seq<Entry> {
    [Mark(c)] + if u in s.presence then [] else Replays(Found(s.messages, Queue(s.undelivered, u)), u, {c})
  }

  lemma BindAppends(s: Server, c: nat, u: nat)
    requires c in s.conns
    ensures BoundTo(s, c, u).log == s.log + Binding(s, c, u)
  {
    hide Found;
    var rest := Replays(Found(s.messages, Queue(s.undelivered, u)), u, {c});
    if u !in s.presence {
      assert P.Bound(s.presence, u, c)[u] == {c};
      assert (s.log + [Mark(c)]) + rest == s.log + ([Mark(c)] + rest);
    }
  }

  lemma DmAppends(s: Server, sender: nat, receiver: nat, content: string, ts: int) returns (more: seq<Entry>)
    ensures SentDm(s, sender, receiver, content, ts).log == s.log + more && IsSending(more, NextId(s), s.presence)
    ensures SentDm(s, sender, receiver, content, ts).presence == s.presence
    ensures SentDm(s, sender, receiver, content, ts).conns == s.conns
  {
    hide WithStatus, Enqueued;
    more := EchoOf(s, sender);
    if receiver in s.presence {
      var live := [Batch(Live, NextId(s), map[receiver := s.presence[receiver]])];
      assert s.log + live + more == s.log + (live + more);
      more := live + more;
    }
  }

  lemma RoomAppends(s: Server, sender: nat, room: nat, content: string, ts: int) returns (more: seq<Entry>)
    ensures SentRoom(s, sender, room, content, ts).log == s.log + more && IsSending(more, NextId(s), s.presence)
    ensures SentRoom(s, sender, room, content, ts).presence == s.presence
    ensures SentRoom(s, sender, room, content, ts).conns == s.conns
  {
    hide Enqueued;
    var members := Loaded(s, room).cache[room];
    more := if sender in members then [Batch(Live, NextId(s), Online(s.presence, members))] else [];
  }

  lemma RequestAppends(s: Server, u: nat, e: Event) returns (more: seq<Entry>)
    ensures Request(s, u, e).log == s.log + more && IsSending(more, NextId(s), s.presence)
    ensures Request(s, u, e).presence == s.presence && Request(s, u, e).conns == s.conns
  {
    hide SentDm, SentRoom;
    more := [];
    assert s.log + [] == s.log;
    if e.SendDm? && DmIsGood(s, e.receiver, e.content) {
      hide IsSending;
      more := DmAppends(s, u, e.receiver, e.content, e.ts);
    } else if e.SendRoom? && RoomIsGood(s, e.room, e.content) {
      hide IsSending;
      more := RoomAppends(s, u, e.room, e.content, e.ts);
    }
  }

  /** Each user a batch is for gets it on all the connections bound to that user. */
  ghost predicate ToAllBound(entries: seq<Entry>, table: P.Table) {
    forall i, u :: 0 <= i < |entries| && entries[i].Batch? && u in entries[i].to ==>
      u in table && entries[i].to[u] == table[u]
  }

  lemma BindingIsToAllBound(s: Server, c: nat, u: nat)
    requires c in s.conns
    ensures ToAllBound(Binding(s, c, u), BoundTo(s, c, u).presence)
  {
    hide Found;
  }

  /**
   * A handler appends to the log, takes nothing back, and hands messages to exactly the connections that are bound
   * when it ends: every connection of a user it reaches, and no other.
   */
  lemma HandedToAllBound(s: Server, e: Event) returns (more: seq<Entry>)
    ensures Step(s, e).log == s.log + more && ToAllBound(more, Step(s, e).presence)
  {
    hide BoundTo, Request, Binding;
    more := [];
    assert s.log + [] == s.log;
    if !e.Register? && !e.Connect? && e.conn in s.conns {
      if e.Login? {
        more := Binding(s, e.conn, e.id);
        BindAppends(s, e.conn, e.id);
        BindingIsToAllBound(s, e.conn, e.id);
      } else if e.Logout? || (e.Close? && s.conns[e.conn].open) {
        more := [Mark(e.conn)];
      } else if !e.Close? {
        more := RequestHands(s, e);
      }
    }
  }

  lemma RequestHands(s: Server, e: Event) returns (more: seq<Entry>)
    requires !e.Register? && !e.Connect? && !e.Login? && !e.Logout? && !e.Close? && e.conn in s.conns
    ensures Step(s, e).log == s.log + more && ToAllBound(more, Step(s, e).presence)
  {
    hide BoundTo, Request, Binding;
    var first := [];
    assert s.log + first == s.log;
    var (t, u) := Authenticated(s, e.conn, e.auth);
    if s.conns[e.conn].user == 0 && e.auth.Some? {
      first := Binding(s, e.conn, u);
      BindAppends(s, e.conn, u);
      BindingIsToAllBound(s, e.conn, u);
    }
    var second := [];
    assert t.log + second == t.log;
    if u != 0 { second := RequestAppends(t, u, e); }
    more := first + second;
    assert s.log + more == (s.log + first) + second;
  }

  // ---- in which order ----------------------------------------------

  ghost predicate Reaches(b: Entry, c: nat) {
    b.Batch? && exists u :: u in b.to && c in b.to[u]
  }

  /** The connection is neither bound, unbound nor closed between the two entries. */
  ghost predicate Unbroken(log: seq<Entry>, i: int, j: int, c: nat) {
    0 <= i < j < |log| && forall k :: i < k < j ==> log[k] != Mark(c)
  }

  ghost predicate PairInOrder(log: seq<Entry>, i: int, j: int, c: nat) {
    Unbroken(log, i, j, c) && Reaches(log[i], c) && Reaches(log[j], c) ==>
      log[i].msg <= log[j].msg && (log[j].kind == Replay ==> log[i].kind == Replay)
  }

  /**
   * While a connection stays bound it is handed messages by increasing id, and no replayed message after a live one.
   */
  ghost predicate InOrder(log: seq<Entry>) {
    forall i, j, c :: PairInOrder(log, i, j, c)
  }

  lemma OldPair(log: seq<Entry>, more: seq<Entry>, i: int, j: int, c: nat)
    requires PairInOrder(log, i, j, c) && j < |log|
    ensures PairInOrder(log + more, i, j, c)
  {
    if Unbroken(log + more, i, j, c) {
      assert forall k :: i < k < j ==> (log + more)[k] == log[k];
      assert Unbroken(log, i, j, c);
    }
  }

  lemma MarkKeepsOrder(log: seq<Entry>, c: nat)
    requires InOrder(log)
    ensures InOrder(log + [Mark(c)])
  {
    hide Unbroken;
    var log' := log + [Mark(c)];
    forall i, j, d ensures PairInOrder(log', i, j, d) {
      if j < |log| { OldPair(log, [Mark(c)], i, j, d); } else { BreakAtMark(log, c, i, j, d); }
    }
  }

  lemma BreakAtMark(log: seq<Entry>, c: nat, i: int, j: int, d: nat)
    requires j >= |log|
    ensures PairInOrder(log + [Mark(c)], i, j, d)
  {
    assert j == |log| ==> !Reaches((log + [Mark(c)])[j], d);
  }

  /** A send keeps the order: its message is newer than every earlier one. */
  lemma SendKeepsOrder(log: seq<Entry>, more: seq<Entry>, id: nat, table: P.Table)
    requires InOrder(log) && IsSending(more, id, table)
    requires forall i :: 0 <= i < |log| && log[i].Batch? ==> log[i].msg < id
    ensures InOrder(log + more)
  {
    forall i, j, c ensures PairInOrder(log + more, i, j, c) {
      if j < |log| { OldPair(log, more, i, j, c); } else { NewerPair(log, more, id, table, i, j, c); }
    }
  }

  lemma NewerPair(log: seq<Entry>, more: seq<Entry>, id: nat, table: P.Table, i: int, j: int, c: nat)
    requires IsSending(more, id, table) && j >= |log|
    requires forall i :: 0 <= i < |log| && log[i].Batch? ==> log[i].msg < id
    ensures PairInOrder(log + more, i, j, c)
  {
    hide Reaches;
    if Unbroken(log + more, i, j, c) && Reaches((log + more)[i], c) {
      assert (log + more)[j] == more[j - |log|];
      ReachingIsBatch((log + more)[i], c);
      if i >= |log| { assert (log + more)[i] == more[i - |log|]; }
    }
  }

  lemma ReachingIsBatch(b: Entry, c: nat)
    requires Reaches(b, c)
    ensures b.Batch?
  {
  }

  /** A bind keeps the order: the queue is oldest first, and goes to one connection right after its mark. */
  lemma BindKeepsOrder(s: Server, c: nat, u: nat)
    requires Inv(s) && c in s.conns && InOrder(s.log)
    ensures InOrder(BoundTo(s, c, u).log)
  {
    hide Inv, InOrder, BoundTo;
    BindAppends(s, c, u);
    if u in s.presence {
      assert Binding(s, c, u) == [Mark(c)];
      MarkKeepsOrder(s.log, c);
    } else {
      var q := Queue(s.undelivered, u);
      QueueIsIncreasing(s, u);
      ReplayKeepsOrder(s.log, Found(s.messages, q), c, u, q);
    }
  }

  lemma QueueIsIncreasing(s: Server, u: nat)
    requires Inv(s)
    ensures var q := Queue(s.undelivered, u);
            && Increasing(q) && |Found(s.messages, q)| == |q|
            && forall i :: 0 <= i < |q| ==> Found(s.messages, q)[i].id == q[i]
  {
    hide Found;
    QueueBelow(s, u);
    FoundIds(s.messages, Queue(s.undelivered, u));
  }

  lemma ReplayKeepsOrder(log: seq<Entry>, pending: Log, c: nat, u: nat, q: seq<nat>)
    requires InOrder(log) && Increasing(q) && |pending| == |q|
    requires forall i :: 0 <= i < |q| ==> pending[i].id == q[i]
    ensures InOrder(log + ([Mark(c)] + Replays(pending, u, {c})))
  {
    var more := [Mark(c)] + Replays(pending, u, {c});
    forall i, j, d ensures PairInOrder(log + more, i, j, d) {
      if j < |log| { OldPair(log, more, i, j, d); } else { ReplayedPair(log, pending, c, u, q, i, j, d); }
    }
  }

  lemma ReplayedPair(log: seq<Entry>, pending: Log, c: nat, u: nat, q: seq<nat>, i: int, j: int, d: nat)
    requires Increasing(q) && |pending| == |q| && j >= |log|
    requires forall i :: 0 <= i < |q| ==> pending[i].id == q[i]
    ensures PairInOrder(log + ([Mark(c)] + Replays(pending, u, {c})), i, j, d)
  {
    var replays := Replays(pending, u, {c});
    var log' := log + ([Mark(c)] + replays);
    var n := |log|;
    if Unbroken(log', i, j, d) && Reaches(log'[i], d) && Reaches(log'[j], d) {
      assert log'[n] == Mark(c);
      assert log'[j] == replays[j - n - 1] && d == c;
      assert i > n;
      assert log'[i] == replays[i - n - 1];
    }
  }

  lemma RequestKeepsOrder(s: Server, u: nat, e: Event)
    requires Inv(s) && InOrder(s.log)
    ensures InOrder(Request(s, u, e).log)
  {
    hide Request, IsSending, InOrder, Conserved, HandedOnce, QueuesValid;
    var more := RequestAppends(s, u, e);
    SendKeepsOrder(s.log, more, NextId(s), s.presence);
  }

  lemma StepKeepsOrder(s: Server, e: Event)
    requires Inv(s) && InOrder(s.log)
    ensures InOrder(Step(s, e).log)
  {
    hide Inv, InOrder, BoundTo, Request;
    if !e.Register? && !e.Connect? && e.conn in s.conns {
      if e.Login? {
        BindKeepsOrder(s, e.conn, e.id);
      } else if e.Logout? || e.Close? {
        MarkKeepsOrder(s.log, e.conn);
      } else {
        if s.conns[e.conn].user == 0 && e.auth.Some? {
          BindKeeps(s, e.conn, e.auth.value);
          BindKeepsOrder(s, e.conn, e.auth.value);
        }
        var (t, u) := Authenticated(s, e.conn, e.auth);
        RequestKeepsOrder(t, u, e);
      }
    }
  }

  /** Over every run, what a connection is handed during one binding is in order, the replay first. */
  lemma {:induction false} EachBindingIsInOrder(maxMessage: nat, es: seq<Event>)
    ensures InOrder(Run(maxMessage, es).log)
  {
    if es != [] {
      var before := es[..|es| - 1];
      EachBindingIsInOrder(maxMessage, before);
      RunKeeps(maxMessage, before);
      StepKeepsOrder(Run(maxMessage, before), es[|es| - 1]);
    }
  }

  // ---- whose connections -------------------------------------------

  /** An open connection with an identity is bound to it. */
  ghost predicate IdentityIsBound(s: Server) {
    forall c :: c in s.conns && s.conns[c].open && s.conns[c].user != 0 ==>
      P.IsBound(s.presence, s.conns[c].user, c)
  }

  /** Whatever is bound to a user is an open connection with that identity. */
  ghost predicate BoundIsIdentity(s: Server) {
    forall u, c :: P.IsBound(s.presence, u, c) ==> u != 0 && c in s.conns && s.conns[c] == Conn(true, u)
  }

  /** The user an event binds its connection to, or 0. */
  function Binds(s: Server, e: Event): nat {
    if e.Register? || e.Connect? || e.Logout? || e.Close? || e.conn !in s.conns then 0
    else if e.Login? then e.id
    else if s.conns[e.conn].user == 0 && e.auth.Some? then e.auth.value
    else 0
  }

  /** A connection is bound after it has closed, or while it still carries another identity. */
  ghost predicate Stale(s: Server, e: Event) {
    var u := Binds(s, e);
    u != 0 && (!s.conns[e.conn].open || s.conns[e.conn].user !in {0, u})
  }

  lemma BindSets(s: Server, c: nat, u: nat)
    requires c in s.conns
    ensures BoundTo(s, c, u).conns == s.conns[c := s.conns[c].(user := u)]
    ensures BoundTo(s, c, u).presence == P.Bound(s.presence, u, c)
  {
  }

  /** A request changes the two tables only by what it binds. */
  lemma RequestSets(s: Server, e: Event)
    requires !e.Register? && !e.Connect? && !e.Logout? && !e.Close? && e.conn in s.conns
    ensures var s', u := Step(s, e), Binds(s, e);
            if u == 0 then s'.conns == s.conns && s'.presence == s.presence
            else && s'.conns == s.conns[e.conn := s.conns[e.conn].(user := u)]
                 && s'.presence == P.Bound(s.presence, u, e.conn)
  {
    hide BoundTo, Request;
    if Binds(s, e) != 0 { BindSets(s, e.conn, Binds(s, e)); }
    if !e.Login? {
      var (t, u) := Authenticated(s, e.conn, e.auth);
      var _ := RequestAppends(t, u, e);
    }
  }

  lemma StepKeepsIdentity(s: Server, e: Event)
    requires IdentityIsBound(s)
    ensures IdentityIsBound(Step(s, e))
  {
    if !e.Register? && !e.Connect? && e.conn in s.conns {
      hide P.IsBound, P.Bound, P.Unbound;
      if e.Logout? || e.Close? {
        forall u, c { P.UnboundPairs(s.presence, s.conns[e.conn].user, e.conn, u, c); }
      } else {
        hide Step;
        RequestSets(s, e);
        forall u, c { P.BoundPairs(s.presence, Binds(s, e), e.conn, u, c); }
      }
    }
  }

  lemma {:induction false} IdentityIsAlwaysBound(maxMessage: nat, es: seq<Event>)
    ensures IdentityIsBound(Run(maxMessage, es))
  {
    if es != [] {
      var before := es[..|es| - 1];
      IdentityIsAlwaysBound(maxMessage, before);
      StepKeepsIdentity(Run(maxMessage, before), es[|es| - 1]);
    }
  }

  /** The binding table agrees with the connections' identities after an event exactly if the event is not stale. */
  lemma AgreementIsKeptUnlessStale(s: Server, e: Event)
    requires IdentityIsBound(s) && BoundIsIdentity(s)
    ensures BoundIsIdentity(Step(s, e)) <==> !Stale(s, e)
  {
    if !e.Register? && !e.Connect? && e.conn in s.conns {
      if e.Logout? || e.Close? {
        hide P.IsBound, P.Unbound;
        forall u, c { P.UnboundPairs(s.presence, s.conns[e.conn].user, e.conn, u, c); }
      } else {
        RequestKeepsAgreement(s, e);
      }
    }
  }

  lemma RequestKeepsAgreement(s: Server, e: Event)
    requires !e.Register? && !e.Connect? && !e.Logout? && !e.Close? && e.conn in s.conns
    requires IdentityIsBound(s) && BoundIsIdentity(s)
    ensures BoundIsIdentity(Step(s, e)) <==> !Stale(s, e)
  {
    hide Step, P.IsBound, P.Bound;
    RequestSets(s, e);
    forall u, c { P.BoundPairs(s.presence, Binds(s, e), e.conn, u, c); }
    assert Binds(s, e) != 0 ==> P.IsBound(Step(s, e).presence, Binds(s, e), e.conn);
    assert Stale(s, e) && s.conns[e.conn].open ==> P.IsBound(Step(s, e).presence, s.conns[e.conn].user, e.conn);
  }

  ghost predicate NeverStale(maxMessage: nat, es: seq<Event>) {
    forall i :: 0 <= i < |es| ==> !Stale(Run(maxMessage, es[..i]), es[i])
  }

  ghost predicate AlwaysAgree(maxMessage: nat, es: seq<Event>) {
    forall i :: 0 <= i <= |es| ==> BoundIsIdentity(Run(maxMessage, es[..i]))
  }

  lemma AgreeSnoc(maxMessage: nat, es: seq<Event>, e: Event)
    ensures AlwaysAgree(maxMessage, es + [e]) <==>
            AlwaysAgree(maxMessage, es) && BoundIsIdentity(Run(maxMessage, es + [e]))
  {
    hide Run, BoundIsIdentity;
    assert (es + [e])[..|es| + 1] == es + [e];
    assert forall i :: 0 <= i <= |es| ==> (es + [e])[..i] == es[..i];
  }

  lemma StaleSnoc(maxMessage: nat, es: seq<Event>, e: Event)
    ensures NeverStale(maxMessage, es + [e]) <==> NeverStale(maxMessage, es) && !Stale(Run(maxMessage, es), e)
  {
    hide Run, Stale;
    assert (es + [e])[..|es|] == es && (es + [e])[|es|] == e;
    assert forall i :: 0 <= i <= |es| ==> (es + [e])[..i] == es[..i];
  }

  /** Throughout a run the two tables agree, exactly if no event of the run is stale. */
  lemma {:induction false} PresenceAgreesUnlessStale(maxMessage: nat, es: seq<Event>)
    ensures AlwaysAgree(maxMessage, es) <==> NeverStale(maxMessage, es)
  {
    hide Step, Stale, BoundIsIdentity;
    if es == [] {
      assert es[..0] == es;
      NobodyIsBound(maxMessage);
    } else {
      hide AlwaysAgree, NeverStale;
      var before, e := es[..|es| - 1], es[|es| - 1];
      assert es == before + [e];
      PresenceAgreesUnlessStale(maxMessage, before);
      AgreeSnoc(maxMessage, before, e);
      StaleSnoc(maxMessage, before, e);
      IdentityIsAlwaysBound(maxMessage, before);
      if AlwaysAgree(maxMessage, before) {
        AgreeNow(maxMessage, before);
        AgreementIsKeptUnlessStale(Run(maxMessage, before), e);
      }
    }
  }

  lemma AgreeNow(maxMessage: nat, es: seq<Event>)
    requires AlwaysAgree(maxMessage, es)
    ensures BoundIsIdentity(Run(maxMessage, es))
  {
    assert es[..|es|] == es;
  }

  lemma NobodyIsBound(maxMessage: nat)
    ensures BoundIsIdentity(Init(maxMessage))
  {
  }

  ghost predicate OwnersOnly(b: Entry, conns: map<nat, Conn>) {
    b.Batch? ==> forall u, c :: P.IsBound(b.to, u, c) ==> c in conns && conns[c] == Conn(true, u)
  }

  ghost predicate ToOwners(entries: seq<Entry>, conns: map<nat, Conn>) {
    forall i :: 0 <= i < |entries| ==> OwnersOnly(entries[i], conns)
  }

  lemma BoundAreOwners(entries: seq<Entry>, s: Server)
    requires ToAllBound(entries, s.presence) && BoundIsIdentity(s)
    ensures ToOwners(entries, s.conns)
  {
    forall i | 0 <= i < |entries| && entries[i].Batch? ensures OwnersOnly(entries[i], s.conns) {
      assert forall u, c :: P.IsBound(entries[i].to, u, c) ==> P.IsBound(s.presence, u, c);
    }
  }

  /** Then each message goes only to open connections that carry the identity of the user it is for. */
  lemma HandedToOwners(s: Server, e: Event) returns (more: seq<Entry>)
    requires IdentityIsBound(s) && BoundIsIdentity(s) && !Stale(s, e)
    ensures Step(s, e).log == s.log + more && ToOwners(more, Step(s, e).conns)
  {
    hide Step, Stale, ToAllBound, ToOwners, BoundIsIdentity;
    more := HandedToAllBound(s, e);
    AgreementIsKeptUnlessStale(s, e);
    BoundAreOwners(more, Step(s, e));
  }

  /** The stale case: a login that runs after its connection has closed swallows what is sent to that user next. */
  lemma LoginAfterCloseLosesMessages(s: Server, c: nat, u: user, from: nat, content: string, ts: int)
    requires c in s.conns && !s.conns[c].open && u !in s.presence
    ensures Stale(s, Login(c, u))
    ensures var t := Step(s, Login(c, u));
            var t' := SentDm(t, from, u, content, ts);
            && !t'.conns[c].open && Queue(t'.undelivered, u) == []
            && |t.log| < |t'.log| && t'.log[|t.log|] == Batch(Live, NextId(t), map[u := {c}])
  {
    hide Found, WithStatus;
    BindAppends(s, c, u);
    var t := Step(s, Login(c, u));
    assert t.presence[u] == {c};
  }

  /**
   * The other stale case: a second login without a logout leaves the first binding in place. Messages for the first
   * user go to a connection that now carries the second one's identity, and the binding outlives the connection.
   */
  lemma SecondLoginKeepsFirstBinding(s: Server, c: nat, a: user, b: user, from: nat, content: string, ts: int)
    requires c in s.conns && s.conns[c] == Conn(true, a) && P.IsBound(s.presence, a, c) && a != b
    ensures Stale(s, Login(c, b))
    ensures var t := Step(s, Login(c, b));
            var t' := SentDm(t, from, a, content, ts);
            && c in t'.conns && t'.conns[c] == Conn(true, b)
            && P.IsBound(t.presence, a, c) && |t.log| < |t'.log|
            && t'.log[|t.log|] == Batch(Live, NextId(t), map[a := t.presence[a]])
    ensures var gone := Step(Step(s, Login(c, b)), Close(c));
            P.IsBound(gone.presence, a, c) && c in gone.conns && !gone.conns[c].open
  {
    hide Found, WithStatus, P.Bound, P.Unbound;
    BindAppends(s, c, b);
    BindSets(s, c, b);
    P.BoundPairs(s.presence, b, c, a, c);
    P.UnboundPairs(P.Bound(s.presence, b, c), b, c, a, c);
  }
}
