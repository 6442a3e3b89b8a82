/** What a request leaves behind: the message it stores, whom it reaches at once, and who is in a room. */
module DeliveryContents {
  import opened Options
  import opened Messages
  import opened Store
  import opened Delivery
  import opened DeliveryRuns

  // ---- what is stored ----------------------------------------------

  /** The request is a send that the server takes: with a sender, a receiver or room, and content of a good size. */
  ghost predicate Accepted(s: Server, e: Event) {
    && IsSend(s, e) && 1 <= |e.content| <= s.maxMessage
    && if e.SendDm? then e.receiver != 0 && e.receiver in s.users
       else e.room != 0 && SenderOf(s, e.conn, e.auth) in Members(s.members, e.room)
  }

  /** The message such a request asks for. */
  function Asked(s: Server, e: Event): Message
    requires (e.SendDm? || e.SendRoom?) && e.conn in s.conns
  {
    Message(|s.messages| + 1, SenderOf(s, e.conn, e.auth),
            if e.SendDm? then Some(e.receiver) else None, if e.SendRoom? then Some(e.room) else None, e.content, 0, e.ts)
  }

  /** A status update of the newest message. */
  lemma StatusOfLast(log: Log, m: Message, status: nat)
    requires forall i :: 0 <= i < |log| ==> log[i].id != m.id
    ensures WithStatus(log + [m], m.id, status) == log + [m.(status := status)]
  {
    var all := log + [m];
    WithStatusAt(all, m.id, status, |log|);
    assert all[|log|] == m && all[..|log|] == log;
  }

  lemma DmStores(s: Server, sender: nat, receiver: nat, content: string, ts: int)
    requires forall i :: 0 <= i < |s.messages| ==> s.messages[i].id == i + 1
    ensures SentDm(s, sender, receiver, content, ts).messages ==
            s.messages + [Message(|s.messages| + 1, sender, Some(receiver), None, content,
                                  if receiver in s.presence then 1 else 0, ts)]
  {
    hide WithStatus, Enqueued;
    StatusOfLast(s.messages, Message(|s.messages| + 1, sender, Some(receiver), None, content, 0, ts), 1);
  }

  /** The message that step `e` adds: delivered at once only if it is direct and its receiver is online by then. */
  ghost function Stored(s: Server, e: Event): Message
    requires (e.SendDm? || e.SendRoom?) && e.conn in s.conns
  {
    var online := e.SendDm? && e.receiver in Authenticated(s, e.conn, e.auth).0.presence;
    Asked(s, e).(status := if online then 1 else 0)
  }

  /** An accepted send adds exactly the message it asks for; nothing else touches the log. */
  lemma SendStores(s: Server, e: Event)
    requires Numbered(s) && CacheExact(s)
    ensures Step(s, e).messages == if Accepted(s, e) then s.messages + [Stored(s, e)] else s.messages
  {
    hide BoundTo, SentDm, SentRoom, Authenticated;
    if e.Login? && e.conn in s.conns {
      BindingStoresNothing(s, e.conn, e.id);
    } else if !e.Register? && !e.Connect? && !e.Logout? && !e.Close? && e.conn in s.conns {
      AuthenticationStoresNothing(s, e.conn, e.auth);
      var t, from := Authenticated(s, e.conn, e.auth).0, SenderOf(s, e.conn, e.auth);
      if e.SendDm? {
        DmStores(t, from, e.receiver, e.content, e.ts);
      } else if e.SendRoom? {
        RoomStores(t, from, e.room, e.content, e.ts);
      }
    }
  }

  lemma RoomStores(s: Server, sender: nat, room: nat, content: string, ts: int)
    requires CacheExact(s)
    ensures SentRoom(s, sender, room, content, ts).messages ==
            if sender in Members(s.members, room)
            then s.messages + [Message(|s.messages| + 1, sender, None, Some(room), content, 0, ts)] else s.messages
  {
    hide Enqueued, Online, Absent;
  }

  lemma RunStores(maxMessage: nat, es: seq<Event>, e: Event)
    ensures var s := Run(maxMessage, es);
            Run(maxMessage, es + [e]).messages == if Accepted(s, e) then s.messages + [Stored(s, e)] else s.messages
  {
    assert (es + [e])[..|es|] == es;
    RunKeeps(maxMessage, es);
    hide Step;
    SendStores(Run(maxMessage, es), e);
  }

  /** Over every run, each message of the log is the one that some accepted send asked for, and they come in order. */
  lemma {:induction false} EachMessageWasAsked(maxMessage: nat, es: seq<Event>, i: nat) returns (n: nat)
    requires i < |Run(maxMessage, es).messages|
    ensures n < |es|
    ensures var s := Run(maxMessage, es[..n]);
            Accepted(s, es[n]) && |s.messages| == i && Run(maxMessage, es).messages[i] == Stored(s, es[n])
    decreases |es|
  {
    var before, e := es[..|es| - 1], es[|es| - 1];
    assert es == before + [e];
    hide Step, Accepted, Stored;
    RunStores(maxMessage, before, e);
    if i < |Run(maxMessage, before).messages| {
      n := EachMessageWasAsked(maxMessage, before, i);
      assert before[..n] == es[..n] && before[n] == es[n];
    } else {
      n := |before|;
      assert es[..n] == before;
    }
  }

  // ---- who is handed it at once ------------------------------------

  /**
   * A direct message goes at once to the receiver's connections, as a delivery, and to the sender's own, as an echo;
   * a room message to those of every member who is online, the sender included.
   */
  lemma SendHandsOut(s: Server, e: Event)
    requires CacheExact(s) && Accepted(s, e)
    ensures var t, from, id := Authenticated(s, e.conn, e.auth).0, SenderOf(s, e.conn, e.auth), |s.messages| + 1;
            if e.SendDm? then
              Step(s, e).log == t.log
                + (if e.receiver in t.presence then [Batch(Live, id, map[e.receiver := t.presence[e.receiver]])] else [])
                + (if from in t.presence then [Batch(Echo, id, map[from := t.presence[from]])] else [])
            else
              Step(s, e).log == t.log
                + [Batch(Live, id, map u | u in Members(s.members, e.room) && u in t.presence :: t.presence[u])]
  {
    hide BoundTo, Authenticated;
    AuthenticationStoresNothing(s, e.conn, e.auth);
    var t, from := Authenticated(s, e.conn, e.auth).0, SenderOf(s, e.conn, e.auth);
    hide SentDm, SentRoom;
    if e.SendDm? {
      DmHandsOut(t, from, e.receiver, e.content, e.ts);
    } else {
      RoomHandsOut(t, from, e.room, e.content, e.ts);
    }
  }

  lemma DmHandsOut(s: Server, from: nat, receiver: nat, content: string, ts: int)
    ensures SentDm(s, from, receiver, content, ts).log == s.log
              + (if receiver in s.presence then [Batch(Live, NextId(s), map[receiver := s.presence[receiver]])] else [])
              + (if from in s.presence then [Batch(Echo, NextId(s), map[from := s.presence[from]])] else [])
  {
    hide WithStatus, Enqueued;
    assert s.log + [] == s.log;
  }

  lemma RoomHandsOut(s: Server, from: nat, room: nat, content: string, ts: int)
    requires CacheExact(s) && from in Members(s.members, room)
    ensures SentRoom(s, from, room, content, ts).log == s.log
              + [Batch(Live, NextId(s), map u | u in Members(s.members, room) && u in s.presence :: s.presence[u])]
  {
    hide Enqueued, Absent;
  }

  // ---- who is in a room --------------------------------------------

  /** An accepted operation on the membership of a user: true to enter, false to leave. */
  ghost function Moves(s: Server, e: Event, r: nat, u: nat): Option<bool> {
    if !(e.CreateRoom? || e.JoinRoom? || e.LeaveRoom?) || e.conn !in s.conns then None
    else if e.room != r || u == 0 || SenderOf(s, e.conn, e.auth) != u then None
    else if e.CreateRoom? then Some(true)
    else if e.JoinRoom? then (if r in s.rooms then Some(true) else None)
    else if r != 0 then Some(false) else None
  }

  /** The last such operation of a run; nobody is in a room before the first. */
  ghost function LastMove(maxMessage: nat, es: seq<Event>, r: nat, u: nat): bool {
    if es == [] then false
    else
      var before, e := es[..|es| - 1], es[|es| - 1];
      var move := Moves(Run(maxMessage, before), e, r, u);
      if move.Some? then move.value else LastMove(maxMessage, before, r, u)
  }

  lemma StepMoves(s: Server, e: Event, r: nat, u: nat)
    requires u != 0
    ensures u in Members(Step(s, e).members, r) <==>
            if Moves(s, e, r, u).Some? then Moves(s, e, r, u).value else u in Members(s.members, r)
  {
    hide BoundTo, SentDm, SentRoom, Authenticated;
    if e.Login? && e.conn in s.conns {
      BindingStoresNothing(s, e.conn, e.id);
    } else if !e.Register? && !e.Connect? && !e.Logout? && !e.Close? && e.conn in s.conns {
      AuthenticationStoresNothing(s, e.conn, e.auth);
      var t, from := Authenticated(s, e.conn, e.auth).0, SenderOf(s, e.conn, e.auth);
      if e.SendDm? {
        SendsMoveNobody(t, from, e.receiver, e.content, e.ts);
      } else if e.SendRoom? {
        SendsMoveNobody(t, from, e.room, e.content, e.ts);
      }
    }
  }

  lemma SendsMoveNobody(s: Server, from: nat, to: nat, content: string, ts: int)
    ensures SentDm(s, from, to, content, ts).members == s.members && SentRoom(s, from, to, content, ts).members == s.members
  {
    hide WithStatus, Enqueued, Online, Absent;
  }

  /** Over every run, a user is a stored member of a room exactly if the last accepted operation on the pair let them in. */
  lemma {:induction false} MembersAreLastMoves(maxMessage: nat, es: seq<Event>, r: nat, u: nat)
    requires u != 0
    ensures u in Members(Run(maxMessage, es).members, r) <==> LastMove(maxMessage, es, r, u)
  {
    if es != [] {
      var before := es[..|es| - 1];
      MembersAreLastMoves(maxMessage, before, r, u);
      hide Step, Moves;
      StepMoves(Run(maxMessage, before), es[|es| - 1], r, u);
    }
  }
}
