/**
 * From sent message to connection: the router, presence, the offline queue and the handlers that bind connections,
 * one whole handler or close callback at a time (chat/message_router, chat/chat_server, handlers/handlers).
 */
module Delivery {
  import opened Options
  import opened Messages
  import opened Store
  import P = Presence
  import RoomCache
  import Bytes

  type user = u: int | u >= 1 witness 1

  /** A message goes out live, as an echo to its sender's own sessions, or from the offline queue. */
  datatype Kind = Live | Echo | Replay

  /**
   * What connections see, in order: a batch is one event frame handed to all connections `to[u]` of each user `u`;
   * a mark is the moment a connection is bound, unbound or closed. Within a batch no order is promised.
   */
  datatype Entry = Mark(conn: nat) | Batch(kind: Kind, msg: nat, to: map<nat, set<nat>>)

  /** A connection as the handlers see it; user 0 is nobody. */
  datatype Conn = Conn(open: bool, user: nat)

  datatype Server = Server(
    maxMessage: nat,
    users: set<nat>, rooms: set<nat>, members: map<nat, set<nat>>, cache: map<nat, set<nat>>,
    messages: Log, undelivered: map<nat, seq<nat>>,
    presence: P.Table, conns: map<nat, Conn>,
    // histories: the batches, and for each message the users it is for
    log: seq<Entry>, targets: map<nat, set<nat>>)

  datatype Event =
    | Connect(conn: nat)
    | Register(id: user)
    | Login(conn: nat, id: user)                       // with good credentials
    | Logout(conn: nat)
    | Close(conn: nat)
    | SendDm(conn: nat, auth: Option<user>, receiver: nat, content: string, ts: int)
    | SendRoom(conn: nat, auth: Option<user>, room: nat, content: string, ts: int)
    | CreateRoom(conn: nat, auth: Option<user>, room: nat)
    | JoinRoom(conn: nat, auth: Option<user>, room: nat)
    | LeaveRoom(conn: nat, auth: Option<user>, room: nat)
    | Query(conn: nat, auth: Option<user>)             // histories, listings, presence, rejected requests

  function Init(maxMessage: nat): Server {
    Server(maxMessage, {}, {}, map[], map[], [], map[], map[], map[], [], map[])
  }

  // ---- binding -----------------------------------------------------

  function Replays(pending: Log, u: nat, conns: set<nat>): (entries: seq<Entry>)
    ensures |entries| == |pending|
  {
    seq(|pending|, i requires 0 <= i < |pending| => Batch(Replay, pending[i].id, map[u := conns]))
  }

  /** `replay_offline`: the queue is drained first; with no connection the drained messages go nowhere. */
  function Replayed(s: Server, u: nat): Server {
    var pending := Found(s.messages, Queue(s.undelivered, u));
    var t := s.(undelivered := s.undelivered - {u});
    if u in s.presence then t.(log := t.log + Replays(pending, u, s.presence[u])) else t
  }

  /** The connection takes the user's identity and is bound; going online replays. */
  function BoundTo(s: Server, c: nat, u: nat): Server
    requires c in s.conns
  {
    var t := s.(conns := s.conns[c := s.conns[c].(user := u)], presence := P.Bound(s.presence, u, c),
                log := s.log + [Mark(c)]);
    if u in s.presence then t else Replayed(t, u)
  }

  function Released(s: Server, c: nat): Server
    requires c in s.conns
  {
    var u := s.conns[c].user;
    s.(presence := if u != 0 then P.Unbound(s.presence, u, c) else s.presence, log := s.log + [Mark(c)])
  }

  /** `require_auth`: the connection's user, or else the owner of a valid token, who is then bound. */
  function Authenticated(s: Server, c: nat, auth: Option<user>): (r: (Server, nat))
    requires c in s.conns
  {
    var own: nat := s.conns[c].user;
    if own != 0 || auth.None? then (s, own) else (BoundTo(s, c, auth.value), auth.value)
  }

  // ---- sending -----------------------------------------------------

  /** The queues after `id` is appended for each of `to`. */
  function Enqueued(table: map<nat, seq<nat>>, to: set<nat>, id: nat): map<nat, seq<nat>> {
    map u | u in table.Keys + to :: if u in to then Queue(table, u) + [id] else Queue(table, u)
  }

  /** Those of the users that are online, with their connections. */
  function Online(table: P.Table, users: set<nat>): map<nat, set<nat>> {
    map u | u in users && u in table :: table[u]
  }

  /** The members a room message is queued for. */
  function Absent(table: P.Table, members: set<nat>, sender: nat): set<nat> {
    set u | u in members && u !in table && u != sender
  }

  function NextId(s: Server): nat { |s.messages| + 1 }

  /** The copy for the sender's own sessions. */
  function EchoOf(s: Server, sender: nat): (echo: seq<Entry>)
    ensures |echo| <= 1 && (echo != [] ==> echo[0].Batch? && echo[0].kind == Echo && echo[0].msg == NextId(s))
  {
    if sender in s.presence then [Batch(Echo, NextId(s), map[sender := s.presence[sender]])] else []
  }

  function SentDm(s: Server, sender: nat, receiver: nat, content: string, ts: int): Server {
    var id := NextId(s);
    var log := s.messages + [Message(id, sender, Some(receiver), None, content, 0, ts)];
    var echo := EchoOf(s, sender);
    var t := s.(targets := s.targets[id := {receiver}]);
    if receiver in s.presence then
      t.(messages := WithStatus(log, id, 1), log := s.log + [Batch(Live, id, map[receiver := s.presence[receiver]])] + echo)
    else
      t.(messages := log, undelivered := Enqueued(s.undelivered, {receiver}, id), log := s.log + echo)
  }

  function Loaded(s: Server, room: nat): Server {
    s.(cache := RoomCache.WithLoaded(s.cache, s.cache.Keys, s.members, room))
  }

  /** Every member with a connection gets the message now, the sender included; every other member later. */
  function SentRoom(s: Server, sender: nat, room: nat, content: string, ts: int): Server {
    var t := Loaded(s, room);
    if sender !in t.cache[room] then t
    else
      var id, members := NextId(s), t.cache[room];
      t.(messages := s.messages + [Message(id, sender, None, Some(room), content, 0, ts)],
         undelivered := Enqueued(s.undelivered, Absent(s.presence, members, sender), id),
         log := s.log + [Batch(Live, id, Online(s.presence, members))],
         targets := s.targets[id := members - {sender}])
  }

  // ---- rooms -------------------------------------------------------

  function Joined(s: Server, room: nat, u: nat): Server {
    var t := Loaded(s.(members := s.members[room := Members(s.members, room) + {u}]), room);
    t.(cache := t.cache[room := t.cache[room] + {u}])
  }

  function Left(s: Server, room: nat, u: nat): Server {
    s.(members := if room in s.members then s.members[room := s.members[room] - {u}] else s.members,
       cache := if room in s.cache then s.cache[room := s.cache[room] - {u}] else s.cache)
  }

  // ---- handlers ----------------------------------------------------

  predicate DmIsGood(s: Server, receiver: nat, content: string) {
    receiver != 0 && content != "" && |content| <= s.maxMessage && receiver in s.users
  }

  predicate RoomIsGood(s: Server, room: nat, content: string) {
    room != 0 && content != "" && |content| <= s.maxMessage
  }

  function Step(s: Server, e: Event): Server {
    if e.Register? then s.(users := s.users + {e.id})
    else if e.Connect? then
      if e.conn in s.conns then s else s.(conns := s.conns[e.conn := Conn(true, 0)])
    else if e.conn !in s.conns then s
    else if e.Login? then BoundTo(s, e.conn, e.id)
    else if e.Logout? then
      Released(s, e.conn).(conns := s.conns[e.conn := s.conns[e.conn].(user := 0)])
    else if e.Close? then
      if s.conns[e.conn].open then
        Released(s, e.conn).(conns := s.conns[e.conn := s.conns[e.conn].(open := false)])
      else s
    else
      var (t, u) := Authenticated(s, e.conn, e.auth);
      if u == 0 then t else Request(t, u, e)
  }

  /** An authenticated request. */
  function Request(s: Server, u: nat, e: Event): Server {
    match e
    case SendDm(_, _, receiver, content, ts) =>
      if DmIsGood(s, receiver, content) then SentDm(s, u, receiver, content, ts) else s
    case SendRoom(_, _, room, content, ts) =>
      if RoomIsGood(s, room, content) then SentRoom(s, u, room, content, ts) else s
    case CreateRoom(_, _, room) => Joined(s.(rooms := s.rooms + {room}), room, u)
    case JoinRoom(_, _, room) => if room in s.rooms then Joined(s, room, u) else s
    case LeaveRoom(_, _, room) => if room != 0 then Left(s, room, u) else s
    case _ => s
  }

  function Run(maxMessage: nat, es: seq<Event>): Server {
    if es == [] then Init(maxMessage) else Step(Run(maxMessage, es[..|es| - 1]), es[|es| - 1])
  }

  // ---- the invariant -----------------------------------------------

  /** Message ids are positions in the log, and every message has its target set. */
  ghost predicate Numbered(s: Server) {
    && (forall i :: 0 <= i < |s.messages| ==> s.messages[i].id == i + 1)
    && (forall m :: m in s.targets <==> 1 <= m <= |s.messages|)
    && (forall i :: 0 <= i < |s.log| && s.log[i].Batch? ==> s.log[i].msg in s.targets)
  }

  ghost predicate Increasing(q: seq<nat>) {
    forall i, j :: 0 <= i < j < |q| ==> q[i] < q[j]
  }

  /** Only offline users have a queue; it holds messages for them, oldest first, none twice. */
  ghost predicate QueuesValid(s: Server) {
    forall u :: u in s.undelivered ==>
      && u !in s.presence && Increasing(s.undelivered[u])
      && forall m :: m in s.undelivered[u] ==> m in s.targets && u in s.targets[m]
  }

  ghost predicate HandedAt(log: seq<Entry>, i: int, m: nat, u: nat) {
    0 <= i < |log| && log[i].Batch? && log[i].kind != Echo && log[i].msg == m && u in log[i].to
  }

  /** Message `m` has been handed to the connections of `u`, live or replayed. */
  ghost predicate Handed(log: seq<Entry>, m: nat, u: nat) {
    exists i :: HandedAt(log, i, m, u)
  }

  /** Never both, never neither. */
  ghost predicate Conserved(s: Server) {
    forall m, u :: m in s.targets && u in s.targets[m] ==>
      (m in Queue(s.undelivered, u) <==> !Handed(s.log, m, u))
  }

  /** And handed in one batch only. */
  ghost predicate HandedOnce(s: Server) {
    forall i, j, m, u :: HandedAt(s.log, i, m, u) && HandedAt(s.log, j, m, u) ==> i == j
  }

  ghost predicate CacheExact(s: Server) {
    forall r :: r in s.cache ==> s.cache[r] == Members(s.members, r)
  }

  ghost predicate Inv(s: Server) {
    Numbered(s) && QueuesValid(s) && Conserved(s) && HandedOnce(s) && CacheExact(s) && P.NoEmptySlot(s.presence)
  }

  // ---- replay ------------------------------------------------------

  lemma {:induction false} FoundIds(log: Log, ids: seq<nat>)
    requires forall i :: 0 <= i < |log| ==> log[i].id == i + 1
    requires forall k :: k in ids ==> 1 <= k <= |log|
    ensures |Found(log, ids)| == |ids|
    ensures forall i :: 0 <= i < |ids| ==> Found(log, ids)[i].id == ids[i]
  {
    if ids != [] {
      var n := |ids| - 1;
      assert forall k :: k in ids[..n] ==> k in ids;
      FoundIds(log, ids[..n]);
      assert ids[n] in ids;
      assert log[ids[n] - 1].id == ids[n];
      FirstWithAt(log, ids[n] - 1);
    }
  }

  lemma HandedGrows(log: seq<Entry>, more: seq<Entry>, m: nat, u: nat)
    requires Handed(log, m, u)
    ensures Handed(log + more, m, u)
  {
    var i :| HandedAt(log, i, m, u);
    assert HandedAt(log + more, i, m, u);
  }

  /** A mark hands nothing. */
  lemma MarkHandsNothing(log: seq<Entry>, c: nat, i: int, m: nat, u: nat)
    ensures HandedAt(log + [Mark(c)], i, m, u) <==> HandedAt(log, i, m, u)
    ensures Handed(log + [Mark(c)], m, u) <==> Handed(log, m, u)
  {
    if Handed(log, m, u) { HandedGrows(log, [Mark(c)], m, u); }
    if j :| HandedAt(log + [Mark(c)], j, m, u) { assert HandedAt(log, j, m, u); }
  }

  /** What a replay adds: the queued messages, for that user only. */
  lemma ReplayHands(log: seq<Entry>, pending: Log, u: nat, conns: set<nat>, i: int, m: nat, v: nat)
    ensures HandedAt(log + Replays(pending, u, conns), i, m, v) <==>
            || HandedAt(log, i, m, v)
            || (|log| <= i < |log| + |pending| && v == u && m == pending[i - |log|].id)
  {
  }

  lemma ReplayKeepsOthers(log: seq<Entry>, pending: Log, u: nat, conns: set<nat>, m: nat, v: nat)
    ensures var log' := log + Replays(pending, u, conns);
            && (Handed(log', m, v) <== Handed(log, m, v))
            && (Handed(log', m, v) && !Handed(log, m, v) ==> v == u && exists i :: 0 <= i < |pending| && pending[i].id == m)
            && (v == u && (exists i :: 0 <= i < |pending| && pending[i].id == m) ==> Handed(log', m, v))
  {
    var log' := log + Replays(pending, u, conns);
    if Handed(log, m, v) { HandedGrows(log, Replays(pending, u, conns), m, v); }
    if j :| HandedAt(log', j, m, v) {
      ReplayHands(log, pending, u, conns, j, m, v);
    }
    if i :| 0 <= i < |pending| && pending[i].id == m {
      ReplayHands(log, pending, u, conns, |log| + i, m, u);
    }
  }

  /** The queue of `u` and nobody else's is waiting although `u` is online: the state a replay starts from. */
  ghost predicate InvBut(s: Server, u: nat) {
    && Numbered(s) && Conserved(s) && HandedOnce(s) && CacheExact(s) && P.NoEmptySlot(s.presence)
    && u in s.presence && QueuesValid(s.(presence := s.presence - {u}))
  }

  /** A replay keeps the invariant, and hands over the queue in order. */
  lemma ReplayKeeps(s: Server, u: nat)
    requires InvBut(s, u)
    ensures Inv(Replayed(s, u))
    ensures var q, s' := Queue(s.undelivered, u), Replayed(s, u);
            && |s'.log| == |s.log| + |q| && s.log <= s'.log && u !in s'.undelivered
            && forall i :: 0 <= i < |q| ==> s'.log[|s.log| + i] == Batch(Replay, q[i], map[u := s.presence[u]])
  {
    var q := Queue(s.undelivered, u);
    var pending, conns, s' := Found(s.messages, q), s.presence[u], Replayed(s, u);
    assert forall m :: m in q ==> m in s.targets && u in s.targets[m];
    FoundIds(s.messages, q);
    hide Found;
    assert s'.log == s.log + Replays(pending, u, conns);
    assert forall i :: |s.log| <= i < |s'.log| ==> s'.log[i].msg == q[i - |s.log|];
    assert Numbered(s') by { assert forall i :: 0 <= i < |q| ==> q[i] in q; }
    ReplayConserves(s, u, q, pending);
    ReplayHandsOnce(s, u, q, pending);
  }

  lemma ReplayConserves(s: Server, u: nat, q: seq<nat>, pending: Log)
    requires Conserved(s) && u in s.presence && q == Queue(s.undelivered, u)
    requires |pending| == |q| && forall i :: 0 <= i < |q| ==> pending[i].id == q[i]
    requires forall m :: m in q ==> m in s.targets && u in s.targets[m]
    ensures Conserved(s.(undelivered := s.undelivered - {u}, log := s.log + Replays(pending, u, s.presence[u])))
  {
    var s' := s.(undelivered := s.undelivered - {u}, log := s.log + Replays(pending, u, s.presence[u]));
    forall m, v | m in s'.targets && v in s'.targets[m]
      ensures m in Queue(s'.undelivered, v) <==> !Handed(s'.log, m, v)
    {
      ReplayKeepsOthers(s.log, pending, u, s.presence[u], m, v);
      if v == u && m in q {
        var i :| 0 <= i < |q| && q[i] == m;
        assert pending[i].id == m;
      }
    }
  }

  lemma ReplayHandsOnce(s: Server, u: nat, q: seq<nat>, pending: Log)
    requires Conserved(s) && HandedOnce(s) && u in s.presence && q == Queue(s.undelivered, u) && Increasing(q)
    requires |pending| == |q| && forall i :: 0 <= i < |q| ==> pending[i].id == q[i]
    requires forall m :: m in q ==> m in s.targets && u in s.targets[m]
    ensures HandedOnce(s.(undelivered := s.undelivered - {u}, log := s.log + Replays(pending, u, s.presence[u])))
  {
    var log' := s.log + Replays(pending, u, s.presence[u]);
    forall i, j, m, v | HandedAt(log', i, m, v) && HandedAt(log', j, m, v) ensures i == j {
      ReplayHands(s.log, pending, u, s.presence[u], i, m, v);
      ReplayHands(s.log, pending, u, s.presence[u], j, m, v);
      if !HandedAt(s.log, i, m, v) { assert m == q[i - |s.log|] && m in q; }
      if !HandedAt(s.log, j, m, v) { assert m == q[j - |s.log|] && m in q; }
    }
  }

  lemma MarkKeeps(s: Server, s': Server, c: nat)
    requires Conserved(s) && HandedOnce(s)
    requires s'.log == s.log + [Mark(c)] && s'.undelivered == s.undelivered && s'.targets == s.targets
    ensures Conserved(s') && HandedOnce(s')
  {
    forall i, m, u { MarkHandsNothing(s.log, c, i, m, u); }
  }

  lemma BindKeeps(s: Server, c: nat, u: nat)
    requires Inv(s) && c in s.conns
    ensures Inv(BoundTo(s, c, u))
  {
    hide HandedAt;
    var t := s.(conns := s.conns[c := s.conns[c].(user := u)], presence := P.Bound(s.presence, u, c),
                log := s.log + [Mark(c)]);
    MarkKeeps(s, t, c);
    if u !in s.presence {
      assert t.presence - {u} == s.presence;
      ReplayKeeps(t, u);
    }
  }

  lemma ReleaseKeeps(s: Server, c: nat)
    requires Inv(s) && c in s.conns
    ensures Inv(Released(s, c))
  {
    hide HandedAt;
    MarkKeeps(s, Released(s, c), c);
  }

  // ---- sending -----------------------------------------------------

  /** A send hands the new message to the users of at most one batch besides the echo, and touches no other message. */
  lemma SendHands(log: seq<Entry>, more: seq<Entry>, id: nat, now: set<nat>, i: int, m: nat, u: nat)
    requires forall j :: 0 <= j < |log| && log[j].Batch? ==> log[j].msg != id
    requires forall j :: 0 <= j < |more| ==> more[j].Batch? && more[j].msg == id && (j > 0 ==> more[j].kind == Echo)
    requires now == if more != [] && more[0].kind != Echo then more[0].to.Keys else {}
    ensures m != id ==> (HandedAt(log + more, i, m, u) <==> HandedAt(log, i, m, u))
    ensures m == id ==> (HandedAt(log + more, i, m, u) <==> i == |log| && u in now)
  {
  }

  lemma SendConserves(s: Server, s': Server, id: nat, more: seq<Entry>,
                      targets: set<nat>, now: set<nat>, later: set<nat>)
    requires Conserved(s) && HandedOnce(s) && Numbered(s) && QueuesValid(s) && id == NextId(s)
    requires s'.log == s.log + more && s'.undelivered == Enqueued(s.undelivered, later, id)
    requires forall j :: 0 <= j < |more| ==> more[j].Batch? && more[j].msg == id && (j > 0 ==> more[j].kind == Echo)
    requires now == if more != [] && more[0].kind != Echo then more[0].to.Keys else {}
    // the targets are split into those reached now and those queued
    requires s'.targets == s.targets[id := targets]
    requires forall u :: u in targets ==> (u in later <==> u !in now)
    ensures Conserved(s') && HandedOnce(s')
  {
    forall m, u | m in s'.targets && u in s'.targets[m]
      ensures m in Queue(s'.undelivered, u) <==> !Handed(s'.log, m, u)
    {
      QueueAfterSend(s, later, id, m, u);
      if m == id {
        SendHands(s.log, more, id, now, |s.log|, m, u);
        if j :| HandedAt(s'.log, j, m, u) { SendHands(s.log, more, id, now, j, m, u); }
      } else {
        if Handed(s.log, m, u) { HandedGrows(s.log, more, m, u); }
        if j :| HandedAt(s'.log, j, m, u) { SendHands(s.log, more, id, now, j, m, u); }
      }
    }
    forall i, j, m, u | HandedAt(s'.log, i, m, u) && HandedAt(s'.log, j, m, u) ensures i == j {
      SendHands(s.log, more, id, now, i, m, u);
      SendHands(s.log, more, id, now, j, m, u);
    }
  }

  lemma QueueAfterSend(s: Server, later: set<nat>, id: nat, m: nat, u: nat)
    requires Numbered(s) && QueuesValid(s) && id == NextId(s)
    ensures m in Queue(Enqueued(s.undelivered, later, id), u) <==>
            (if m == id then u in later else m in Queue(s.undelivered, u))
  {
  }

  lemma SendKeepsQueues(s: Server, s': Server, id: nat, targets: set<nat>, later: set<nat>)
    requires Numbered(s) && QueuesValid(s) && id == NextId(s)
    requires s'.undelivered == Enqueued(s.undelivered, later, id) && s'.targets == s.targets[id := targets]
    requires s'.presence == s.presence && later <= targets && forall u :: u in later ==> u !in s.presence
    ensures QueuesValid(s')
  {
    forall u | u in s'.undelivered
      ensures u !in s'.presence && Increasing(s'.undelivered[u])
      ensures forall m :: m in s'.undelivered[u] ==> m in s'.targets && u in s'.targets[m]
    {
      var q := Queue(s.undelivered, u);
      QueueBelow(s, u);
      IncreasingSnoc(q, id);
    }
  }

  lemma QueueBelow(s: Server, u: nat)
    requires Numbered(s) && QueuesValid(s)
    ensures Increasing(Queue(s.undelivered, u))
    ensures forall m :: m in Queue(s.undelivered, u) ==> m < NextId(s) && m in s.targets && u in s.targets[m]
  {
  }

  lemma IncreasingSnoc(q: seq<nat>, id: nat)
    requires Increasing(q) && forall m :: m in q ==> m < id
    ensures Increasing(q + [id])
  {
    assert forall i :: 0 <= i < |q| ==> q[i] in q;
  }

  lemma SendKeepsNumbers(s: Server, s': Server, id: nat, m: Message, targets: set<nat>, more: seq<Entry>)
    requires Numbered(s) && id == NextId(s) && m.id == id
    requires s'.messages == s.messages + [m] || s'.messages == WithStatus(s.messages + [m], id, 1)
    requires s'.targets == s.targets[id := targets] && s'.log == s.log + more
    requires forall j :: 0 <= j < |more| ==> more[j].Batch? && more[j].msg == id
    ensures Numbered(s')
  {
    var log := s.messages + [m];
    WithStatusAlike(log, id, 1);
    forall i | 0 <= i < |s'.messages| ensures s'.messages[i].id == i + 1 {
      assert log[i].id == i + 1;
      if s'.messages != log { assert SameButStatus(log[i], s'.messages[i]); }
    }
  }

  lemma EnqueueOne(table: map<nat, seq<nat>>, to: set<nat>, id: nat, u: nat)
    requires u !in to
    ensures Enqueued(table, to + {u}, id) == Enqueued(table, to, id)[u := Queue(Enqueued(table, to, id), u) + [id]]
  {
  }

  lemma QueuedForOne(table: map<nat, seq<nat>>, id: nat, u: nat)
    ensures Enqueued(table, {u}, id) == table[u := Queue(table, u) + [id]]
  {
  }

  lemma OneMore(table: P.Table, done: set<nat>, sender: nat, u: nat)
    requires u !in done
    ensures u in table ==> Online(table, done + {u}) == Online(table, done)[u := table[u]]
    ensures u !in table ==> Online(table, done + {u}) == Online(table, done)
    ensures u !in Absent(table, done, sender)
    ensures Absent(table, done + {u}, sender) ==
            if u !in table && u != sender then Absent(table, done, sender) + {u} else Absent(table, done, sender)
  {
  }

  lemma EnqueuedForNobody(table: map<nat, seq<nat>>, id: nat)
    ensures Enqueued(table, {}, id) == table
  {
  }

  lemma DmOnlineKeeps(s: Server, sender: nat, receiver: nat, content: string, ts: int)
    requires Inv(s) && receiver in s.presence
    ensures Inv(SentDm(s, sender, receiver, content, ts))
  {
    hide HandedAt, WithStatus, Conserved, HandedOnce, Increasing, QueuesValid, Enqueued;
    var s', id := SentDm(s, sender, receiver, content, ts), NextId(s);
    var m := Message(id, sender, Some(receiver), None, content, 0, ts);
    var live, echo := [Batch(Live, id, map[receiver := s.presence[receiver]])], EchoOf(s, sender);
    assert s'.log == s.log + (live + echo) by { Bytes.Assoc(s.log, live, echo); }
    EnqueuedForNobody(s.undelivered, id);
    SendKeepsNumbers(s, s', id, m, {receiver}, live + echo);
    SendKeepsQueues(s, s', id, {receiver}, {});
    SendConserves(s, s', id, live + echo, {receiver}, {receiver}, {});
  }

  lemma DmOfflineKeeps(s: Server, sender: nat, receiver: nat, content: string, ts: int)
    requires Inv(s) && receiver !in s.presence
    ensures Inv(SentDm(s, sender, receiver, content, ts))
  {
    hide HandedAt, WithStatus, Conserved, HandedOnce, Increasing, QueuesValid, Enqueued;
    var s', id := SentDm(s, sender, receiver, content, ts), NextId(s);
    var m := Message(id, sender, Some(receiver), None, content, 0, ts);
    SendKeepsNumbers(s, s', id, m, {receiver}, EchoOf(s, sender));
    SendKeepsQueues(s, s', id, {receiver}, {receiver});
    SendConserves(s, s', id, EchoOf(s, sender), {receiver}, {}, {receiver});
  }

  lemma RoomKeeps(s: Server, sender: nat, room: nat, content: string, ts: int)
    requires Inv(s)
    ensures Inv(SentRoom(s, sender, room, content, ts))
  {
    hide HandedAt, Conserved, HandedOnce, Increasing, QueuesValid;
    var s', id, t := SentRoom(s, sender, room, content, ts), NextId(s), Loaded(s, room);
    var members := t.cache[room];
    if sender in members {
      var m := Message(id, sender, None, Some(room), content, 0, ts);
      var live := [Batch(Live, id, Online(s.presence, members))];
      var later := Absent(s.presence, members, sender);
      SendKeepsNumbers(s, s', id, m, members - {sender}, live);
      SendKeepsQueues(s, s', id, members - {sender}, later);
      SendConserves(s, s', id, live, members - {sender}, Online(s.presence, members).Keys, later);
    } else {
      FieldsThatDoNotMatter(s, t);
    }
  }

  /** Who is registered, what a connection is called and who is in a room play no part in conservation. */
  lemma FieldsThatDoNotMatter(s: Server, s': Server)
    requires Inv(s) && CacheExact(s')
    requires s' == s.(users := s'.users, conns := s'.conns,
                      rooms := s'.rooms, members := s'.members, cache := s'.cache)
    ensures Inv(s')
  {
  }

  lemma JoinKeeps(s: Server, room: nat, u: nat)
    requires Inv(s)
    ensures Inv(Joined(s, room, u))
  {
    FieldsThatDoNotMatter(s, Joined(s, room, u));
  }

  lemma LeaveKeeps(s: Server, room: nat, u: nat)
    requires Inv(s)
    ensures Inv(Left(s, room, u))
  {
    FieldsThatDoNotMatter(s, Left(s, room, u));
  }

  lemma RequestKeeps(s: Server, u: nat, e: Event)
    requires Inv(s)
    ensures Inv(Request(s, u, e))
  {
    hide Inv, SentDm, SentRoom, Joined, Left;
    match e {
      case SendDm(_, _, receiver, content, ts) =>
        if receiver in s.presence {
          DmOnlineKeeps(s, u, receiver, content, ts);
        } else {
          DmOfflineKeeps(s, u, receiver, content, ts);
        }
      case SendRoom(_, _, room, content, ts) => RoomKeeps(s, u, room, content, ts);
      case CreateRoom(_, _, room) =>
        assert Inv(s.(rooms := s.rooms + {room})) by { RoomAdded(s, room); }
        JoinKeeps(s.(rooms := s.rooms + {room}), room, u);
      case JoinRoom(_, _, room) => JoinKeeps(s, room, u);
      case LeaveRoom(_, _, room) => LeaveKeeps(s, room, u);
      case _ =>
    }
  }

  lemma RoomAdded(s: Server, room: nat)
    requires Inv(s)
    ensures Inv(s.(rooms := s.rooms + {room}))
  {
    FieldsThatDoNotMatter(s, s.(rooms := s.rooms + {room}));
  }

  lemma ConnsChanged(s: Server, users: set<nat>, conns: map<nat, Conn>)
    requires Inv(s)
    ensures Inv(s.(users := users, conns := conns))
  {
    FieldsThatDoNotMatter(s, s.(users := users, conns := conns));
  }

  lemma StepKeeps(s: Server, e: Event)
    requires Inv(s)
    ensures Inv(Step(s, e))
  {
    hide Inv, Request, BoundTo, Released;
    if e.Register? || e.Connect? {
      ConnsChanged(s, Step(s, e).users, Step(s, e).conns);
    } else if e.conn in s.conns {
      if e.Login? {
        BindKeeps(s, e.conn, e.id);
      } else if e.Logout? || e.Close? {
        ReleaseKeeps(s, e.conn);
        var t := Released(s, e.conn);
        ConnsChanged(t, t.users, s.conns[e.conn := s.conns[e.conn].(user := 0)]);
        ConnsChanged(t, t.users, s.conns[e.conn := s.conns[e.conn].(open := false)]);
      } else {
        if s.conns[e.conn].user == 0 && e.auth.Some? { BindKeeps(s, e.conn, e.auth.value); }
        var (t, u) := Authenticated(s, e.conn, e.auth);
        RequestKeeps(t, u, e);
      }
    }
  }

  lemma {:induction false} RunKeeps(maxMessage: nat, es: seq<Event>)
    ensures Inv(Run(maxMessage, es))
  {
    if es != [] {
      RunKeeps(maxMessage, es[..|es| - 1]);
      StepKeeps(Run(maxMessage, es[..|es| - 1]), es[|es| - 1]);
    }
  }

  // ---- theorems ----------------------------------------------------

  lemma CountInIncreasing(q: seq<nat>, m: nat)
    requires Increasing(q)
    ensures multiset(q)[m] == if m in q then 1 else 0
  {
    if q != [] {
      var n := |q| - 1;
      assert q == q[..n] + [q[n]];
      CountInIncreasing(q[..n], m);
      assert q[n] !in q[..n];
    }
  }

  /**
   * Delivery is conserved over every run: each message is, for each user it is meant for, either queued exactly once
   * or handed in exactly one batch, never both and never neither; and an online user's queue is empty.
   */
  lemma EveryMessageIsQueuedOrHanded(maxMessage: nat, es: seq<Event>, m: nat, u: nat)
    ensures var s := Run(maxMessage, es);
            && (m in s.targets <==> 1 <= m <= |s.messages|)
            && (m in s.targets && u in s.targets[m] ==>
                  multiset(Queue(s.undelivered, u))[m] == if Handed(s.log, m, u) then 0 else 1)
            && (forall i, j :: HandedAt(s.log, i, m, u) && HandedAt(s.log, j, m, u) ==> i == j)
            && (u in s.presence ==> Queue(s.undelivered, u) == [])
  {
    RunKeeps(maxMessage, es);
    var s := Run(maxMessage, es);
    hide Run;
    QueueBelow(s, u);
    CountInIncreasing(Queue(s.undelivered, u), m);
  }
}
