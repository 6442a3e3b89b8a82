/**
 * The server object: the message router and the request handlers over the store, presence and the room cache, each
 * proved to take the step that `Delivery` describes (chat/message_router, chat/chat_server, handlers/handlers).
 */
module ChatServer {
  import opened Options
  import opened Messages
  import opened Store
  import opened Delivery
  import opened DeliveryRuns
  import opened DeliveryContents
  import P = Presence
  import RoomCache
  import opened Sessions
  import Password
  import Pbkdf2
  import Bytes

  /** An answer to a request: an acknowledgement, with the id it is about, or the kind of error. */
  datatype Reply = Ack(id: nat) | Unauthorized | BadRequest | NotFound | Conflict | Internal

  /** The session token that comes with a request, possibly empty, and the time at which it is looked up. */
  datatype Auth = Auth(token: string, now: int)

  /** The owner of a valid token. */
  function OwnerOf(cache: Cache, auth: Auth): Option<user> {
    var info := Lookup(cache, auth.token, auth.now);
    if auth.token == "" || info.None? || info.value.user == 0 then None else Some(info.value.user)
  }

  /** The account that a name and a password open. */
  function Account(users: map<nat, User>, names: map<string, nat>, name: string, password: Bytes.Data): Option<user> {
    if name in names && names[name] in users && names[name] != 0 && Password.Verifies(password, users[names[name]].passwordHash)
    then Some(names[name])
    else None
  }

  lemma LoadedMembers(s: Delivery.Server, t: Delivery.Server, room: nat)
    requires SameStore(s, t)
    ensures room in Loaded(s, room).cache && room in Loaded(t, room).cache
    ensures Loaded(t, room).cache[room] == Loaded(s, room).cache[room]
    ensures CacheExact(s) ==> Loaded(s, room).cache[room] == Members(s.members, room)
  {
  }

  class Server {
    const repos: Repositories
    const presence: P.Registry
    const rooms: RoomCache.RoomManager
    const sessions: SessionManager
    const maxMessage: nat
    const iterations: nat
    var conns: map<nat, Conn>
    /** The session token of each connection. */
    var tokens: map<nat, string>
    /** The frames handed to connections so far, with the moments connections are bound and unbound. */
    var log: seq<Entry>
    ghost var targets: map<nat, set<nat>>

    ghost predicate Valid()
      reads this, repos, presence, rooms, sessions
    {
      && SessionsValid() && iterations < Bytes.TWO_TO_THE_32
      && repos.LogValid() && repos.NamesValid() && repos.nextMsgId == |repos.messages| + 1
      && presence.Valid() && rooms.Valid() && rooms.repos == repos
    }

    /** Sessions are those of registered users, whose ids start at 1. */
    ghost predicate SessionsValid()
      reads this, sessions
    {
      sessions.repos == repos && forall k :: k in sessions.cache ==> sessions.cache[k].user != 0
    }

    lemma IterationsFit()
      requires Valid()
      ensures iterations < Bytes.TWO_TO_THE_32
    {
    }

    ghost function Owner(auth: Auth): Option<user>
      reads sessions
    {
      OwnerOf(sessions.cache, auth)
    }

    /** The session cache and the connections' tokens after a request has been authenticated. */
    ghost function AuthLeaves(c: nat, auth: Auth): (Cache, map<nat, string>)
      requires c in conns
      reads this, sessions
    {
      if conns[c].user != 0 || auth.token == "" then (sessions.cache, tokens)
      else (AfterLookup(sessions.cache, auth.token, auth.now),
            if Owner(auth).Some? then tokens[c := auth.token] else tokens)
    }

    /** The server's state for message delivery as one value. */
    ghost function Model(): Delivery.Server
      reads this, repos, presence, rooms
    {
      Delivery.Server(maxMessage, repos.users.Keys, repos.rooms.Keys, repos.roomMembers, rooms.cache,
                      repos.messages, repos.undelivered, presence.table, conns, log, targets)
    }

    constructor (maxMessage: nat, iterations: nat, ttlSeconds: int, now: int)
      requires iterations < Bytes.TWO_TO_THE_32
      ensures Valid() && fresh(repos) && fresh(presence) && fresh(rooms) && fresh(sessions)
      ensures Model() == Init(maxMessage) && sessions.cache == map[] && this.iterations == iterations
    {
      var store := new Repositories();
      repos := store;
      presence := new P.Registry();
      rooms := new RoomCache.RoomManager(store);
      sessions := new SessionManager(store, ttlSeconds);
      this.maxMessage, this.iterations := maxMessage, iterations;
      conns, tokens, log, targets := map[], map[], [], map[];
      new;
      sessions.Warm(now);
    }

    // ---- message router ---------------------------------------------

    method SendDm(sender: nat, receiver: nat, content: string, ts: int) returns (id: nat)
      requires Valid()
      modifies this`log, this`targets, repos`messages, repos`nextMsgId, repos`undelivered
      ensures Valid() && id == old(|repos.messages|) + 1
      ensures repos.messages == old(repos.messages) + [Message(id, sender, Some(receiver), None, content,
                                                               if receiver in presence.table then 1 else 0, ts)]
      ensures Model() == SentDm(old(Model()), sender, receiver, content, ts)
    {
      hide WithStatus, Enqueued, Ordered, Evolves;
      StatusOfLast(repos.messages, Message(|repos.messages| + 1, sender, Some(receiver), None, content, 0, ts), 1);
      id := repos.Insert(sender, Some(receiver), None, content, ts);
      targets := targets[id := {receiver}];
      PushOrQueue(id, receiver);
      Echo(id, sender);
    }

    method PushOrQueue(id: nat, receiver: nat)
      requires Valid()
      modifies this`log, repos`messages, repos`undelivered
      ensures Valid()
      ensures receiver in presence.table ==>
                && log == old(log) + [Batch(Live, id, map[receiver := presence.table[receiver]])]
                && repos.messages == WithStatus(old(repos.messages), id, 1)
                && repos.undelivered == old(repos.undelivered)
      ensures receiver !in presence.table ==>
                && log == old(log) && repos.messages == old(repos.messages)
                && repos.undelivered == Enqueued(old(repos.undelivered), {receiver}, id)
    {
      hide WithStatus, Ordered, Evolves;
      var to := presence.Connections(receiver);
      if to == {} {
        repos.EnqueueUndelivered(id, receiver);
        QueuedForOne(old(repos.undelivered), id, receiver);
      } else {
        log := log + [Batch(Live, id, map[receiver := to])];
        repos.UpdateMessageStatus(id, 1);
      }
    }

    method Echo(id: nat, sender: nat)
      requires presence.Valid()
      modifies this`log
      ensures log == old(log) + if sender in presence.table
                                then [Batch(Kind.Echo, id, map[sender := presence.table[sender]])]
                                else []
    {
      var own := presence.Connections(sender);
      if own != {} { log := log + [Batch(Kind.Echo, id, map[sender := own])]; }
    }

    /** Hands message `id` to each member with a connection and queues it for the others except the sender. */
    method FanOut(id: nat, sender: nat, members: set<nat>)
      requires presence.Valid()
      modifies this`log, repos`undelivered
      ensures log == old(log) + [Batch(Live, id, Online(presence.table, members))]
      ensures repos.undelivered == Enqueued(old(repos.undelivered), Absent(presence.table, members, sender), id)
    {
      var sent: map<nat, set<nat>>, rest, done := map[], members, {};
      EnqueuedForNobody(repos.undelivered, id);
      assert Absent(presence.table, {}, sender) == {};
      while rest != {}
        invariant done + rest == members && done !! rest && log == old(log)
        invariant sent == Online(presence.table, done)
        invariant repos.undelivered == Enqueued(old(repos.undelivered), Absent(presence.table, done, sender), id)
        decreases rest
      {
        hide Enqueued, Online, Absent;
        var u :| u in rest;
        OneMore(presence.table, done, sender, u);
        EnqueueOne(old(repos.undelivered), Absent(presence.table, done, sender), id, u);
        rest, done := rest - {u}, done + {u};
        var to := presence.Connections(u);
        if to == {} {
          if u != sender {
            repos.EnqueueUndelivered(id, u);
          }
        } else {
          sent := sent[u := to];
        }
      }
      assert done == members;
      log := log + [Batch(Live, id, sent)];
    }

    method SendRoom(sender: nat, room: nat, content: string, ts: int) returns (id: nat)
      requires Valid()
      modifies this`log, this`targets, repos`messages, repos`nextMsgId, repos`undelivered, rooms
      ensures Valid()
      ensures Model() == SentRoom(old(Model()), sender, room, content, ts)
      ensures id == if sender in Loaded(old(Model()), room).cache[room] then old(|repos.messages|) + 1 else 0
      ensures repos.messages == old(repos.messages) +
                if id == 0 then [] else [Message(id, sender, None, Some(room), content, 0, ts)]
    {
      hide Enqueued, Online, Absent, Ordered, Evolves, Repositories.NamesValid;
      var member := rooms.IsMember(room, sender);
      if !member { return 0; }
      id := repos.Insert(sender, None, Some(room), content, ts);
      var members := rooms.MembersOf(room);
      targets := targets[id := members - {sender}];
      FanOut(id, sender, members);
    }

    method ReplayOffline(u: nat)
      requires Valid()
      modifies this`log, repos`undelivered
      ensures Valid() && Model() == Replayed(old(Model()), u)
    {
      hide Found, Ordered;
      var pending := repos.DrainUndelivered(u);
      var to := presence.Connections(u);
      if pending == [] || to == {} {
        assert forall to :: Replays([], u, to) == [];
        return;
      }
      PushReplays(pending, u, to);
    }

    method PushReplays(pending: Log, u: nat, to: set<nat>)
      modifies this`log
      ensures log == old(log) + Replays(pending, u, to)
    {
      for i := 0 to |pending|
        invariant log == old(log) + Replays(pending[..i], u, to)
      {
        assert pending[..i + 1] == pending[..i] + [pending[i]];
        log := log + [Batch(Replay, pending[i].id, map[u := to])];
      }
      assert pending[..|pending|] == pending;
    }

    // ---- handlers ----------------------------------------------------

    /** The connection takes the identity and is bound; the transition handler replays when the user came online. */
    method BindConnection(c: nat, u: nat)
      requires Valid() && c in conns
      modifies this`conns, this`log, presence, repos`undelivered
      ensures Valid() && Model() == BoundTo(old(Model()), c, u)
    {
      hide Ordered, Replayed;
      conns := conns[c := conns[c].(user := u)];
      var wentOnline := presence.Bind(u, c);
      log := log + [Mark(c)];
      if wentOnline { ReplayOffline(u); }
    }

    method OnConnect(c: nat)
      requires Valid() && c !in conns
      modifies this`conns
      ensures Valid() && Model() == Step(old(Model()), Connect(c)) && conns == old(conns)[c := Conn(true, 0)]
    {
      conns := conns[c := Conn(true, 0)];
    }

    /** The salt comes from the random source. */
    method HandleRegister(name: string, password: Bytes.Data, salt: Bytes.Data, now: int) returns (r: Reply)
      requires Valid()
      modifies repos`users, repos`usernames, repos`nextUserId
      ensures Valid()
      ensures r.BadRequest? <==> !(1 <= |name| <= 64 && |password| >= 4)
      ensures r.Ack? <==> 1 <= |name| <= 64 && |password| >= 4 && name !in old(repos.usernames)
      ensures r.Ack? ==>
                && r.id != 0 && r.id !in old(repos.users) && Model() == Step(old(Model()), Register(r.id))
                && repos.usernames == old(repos.usernames)[name := r.id]
                && repos.users == old(repos.users)[r.id := User(name, Password.Made(password, salt, iterations), now, 0)]
      ensures !r.Ack? ==> Model() == old(Model()) && repos.users == old(repos.users) && repos.usernames == old(repos.usernames)
    {
      hide Password.Made, Repositories.LogValid;
      if name == "" || password == [] || |name| > 64 || |password| < 4 { return BadRequest; }
      var hash := Password.MakePasswordHash(password, iterations, salt);
      var id := repos.CreateUser(name, hash, now);
      if id.None? { return Conflict; }
      assert repos.users.Keys == old(repos.users).Keys + {id.value};
      return Ack(id.value);
    }

    /** The new token comes from the random source. */
    method HandleLogin(c: nat, name: string, password: Bytes.Data, token: string, now: int) returns (r: Reply)
      requires Valid() && c in conns
      modifies this`conns, this`tokens, this`log, presence, sessions, repos`undelivered, repos`sessions
      ensures Valid()
      // a known name, and a password that verifies against its stored hash
      ensures r.Ack? <==> name in repos.usernames && repos.usernames[name] in repos.users
                          && Password.Verifies(password, repos.users[repos.usernames[name]].passwordHash)
      ensures r.Ack? ==> r.id == repos.usernames[name]
      ensures var account := Account(repos.users, repos.usernames, name, password);
              && (account.None? ==> && r == Unauthorized && Model() == old(Model()) && sessions.cache == old(sessions.cache)
                                    && repos.sessions == old(repos.sessions) && tokens == old(tokens))
              && (account.Some? ==> && r == Ack(account.value)
                                    && Model() == Step(old(Model()), Login(c, account.value))
                                    && tokens == old(tokens)[c := token]
                                    && sessions.cache == old(sessions.cache)[token := Info(account.value, now + sessions.ttl)]
                                    && repos.sessions == PutRow(old(repos.sessions), SessionRow(token, account.value, now)))
    {
      hide Password.Verifies, BoundTo, Repositories.LogValid, PutRow;
      if name !in repos.usernames { return Unauthorized; }
      var u := repos.usernames[name];
      var ok := Password.VerifyPasswordHash(password, repos.users[u].passwordHash);
      if !ok { return Unauthorized; }
      sessions.Create(u, token, now);
      tokens := tokens[c := token];
      BindConnection(c, u);
      return Ack(u);
    }

    /** Unbinds the connection's user; the transition handler notes when the user went offline. */
    method Release(c: nat, now: int)
      requires Valid() && c in conns
      modifies this`log, presence, repos`users
      ensures Valid() && Model() == Released(old(Model()), c)
      ensures forall u :: u in repos.users ==>
                repos.users[u] == if u == conns[c].user && u in old(presence.table) && u !in presence.table
                                  then old(repos.users)[u].(lastSeen := now) else old(repos.users)[u]
    {
      hide Repositories.LogValid, Repositories.NamesValid;
      var u := conns[c].user;
      if u != 0 {
        var wentOffline := presence.Unbind(u, c);
        if wentOffline { repos.UpdateLastSeen(u, now); }
      }
      log := log + [Mark(c)];
    }

    method HandleLogout(c: nat, now: int) returns (r: Reply)
      requires Valid() && c in conns
      modifies this`conns, this`tokens, this`log, presence, sessions, repos`sessions, repos`users
      ensures Valid() && r == Ack(0) && Model() == Step(old(Model()), Logout(c))
      ensures tokens == old(tokens)[c := ""]
      ensures var token := old(if c in tokens then tokens[c] else "");
              if token == "" then sessions.cache == old(sessions.cache) && repos.sessions == old(repos.sessions)
              else sessions.cache == old(sessions.cache) - {token} && repos.sessions == DropRows(old(repos.sessions), token)
    {
      hide Repositories.LogValid, Repositories.NamesValid, Released, DropRows;
      if c in tokens && tokens[c] != "" { sessions.Revoke(tokens[c]); }
      Release(c, now);
      conns := conns[c := conns[c].(user := 0)];
      tokens := tokens[c := ""];
      return Ack(0);
    }

    /** The close callback; the connection calls it once. */
    method OnClose(c: nat, now: int)
      requires Valid() && c in conns && conns[c].open
      modifies this`conns, this`log, presence, repos`users
      ensures Valid() && Model() == Step(old(Model()), Close(c))
    {
      hide Repositories.LogValid, Repositories.NamesValid, Released;
      Release(c, now);
      conns := conns[c := conns[c].(open := false)];
    }

    method RequireAuth(c: nat, auth: Auth) returns (u: nat)
      requires Valid() && c in conns
      modifies this`conns, this`tokens, this`log, presence, sessions, repos`undelivered
      ensures Valid() && (Model(), u) == Authenticated(old(Model()), c, old(Owner(auth)))
      ensures u == old(if conns[c].user != 0 then conns[c].user
                       else if && auth.token != "" && auth.token in sessions.cache
                               && auth.now < sessions.cache[auth.token].expires
                       then sessions.cache[auth.token].user else 0)
      ensures (sessions.cache, tokens) == old(AuthLeaves(c, auth))
    {
      hide BoundTo, Repositories.LogValid, Repositories.NamesValid;
      u := conns[c].user;
      if u != 0 { return; }
      if auth.token == "" { return; }
      var info := sessions.Validate(auth.token, auth.now);
      if info.None? { return; }
      u := info.value.user;
      tokens := tokens[c := auth.token];
      BindConnection(c, u);
    }

    method HandleSendDm(c: nat, auth: Auth, receiver: nat, content: string, ts: int) returns (r: Reply)
      requires Valid() && c in conns
      modifies this`conns, this`tokens, sessions, this`log, this`targets, presence, repos`messages, repos`nextMsgId, repos`undelivered
      ensures Valid() && Model() == Step(old(Model()), Event.SendDm(c, old(Owner(auth)), receiver, content, ts))
      ensures r.Ack? <==> && SenderOf(old(Model()), c, old(Owner(auth))) != 0 && receiver != 0
                          && 1 <= |content| <= maxMessage && receiver in old(repos.users)
      ensures r.BadRequest? <==> && SenderOf(old(Model()), c, old(Owner(auth))) != 0
                                 && !(receiver != 0 && 1 <= |content| <= maxMessage)
      ensures r.Ack? ==> r.id == |old(repos.messages)| + 1
      ensures r.Unauthorized? <==> SenderOf(old(Model()), c, old(Owner(auth))) == 0
      ensures (sessions.cache, tokens) == old(AuthLeaves(c, auth))
    {
      hide BoundTo, SentDm;
      AuthenticationStoresNothing(Model(), c, Owner(auth));
      var sender := RequireAuth(c, auth);
      if sender == 0 { return Unauthorized; }
      if receiver == 0 || content == "" || |content| > maxMessage { return BadRequest; }
      if receiver !in repos.users { return NotFound; }
      var id := SendDm(sender, receiver, content, ts);
      return Ack(id);
    }

    method HandleSendRoom(c: nat, auth: Auth, room: nat, content: string, ts: int) returns (r: Reply)
      requires Valid() && c in conns
      modifies this`conns, this`tokens, sessions, this`log, this`targets, presence, rooms
      modifies repos`messages, repos`nextMsgId, repos`undelivered
      ensures Valid() && Model() == Step(old(Model()), Event.SendRoom(c, old(Owner(auth)), room, content, ts))
      ensures r.Unauthorized? <==> SenderOf(old(Model()), c, old(Owner(auth))) == 0
      ensures var from := SenderOf(old(Model()), c, old(Owner(auth)));
              r.Ack? <==> && from != 0 && room != 0 && 1 <= |content| <= maxMessage
                          && from in Loaded(old(Model()), room).cache[room]
      // the cached members are the stored ones in every run of whole handlers
      ensures CacheExact(old(Model())) ==> Loaded(old(Model()), room).cache[room] == Members(old(repos.roomMembers), room)
      ensures r.Ack? ==> r.id == |old(repos.messages)| + 1
      ensures (sessions.cache, tokens) == old(AuthLeaves(c, auth))
    {
      hide BoundTo, SentRoom, Loaded, CacheExact, Repositories.LogValid, Repositories.NamesValid;
      AuthenticationStoresNothing(Model(), c, Owner(auth));
      LoadedMembers(Model(), Authenticated(Model(), c, Owner(auth)).0, room);
      var sender := RequireAuth(c, auth);
      if sender == 0 { return Unauthorized; }
      if room == 0 || content == "" || |content| > maxMessage { return BadRequest; }
      var id := SendRoom(sender, room, content, ts);
      if id == 0 { return BadRequest; }
      return Ack(id);
    }

    method HandleCreateRoom(c: nat, auth: Auth, name: string, now: int) returns (r: Reply)
      requires Valid() && c in conns
      modifies this`conns, this`tokens, sessions, this`log, presence, rooms
      modifies repos`undelivered, repos`rooms, repos`roomNames, repos`nextRoomId, repos`roomMembers
      ensures Valid()
      ensures r.Ack? ==>
                && Model() == Step(old(Model()), Event.CreateRoom(c, old(Owner(auth)), r.id))
                && name in repos.roomNames && repos.roomNames[name] == r.id
                && (name in old(repos.roomNames) ==> r.id == old(repos.roomNames)[name])
      ensures !r.Ack? ==> Model() == Step(old(Model()), Query(c, old(Owner(auth))))
      ensures r.Ack? <==> SenderOf(old(Model()), c, old(Owner(auth))) != 0 && 1 <= |name| <= 128
      ensures (sessions.cache, tokens) == old(AuthLeaves(c, auth))
    {
      hide BoundTo, Joined, Repositories.LogValid, Repositories.NamesValid;
      var u := RequireAuth(c, auth);
      if u == 0 { return Unauthorized; }
      if name == "" || |name| > 128 { return BadRequest; }
      var room := FindOrCreate(name, now);
      Enter(room, u);
      return Ack(room);
    }

    method FindOrCreate(name: string, now: int) returns (room: nat)
      requires Valid()
      modifies repos`rooms, repos`roomNames, repos`nextRoomId
      ensures Valid() && room in repos.rooms
      ensures Model() == old(Model()).(rooms := old(Model()).rooms + {room})
      ensures name in repos.roomNames && repos.roomNames[name] == room
      ensures name in old(repos.roomNames) ==> room == old(repos.roomNames)[name]
    {
      var id := repos.CreateRoom(name, now);
      room := if id.Some? then id.value else repos.roomNames[name];
      assert repos.rooms.Keys == old(repos.rooms).Keys + {room};
    }

    /** Store first, cache second. */
    method Enter(room: nat, u: nat)
      requires Valid() && room in repos.rooms
      modifies rooms, repos`roomMembers
      ensures Valid() && Model() == Joined(old(Model()), room, u)
    {
      var ok := repos.JoinRoom(room, u);
      rooms.OnJoin(room, u);
    }

    /** A room is named by its id or, without one, by its name. */
    method HandleJoinRoom(c: nat, auth: Auth, room: nat, name: string) returns (r: Reply)
      requires Valid() && c in conns
      modifies this`conns, this`tokens, sessions, this`log, presence, rooms, repos`undelivered, repos`roomMembers
      ensures Valid()
      ensures var names := old(repos.roomNames);
              var id := if room == 0 && name != "" && name in names then names[name] else room;
              && (r.Ack? <==> SenderOf(old(Model()), c, old(Owner(auth))) != 0 && id in old(repos.rooms))
              && (r.Ack? ==> r.id == id)
              && Model() == Step(old(Model()), Event.JoinRoom(c, old(Owner(auth)), id))
      ensures (sessions.cache, tokens) == old(AuthLeaves(c, auth))
    {
      hide BoundTo, Joined, Repositories.LogValid;
      var u := RequireAuth(c, auth);
      if u == 0 { return Unauthorized; }
      var id := room;
      if room == 0 && name != "" && name in repos.roomNames { id := repos.roomNames[name]; }
      if id == 0 { return NotFound; }
      if id !in repos.rooms { return Internal; }
      Enter(id, u);
      return Ack(id);
    }

    method HandleLeaveRoom(c: nat, auth: Auth, room: nat) returns (r: Reply)
      requires Valid() && c in conns
      modifies this`conns, this`tokens, sessions, this`log, presence, rooms, repos`undelivered, repos`roomMembers
      ensures Valid() && Model() == Step(old(Model()), Event.LeaveRoom(c, old(Owner(auth)), room))
      ensures r.Ack? <==> SenderOf(old(Model()), c, old(Owner(auth))) != 0 && room != 0
      ensures (sessions.cache, tokens) == old(AuthLeaves(c, auth))
    {
      hide BoundTo, Repositories.LogValid;
      var u := RequireAuth(c, auth);
      if u == 0 { return Unauthorized; }
      if room == 0 { return BadRequest; }
      var _ := repos.LeaveRoom(room, u);
      rooms.OnLeave(room, u);
      return Ack(0);
    }
  }

  /**
   * Whoever has registered can log in with the same password and gets the registered id; with another attempt exactly
   * if it derives the same key.
   */
  method RegisterThenLogin(s: Server, c: nat, name: string, password: Bytes.Data, salt: Bytes.Data,
                           attempt: Bytes.Data, token: string, now: int) returns (r: Reply, l: Reply)
    requires s.Valid() && c in s.conns && salt != []
    modifies s, s.presence, s.sessions, s.repos
    ensures r.Ack? && l.Ack? ==> l.id == r.id
    ensures r.Ack? ==>
              var count := if s.iterations == 0 then 1 else s.iterations;
              (l.Ack? <==> Pbkdf2.Derived(attempt, salt, count, 32) == Pbkdf2.Derived(password, salt, count, 32))
    ensures r.Ack? && attempt == password ==> l == Ack(r.id)
  {
    hide Password.Made, Password.Verifies, Pbkdf2.Derived, Account, Server.Model, Server.Valid, Step;
    assert s.iterations < Bytes.TWO_TO_THE_32 by { s.IterationsFit(); }
    r := s.HandleRegister(name, password, salt, now);
    Password.VerifiesMade(password, attempt, salt, s.iterations);
    l := s.HandleLogin(c, name, attempt, token, now);
  }
}
