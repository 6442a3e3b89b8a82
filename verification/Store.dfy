/** The in-memory store (`Repositories` without MySQL in db/repositories). */
module Store {
  import opened Options
  import opened Messages

  datatype User = User(name: string, passwordHash: string, createdAt: int, lastSeen: int)

  datatype Room = Room(name: string, createdAt: int)

  datatype SessionRow = SessionRow(token: string, user: nat, lastActive: int)

  // ---- what the operations compute ---------------------------------

  function Members(table: map<nat, set<nat>>, room: nat): set<nat> {
    if room in table then table[room] else {}
  }

  function Queue(table: map<nat, seq<nat>>, user: nat): seq<nat> {
    if user in table then table[user] else []
  }

  /** The first message with the given id gets the status. */
  function WithStatus(log: Log, id: nat, status: nat): (later: Log)
    ensures |later| == |log|
  {
    if log == [] then []
    else if log[0].id == id then [log[0].(status := status)] + log[1..]
    else [log[0]] + WithStatus(log[1..], id, status)
  }

  /** The messages with the given ids, in the order of the ids; an unknown id is passed over. */
  function Found(log: Log, ids: seq<nat>): Log {
    if ids == [] then []
    else
      var n := |ids| - 1;
      Found(log, ids[..n]) + FirstWith(log, ids[n])
  }

  function FirstWith(log: Log, id: nat): (m: Log) {
    if log == [] then [] else if log[0].id == id then [log[0]] else FirstWith(log[1..], id)
  }

  lemma FoundSnoc(log: Log, ids: seq<nat>, id: nat)
    ensures Found(log, ids + [id]) == Found(log, ids) + FirstWith(log, id)
  {
    assert (ids + [id])[..|ids|] == ids;
  }

  lemma {:induction false} FirstWithAt(log: Log, i: nat)
    requires i < |log| && forall j :: 0 <= j < i ==> log[j].id != log[i].id
    ensures FirstWith(log, log[i].id) == [log[i]]
  {
    if i > 0 { FirstWithAt(log[1..], i - 1); }
  }

  lemma {:induction false} FirstWithNone(log: Log, id: nat)
    requires forall j :: 0 <= j < |log| ==> log[j].id != id
    ensures FirstWith(log, id) == []
  {
    if log != [] { FirstWithNone(log[1..], id); }
  }

  lemma {:induction false} WithStatusAt(log: Log, id: nat, status: nat, i: nat)
    requires i <= |log| && forall j :: 0 <= j < i ==> log[j].id != id
    ensures WithStatus(log, id, status) ==
            if i < |log| && log[i].id == id then log[i := log[i].(status := status)]
            else log[..i] + WithStatus(log[i..], id, status)
  {
    if i == 0 {
      assert log[0..] == log;
    } else {
      WithStatusAt(log[1..], id, status, i - 1);
    }
  }

  lemma {:induction false} WithStatusAlike(log: Log, id: nat, status: nat)
    ensures AlikePrefix(log, WithStatus(log, id, status))
  {
    if log != [] { WithStatusAlike(log[1..], id, status); }
  }

  lemma StatusUpdateEvolves(log: Log, id: nat, status: nat)
    requires Ordered(log)
    ensures Evolves(log, WithStatus(log, id, status))
  {
    WithStatusAlike(log, id, status);
    var later := WithStatus(log, id, status);
    forall i | 0 <= i < |log| ensures later[i].id == log[i].id {
      assert SameButStatus(log[i], later[i]);
    }
  }

  /** Rows by token: an existing one is overwritten, a new one goes to the end. */
  function PutRow(rows: seq<SessionRow>, row: SessionRow): seq<SessionRow> {
    if rows == [] then [row]
    else if rows[0].token == row.token then [row] + rows[1..]
    else [rows[0]] + PutRow(rows[1..], row)
  }

  function DropRows(rows: seq<SessionRow>, token: string): seq<SessionRow> {
    if rows == [] then []
    else
      var n := |rows| - 1;
      DropRows(rows[..n], token) + (if rows[n].token == token then [] else [rows[n]])
  }

  lemma {:induction false} PutRowAt(rows: seq<SessionRow>, row: SessionRow, i: nat)
    requires i <= |rows| && forall j :: 0 <= j < i ==> rows[j].token != row.token
    requires i < |rows| ==> rows[i].token == row.token
    ensures PutRow(rows, row) == rows[..i] + [row] + (if i < |rows| then rows[i + 1..] else [])
  {
    if i > 0 {
      PutRowAt(rows[1..], row, i - 1);
    }
  }

  // ---- the object --------------------------------------------------

  class Repositories {
    var users: map<nat, User>
    var usernames: map<string, nat>
    var sessions: seq<SessionRow>
    var rooms: map<nat, Room>
    var roomNames: map<string, nat>
    var roomMembers: map<nat, set<nat>>
    var messages: Log
    var undelivered: map<nat, seq<nat>>
    var nextUserId: nat
    var nextRoomId: nat
    var nextMsgId: nat

    ghost predicate LogValid()
      reads this`messages, this`nextMsgId
    {
      && nextMsgId >= 1 && Ordered(messages)
      && forall i :: 0 <= i < |messages| ==> messages[i].id < nextMsgId
    }

    /** The name indexes point back to rows of that name, and ids are never reused. */
    ghost predicate NamesValid()
      reads this`users, this`usernames, this`rooms, this`roomNames, this`roomMembers, this`nextUserId, this`nextRoomId
    {
      && (forall n :: n in usernames ==> usernames[n] in users && users[usernames[n]].name == n)
      && (forall u :: u in users ==> 1 <= u < nextUserId)
      && (forall n :: n in roomNames ==> roomNames[n] in rooms && rooms[roomNames[n]].name == n)
      && (forall r :: r in rooms ==> 1 <= r < nextRoomId)
      && roomMembers.Keys <= rooms.Keys
      && nextUserId >= 1 && nextRoomId >= 1
    }

    constructor ()
      ensures LogValid() && NamesValid()
      ensures messages == [] && undelivered == map[] && sessions == [] && nextMsgId == 1
      ensures users == map[] && usernames == map[] && rooms == map[] && roomNames == map[] && roomMembers == map[]
    {
      users, usernames, sessions, rooms, roomNames, roomMembers := map[], map[], [], map[], map[], map[];
      messages, undelivered := [], map[];
      nextUserId, nextRoomId, nextMsgId := 1, 1, 1;
    }

    method CreateUser(name: string, passwordHash: string, now: int) returns (id: Option<nat>)
      requires NamesValid()
      modifies this`users, this`usernames, this`nextUserId
      ensures NamesValid()
      ensures name in old(usernames) ==> id == None && users == old(users) && usernames == old(usernames)
      ensures name !in old(usernames) ==>
                && id == Some(old(nextUserId)) && id.value !in old(users)
                && users == old(users)[id.value := User(name, passwordHash, now, 0)]
                && usernames == old(usernames)[name := id.value]
    {
      if name in usernames { return None; }
      id := Some(nextUserId);
      nextUserId := nextUserId + 1;
      users := users[id.value := User(name, passwordHash, now, 0)];
      usernames := usernames[name := id.value];
    }

    method UpdateLastSeen(id: nat, ts: int)
      requires NamesValid()
      modifies this`users
      ensures NamesValid() && users.Keys == old(users.Keys)
      ensures forall u :: u in users ==>
                users[u] == if u == id then old(users)[u].(lastSeen := ts) else old(users)[u]
    {
      if id in users { users := users[id := users[id].(lastSeen := ts)]; }
    }

    method CreateRoom(name: string, now: int) returns (id: Option<nat>)
      requires NamesValid()
      modifies this`rooms, this`roomNames, this`nextRoomId
      ensures NamesValid()
      ensures name in old(roomNames) ==> id == None && rooms == old(rooms) && roomNames == old(roomNames)
      ensures name !in old(roomNames) ==>
                && id == Some(old(nextRoomId)) && id.value !in old(rooms)
                && rooms == old(rooms)[id.value := Room(name, now)] && roomNames == old(roomNames)[name := id.value]
    {
      if name in roomNames { return None; }
      id := Some(nextRoomId);
      nextRoomId := nextRoomId + 1;
      rooms := rooms[id.value := Room(name, now)];
      roomNames := roomNames[name := id.value];
    }

    method JoinRoom(r: nat, u: nat) returns (ok: bool)
      requires NamesValid()
      modifies this`roomMembers
      ensures NamesValid() && ok == (r in rooms)
      ensures roomMembers == if ok then old(roomMembers)[r := Members(old(roomMembers), r) + {u}] else old(roomMembers)
    {
      if r !in rooms { return false; }
      roomMembers := roomMembers[r := Members(roomMembers, r) + {u}];
      return true;
    }

    method LeaveRoom(r: nat, u: nat) returns (ok: bool)
      requires NamesValid()
      modifies this`roomMembers
      ensures NamesValid() && ok == (r in old(roomMembers))
      ensures roomMembers == if ok then old(roomMembers)[r := old(roomMembers)[r] - {u}] else old(roomMembers)
    {
      if r !in roomMembers { return false; }
      roomMembers := roomMembers[r := roomMembers[r] - {u}];
      return true;
    }

    method Insert(sender: nat, receiver: Option<nat>, room: Option<nat>, content: string, ts: int) returns (id: nat)
      requires LogValid()
      modifies this`messages, this`nextMsgId
      ensures LogValid() && Evolves(old(messages), messages)
      ensures id == old(nextMsgId) && nextMsgId == id + 1
      ensures messages == old(messages) + [Message(id, sender, receiver, room, content, 0, ts)]
    {
      id := nextMsgId;
      nextMsgId := nextMsgId + 1;
      messages := messages + [Message(id, sender, receiver, room, content, 0, ts)];
    }

    /** The newest direct messages between two users below the cursor, oldest first. */
    method HistoryDm(a: nat, b: nat, before: nat, limit: nat) returns (page: Log)
      requires LogValid()
      ensures page == Page(messages, Between(a, b), before, limit)
      ensures Ordered(page) && |page| <= limit
      ensures forall m :: m in page ==>
                && m in messages && (before == 0 || m.id < before) && m.receiver.Some?
                && ((m.sender, m.receiver.value) == (a, b) || (m.sender, m.receiver.value) == (b, a))
      ensures forall m :: (&& m in messages && (before == 0 || m.id < before) && m !in page
                           && ((m.receiver == Some(b) && m.sender == a) || (m.receiver == Some(a) && m.sender == b))) ==>
                |page| == limit && forall p :: p in page ==> m.id < p.id
    {
      PageIs(messages, Between(a, b), before, limit);
      page := History(messages, Between(a, b), before, limit);
    }

    method HistoryRoom(r: nat, before: nat, limit: nat) returns (page: Log)
      requires LogValid()
      ensures page == Page(messages, InRoom(r), before, limit)
      ensures Ordered(page) && |page| <= limit
      ensures forall m :: m in page ==> m in messages && (before == 0 || m.id < before) && m.room == Some(r)
      ensures forall m :: m in messages && (before == 0 || m.id < before) && m !in page && m.room == Some(r) ==>
                |page| == limit && forall p :: p in page ==> m.id < p.id
    {
      PageIs(messages, InRoom(r), before, limit);
      page := History(messages, InRoom(r), before, limit);
    }

    method UpdateMessageStatus(id: nat, status: nat)
      requires LogValid()
      modifies this`messages
      ensures LogValid() && Evolves(old(messages), messages)
      ensures messages == WithStatus(old(messages), id, status)
    {
      StatusUpdateEvolves(messages, id, status);
      WithStatusAlike(messages, id, status);
      for i := 0 to |messages|
        invariant messages == old(messages)
        invariant forall j :: 0 <= j < i ==> messages[j].id != id
      {
        if messages[i].id == id {
          WithStatusAt(messages, id, status, i);
          messages := messages[i := messages[i].(status := status)];
          return;
        }
      }
      WithStatusAt(messages, id, status, |messages|);
      assert messages[|messages|..] == [];
    }

    method EnqueueUndelivered(id: nat, user: nat)
      modifies this`undelivered
      ensures undelivered == old(undelivered)[user := Queue(old(undelivered), user) + [id]]
    {
      undelivered := undelivered[user := Queue(undelivered, user) + [id]];
    }

    /** Looks one message up. */
    method Lookup(id: nat) returns (m: Log)
      ensures m == FirstWith(messages, id)
    {
      for i := 0 to |messages|
        invariant forall j :: 0 <= j < i ==> messages[j].id != id
      {
        if messages[i].id == id {
          FirstWithAt(messages, i);
          return [messages[i]];
        }
      }
      FirstWithNone(messages, id);
      return [];
    }

    method DrainUndelivered(user: nat) returns (out: Log)
      modifies this`undelivered
      ensures out == Found(messages, Queue(old(undelivered), user))
      ensures undelivered == old(undelivered) - {user}
    {
      out := [];
      if user !in undelivered { return; }
      var ids := undelivered[user];
      for i := 0 to |ids|
        invariant undelivered == old(undelivered) && out == Found(messages, ids[..i])
      {
        var m := Lookup(ids[i]);
        assert ids[..i + 1] == ids[..i] + [ids[i]];
        FoundSnoc(messages, ids[..i], ids[i]);
        out := out + m;
      }
      assert ids[..|ids|] == ids;
      undelivered := undelivered - {user};
    }

    method InsertSession(token: string, user: nat, ts: int)
      modifies this`sessions
      ensures sessions == PutRow(old(sessions), SessionRow(token, user, ts))
    {
      var row := SessionRow(token, user, ts);
      for i := 0 to |sessions|
        invariant sessions == old(sessions)
        invariant forall j :: 0 <= j < i ==> sessions[j].token != token
      {
        if sessions[i].token == token {
          PutRowAt(sessions, row, i);
          sessions := sessions[..i] + [row] + sessions[i + 1..];
          return;
        }
      }
      PutRowAt(sessions, row, |sessions|);
      assert sessions[..|sessions|] == sessions;
      sessions := sessions + [row];
    }

    method DeleteSession(token: string)
      modifies this`sessions
      ensures sessions == DropRows(old(sessions), token)
    {
      var kept: seq<SessionRow> := [];
      for i := 0 to |sessions|
        invariant kept == DropRows(sessions[..i], token)
      {
        assert sessions[..i + 1][..i] == sessions[..i];
        if sessions[i].token != token { kept := kept + [sessions[i]]; }
      }
      assert sessions[..|sessions|] == sessions;
      sessions := kept;
    }
  }
}
