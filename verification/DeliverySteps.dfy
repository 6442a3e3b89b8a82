/**
 * Delivery under every interleaving of the router's locked sections (chat/message_router, chat/presence). A send
 * reads a user's connections in one section and queues the message in a later one; a replay drains the queue in one
 * section and reads the connections in a later one.
 */
module DeliverySteps {
  import P = Presence
  import S = Store

  /** What a worker does next. */
  datatype Pc =
    | DmRead(msg: nat, sender: nat, receiver: nat)
    | DmEnqueue(msg: nat, sender: nat, receiver: nat)
    | EchoRead(msg: nat, sender: nat)
    | RoomMembers(msg: nat, sender: nat)
    | RoomFan(msg: nat, sender: nat, rest: set<nat>)
    | RoomEnqueue(msg: nat, sender: nat, member: nat, rest: set<nat>)
    | Drain(user: nat)
    | ReplayRead(user: nat, pending: seq<nat>)

  /** One event frame handed to all connections that a worker saw bound to the user. */
  datatype Hand = Hand(echo: bool, msg: nat, user: nat, conns: set<nat>)

  /** A message and a user it is for. */
  datatype Copy = Copy(msg: nat, user: nat)

  /** Where a copy is. */
  datatype Place =
    | Undecided(worker: nat)
    | Absent(worker: nat)               // seen offline, not yet queued
    | Queued(index: nat)
    | InReplay(worker: nat, index: nat)
    | Handed(index: nat)
    | Dropped(index: nat)
    | PassedOver(index: nat)            // the absent sender of a room message

  datatype State = State(
    next: nat, senders: map<nat, nat>,
    presence: P.Table, undelivered: map<nat, seq<nat>>,
    workers: map<nat, Pc>,
    // histories: hand-offs, lost copies, copies an absent sender was to get, and the place of each copy
    hands: seq<Hand>, dropped: seq<Copy>, passed: seq<Copy>, place: map<Copy, Place>)

  datatype Event =
    | StartDm(worker: nat, sender: nat, receiver: nat)
    | StartRoom(worker: nat, sender: nat)
    | Bind(worker: nat, user: nat, conn: nat)
    | Unbind(user: nat, conn: nat)
    | Members(worker: nat, members: set<nat>)
    | Fan(worker: nat, member: nat)
    | Go(worker: nat)

  function Init(): State { State(1, map[], map[], map[], map[], [], [], [], map[]) }

  function Hands(s: State, echo: bool, m: nat, u: nat): seq<Hand> {
    if u in s.presence then [Hand(echo, m, u, s.presence[u])] else []
  }

  /** A free worker starts a request. */
  function Started(s: State, e: Event): State
    requires !e.Unbind?
  {
    match e
    case StartDm(w, sender, receiver) =>
      s.(next := s.next + 1, senders := s.senders[s.next := sender],
         workers := s.workers[w := DmRead(s.next, sender, receiver)],
         place := s.place[Copy(s.next, receiver) := Undecided(w)])
    case StartRoom(w, sender) =>
      s.(next := s.next + 1, senders := s.senders[s.next := sender],
         workers := s.workers[w := RoomMembers(s.next, sender)])
    case Bind(w, u, c) =>
      s.(presence := P.Bound(s.presence, u, c),
         workers := if u in s.presence then s.workers else s.workers[w := Drain(u)])
    case _ => s
  }

  /** The user is seen online and is handed the message, or seen offline. */
  function Looked(s: State, w: nat, m: nat, u: nat, online: Pc, offline: Pc): (t: State)
    ensures t.next == s.next && t.workers == s.workers[w := if u in s.presence then online else offline]
  {
    if u in s.presence then
      s.(hands := s.hands + [Hand(false, m, u, s.presence[u])], workers := s.workers[w := online],
         place := s.place[Copy(m, u) := Handed(|s.hands|)])
    else s.(workers := s.workers[w := offline], place := s.place[Copy(m, u) := Absent(w)])
  }

  function Enqueued(s: State, w: nat, m: nat, u: nat, after: Pc): (t: State)
    ensures t.next == s.next && t.workers == s.workers[w := after]
  {
    s.(undelivered := s.undelivered[u := S.Queue(s.undelivered, u) + [m]], workers := s.workers[w := after],
       place := s.place[Copy(m, u) := Queued(|S.Queue(s.undelivered, u)|)])
  }

  function Copies(m: nat, users: set<nat>): set<Copy> {
    set u | u in users :: Copy(m, u)
  }

  function MembersRead(s: State, w: nat, m: nat, sender: nat, members: set<nat>): State {
    s.(workers := s.workers[w := RoomFan(m, sender, members)],
       place := s.place + map k | k in Copies(m, members) :: Undecided(w))
  }

  /** An absent sender of a room message is passed over. */
  function Fanned(s: State, w: nat, m: nat, sender: nat, u: nat, rest: set<nat>): State {
    var after := RoomFan(m, sender, rest - {u});
    if u == sender && u !in s.presence then
      s.(workers := s.workers[w := after], passed := s.passed + [Copy(m, u)],
         place := s.place[Copy(m, u) := PassedOver(|s.passed|)])
    else Looked(s, w, m, u, after, RoomEnqueue(m, sender, u, rest - {u}))
  }

  function Drained(s: State, w: nat, u: nat): (t: State)
    ensures t.next == s.next && t.workers == s.workers[w := ReplayRead(u, S.Queue(s.undelivered, u))]
  {
    s.(undelivered := s.undelivered - {u}, workers := s.workers[w := ReplayRead(u, S.Queue(s.undelivered, u))],
       place := map k | k in s.place ::
         if k.user == u && s.place[k].Queued? then InReplay(w, s.place[k].index) else s.place[k])
  }

  function Replayed(s: State, w: nat, u: nat, pending: seq<nat>): (t: State)
    ensures t.next == s.next && t.workers == s.workers - {w}
  {
    var t := s.(workers := s.workers - {w});
    if u in s.presence then
      t.(hands := s.hands + seq(|pending|, i requires 0 <= i < |pending| => Hand(false, pending[i], u, s.presence[u])),
         place := map k | k in s.place ::
           if s.place[k].InReplay? && s.place[k].worker == w then Handed(|s.hands| + s.place[k].index) else s.place[k])
    else
      t.(dropped := s.dropped + seq(|pending|, i requires 0 <= i < |pending| => Copy(pending[i], u)),
         place := map k | k in s.place ::
           if s.place[k].InReplay? && s.place[k].worker == w then Dropped(|s.dropped| + s.place[k].index) else s.place[k])
  }

  /** A busy worker takes its next step. */
  function Went(s: State, w: nat): State
    requires w in s.workers
  {
    match s.workers[w]
    case DmRead(m, sender, receiver) => Looked(s, w, m, receiver, EchoRead(m, sender), DmEnqueue(m, sender, receiver))
    case DmEnqueue(m, sender, receiver) => Enqueued(s, w, m, receiver, EchoRead(m, sender))
    case EchoRead(m, sender) => s.(hands := s.hands + Hands(s, true, m, sender), workers := s.workers - {w})
    case RoomEnqueue(m, sender, member, rest) => Enqueued(s, w, m, member, RoomFan(m, sender, rest))
    case RoomFan(_, _, rest) => if rest == {} then s.(workers := s.workers - {w}) else s
    case Drain(u) => Drained(s, w, u)
    case ReplayRead(u, pending) => Replayed(s, w, u, pending)
    case RoomMembers(_, _) => s
  }

  function Step(s: State, e: Event): State {
    if e.Unbind? then s.(presence := P.Unbound(s.presence, e.user, e.conn))
    else if e.worker !in s.workers then Started(s, e)
    else
      var pc := s.workers[e.worker];
      if e.Go? then Went(s, e.worker)
      else if e.Members? && pc.RoomMembers? then MembersRead(s, e.worker, pc.msg, pc.sender, e.members)
      else if e.Fan? && pc.RoomFan? && e.member in pc.rest then Fanned(s, e.worker, pc.msg, pc.sender, e.member, pc.rest)
      else s
  }

  function Run(es: seq<Event>): State {
    if es == [] then Init() else Step(Run(es[..|es| - 1]), es[|es| - 1])
  }

  lemma RunSnoc(es: seq<Event>, e: Event)
    ensures Run(es + [e]) == Step(Run(es), e)
  {
    assert (es + [e])[..|es|] == es;
  }

  // ---- where a copy really is --------------------------------------

  /** The worker has yet to look for the connections of this copy's user. */
  ghost predicate Decides(pc: Pc, k: Copy) {
    || (pc.DmRead? && k == Copy(pc.msg, pc.receiver))
    || ((pc.RoomFan? || pc.RoomEnqueue?) && pc.msg == k.msg && k.user in pc.rest)
  }

  ghost predicate WillQueue(pc: Pc, k: Copy) {
    || (pc.DmEnqueue? && k == Copy(pc.msg, pc.receiver))
    || (pc.RoomEnqueue? && k == Copy(pc.msg, pc.member))
  }

  ghost predicate Holds(pc: Pc, k: Copy, i: nat) {
    pc.ReplayRead? && pc.user == k.user && i < |pc.pending| && pc.pending[i] == k.msg
  }

  /** The place, read off the state proper. */
  ghost predicate At(s: State, k: Copy, p: Place) {
    match p
    case Undecided(w) => w in s.workers && Decides(s.workers[w], k)
    case Absent(w) => w in s.workers && WillQueue(s.workers[w], k)
    case Queued(i) => i < |S.Queue(s.undelivered, k.user)| && S.Queue(s.undelivered, k.user)[i] == k.msg
    case InReplay(w, i) => w in s.workers && Holds(s.workers[w], k, i)
    case Handed(i) => i < |s.hands| && !s.hands[i].echo && s.hands[i].msg == k.msg && s.hands[i].user == k.user
    case Dropped(i) => i < |s.dropped| && s.dropped[i] == k
    case PassedOver(i) => i < |s.passed| && s.passed[i] == k
  }

  ghost predicate OnRecord(s: State, k: Copy, p: Place) { k in s.place && s.place[k] == p }

  /** Each copy is in exactly one place: the one on record. */
  ghost predicate Placed(s: State) {
    forall k, p :: At(s, k, p) <==> OnRecord(s, k, p)
  }

  /** Copies exist of stored messages only, and not before the room's members are read. */
  ghost predicate Fresh(s: State) {
    && (forall k :: k in s.place ==> k.msg < s.next)
    && (forall w :: w in s.workers && s.workers[w].RoomMembers? ==> s.workers[w].msg < s.next)
    && (forall w, k :: w in s.workers && s.workers[w].RoomMembers? && k in s.place ==> k.msg != s.workers[w].msg)
    && (forall v, w :: v in s.workers && w in s.workers && s.workers[v].RoomMembers? && s.workers[w].RoomMembers? ==>
          s.workers[v].msg == s.workers[w].msg ==> v == w)
  }

  ghost predicate Inv(s: State) { Placed(s) && Fresh(s) }

  /** The worker turns from `before` to `after`, having decided on one copy. */
  ghost predicate DecidesNext(before: Pc, after: Pc, k: Copy) {
    && Decides(before, k) && !before.RoomEnqueue?
    && forall l :: Decides(after, l) <==> Decides(before, l) && l != k
  }

  lemma SeenOnlineKeeps(s: State, w: nat, m: nat, u: nat, after: Pc, offline: Pc)
    requires Placed(s) && w in s.workers && u in s.presence
    requires DecidesNext(s.workers[w], after, Copy(m, u)) && (after.EchoRead? || after.RoomFan?)
    ensures Placed(Looked(s, w, m, u, after, offline))
  {
    var s' := Looked(s, w, m, u, after, offline);
    assert At(s, Copy(m, u), Undecided(w));
    forall k, p ensures At(s', k, p) <==> OnRecord(s', k, p) {
      assert At(s, k, p) <==> OnRecord(s, k, p);
    }
  }

  lemma SeenOfflineKeeps(s: State, w: nat, m: nat, u: nat, online: Pc, after: Pc)
    requires Placed(s) && w in s.workers && u !in s.presence
    requires DecidesNext(s.workers[w], after, Copy(m, u)) && (after.DmEnqueue? || after.RoomEnqueue?)
    requires forall k :: WillQueue(after, k) <==> k == Copy(m, u)
    ensures Placed(Looked(s, w, m, u, online, after))
  {
    var s' := Looked(s, w, m, u, online, after);
    assert At(s, Copy(m, u), Undecided(w));
    forall k, p ensures At(s', k, p) <==> OnRecord(s', k, p) {
      assert At(s, k, p) <==> OnRecord(s, k, p);
    }
  }

  lemma DmReadKeeps(s: State, w: nat)
    requires Placed(s) && w in s.workers && s.workers[w].DmRead?
    ensures Placed(Went(s, w))
  {
    hide Placed, Looked;
    var DmRead(m, sender, receiver) := s.workers[w];
    if receiver in s.presence {
      SeenOnlineKeeps(s, w, m, receiver, EchoRead(m, sender), DmEnqueue(m, sender, receiver));
    } else {
      SeenOfflineKeeps(s, w, m, receiver, EchoRead(m, sender), DmEnqueue(m, sender, receiver));
    }
  }

  lemma FannedKeeps(s: State, w: nat, m: nat, sender: nat, u: nat, rest: set<nat>)
    requires Placed(s) && w in s.workers && s.workers[w] == RoomFan(m, sender, rest) && u in rest
    ensures Placed(Fanned(s, w, m, sender, u, rest))
  {
    hide Placed, Looked;
    var after, queue := RoomFan(m, sender, rest - {u}), RoomEnqueue(m, sender, u, rest - {u});
    if u in s.presence {
      SeenOnlineKeeps(s, w, m, u, after, queue);
    } else if u != sender {
      SeenOfflineKeeps(s, w, m, u, after, queue);
    } else {
      PassedOverKeeps(s, w, m, sender, rest);
    }
  }

  lemma EnqueuedKeeps(s: State, w: nat, m: nat, u: nat, after: Pc)
    requires Placed(s) && w in s.workers && WillQueue(s.workers[w], Copy(m, u))
    requires after.EchoRead? || after.RoomFan?
    requires forall k :: Decides(after, k) <==> Decides(s.workers[w], k)
    ensures Placed(Enqueued(s, w, m, u, after))
  {
    var s' := Enqueued(s, w, m, u, after);
    assert At(s, Copy(m, u), Absent(w));
    forall k, p ensures At(s', k, p) <==> OnRecord(s', k, p) {
      assert At(s, k, p) <==> OnRecord(s, k, p);
    }
  }

  lemma MembersKeep(s: State, w: nat, m: nat, sender: nat, members: set<nat>)
    requires Inv(s) && w in s.workers && s.workers[w] == RoomMembers(m, sender)
    ensures Placed(MembersRead(s, w, m, sender, members))
  {
    var s' := MembersRead(s, w, m, sender, members);
    forall k, p ensures At(s', k, p) <==> OnRecord(s', k, p) {
      assert At(s, k, p) <==> OnRecord(s, k, p);
    }
  }

  lemma DrainedKeeps(s: State, w: nat, u: nat)
    requires Placed(s) && w in s.workers && s.workers[w] == Drain(u)
    ensures Placed(Drained(s, w, u))
  {
    var s' := Drained(s, w, u);
    forall k, p ensures At(s', k, p) <==> OnRecord(s', k, p) {
      assert At(s, k, p) <==> OnRecord(s, k, p);
      if p.InReplay? { assert At(s, k, Queued(p.index)) <==> OnRecord(s, k, Queued(p.index)); }
    }
  }

  lemma HandedReplayKeeps(s: State, w: nat, u: nat, pending: seq<nat>)
    requires Placed(s) && w in s.workers && s.workers[w] == ReplayRead(u, pending) && u in s.presence
    ensures Placed(Replayed(s, w, u, pending))
  {
    var s', n := Replayed(s, w, u, pending), |s.hands|;
    forall k, p ensures At(s', k, p) <==> OnRecord(s', k, p) {
      assert At(s, k, p) <==> OnRecord(s, k, p);
      assert k in s.place ==> (At(s, k, s.place[k]) <==> OnRecord(s, k, s.place[k]));
      if p.Handed? && p.index >= n {
        var q := InReplay(w, p.index - n);
        assert At(s, k, q) <==> OnRecord(s, k, q);
      }
    }
  }

  lemma DroppedReplayKeeps(s: State, w: nat, u: nat, pending: seq<nat>)
    requires Placed(s) && w in s.workers && s.workers[w] == ReplayRead(u, pending) && u !in s.presence
    ensures Placed(Replayed(s, w, u, pending))
  {
    var s', n := Replayed(s, w, u, pending), |s.dropped|;
    forall k, p ensures At(s', k, p) <==> OnRecord(s', k, p) {
      assert At(s, k, p) <==> OnRecord(s, k, p);
      assert k in s.place ==> (At(s, k, s.place[k]) <==> OnRecord(s, k, s.place[k]));
      if p.Dropped? && p.index >= n {
        var q := InReplay(w, p.index - n);
        assert At(s, k, q) <==> OnRecord(s, k, q);
      }
    }
  }

  lemma PassedOverKeeps(s: State, w: nat, m: nat, sender: nat, rest: set<nat>)
    requires Placed(s) && w in s.workers && s.workers[w] == RoomFan(m, sender, rest)
    requires sender in rest && sender !in s.presence
    ensures Placed(Fanned(s, w, m, sender, sender, rest))
  {
    var s' := Fanned(s, w, m, sender, sender, rest);
    assert At(s, Copy(m, sender), Undecided(w));
    forall k, p ensures At(s', k, p) <==> OnRecord(s', k, p) {
      assert At(s, k, p) <==> OnRecord(s, k, p);
    }
  }

  /** Workers, queues, hand-offs and drops of the same copies in the same places. */
  lemma NothingMoves(s: State, s': State)
    requires Placed(s) && s'.place == s.place && s'.undelivered == s.undelivered
    requires s'.dropped == s.dropped && s'.passed == s.passed
    requires s.hands <= s'.hands && forall i :: |s.hands| <= i < |s'.hands| ==> s'.hands[i].echo
    requires forall w, k ::
               (w in s.workers && Decides(s.workers[w], k)) <==> (w in s'.workers && Decides(s'.workers[w], k))
    requires forall w, k ::
               (w in s.workers && WillQueue(s.workers[w], k)) <==> (w in s'.workers && WillQueue(s'.workers[w], k))
    requires forall w, k, i ::
               (w in s.workers && Holds(s.workers[w], k, i)) <==> (w in s'.workers && Holds(s'.workers[w], k, i))
    ensures Placed(s')
  {
    hide Decides, WillQueue, Holds;
    forall k, p ensures At(s', k, p) <==> OnRecord(s', k, p) {
      assert At(s, k, p) <==> OnRecord(s, k, p);
    }
  }

  lemma StartDmKeeps(s: State, w: nat, sender: nat, receiver: nat)
    requires Inv(s) && w !in s.workers
    ensures Placed(Started(s, StartDm(w, sender, receiver)))
  {
    var s' := Started(s, StartDm(w, sender, receiver));
    forall k, p ensures At(s', k, p) <==> OnRecord(s', k, p) {
      assert At(s, k, p) <==> OnRecord(s, k, p);
    }
  }

  /** No new message, and no worker newly about to read a room's members. */
  lemma FreshStill(s: State, s': State)
    requires Fresh(s) && s'.next == s.next && s'.place.Keys <= s.place.Keys
    requires forall w :: w in s'.workers && s'.workers[w].RoomMembers? ==> w in s.workers && s.workers[w] == s'.workers[w]
    ensures Fresh(s')
  {
  }

  lemma StartedKeeps(s: State, e: Event)
    requires Inv(s) && !e.Unbind? && e.worker !in s.workers
    ensures Inv(Started(s, e))
  {
    if e.StartDm? {
      StartDmKeeps(s, e.worker, e.sender, e.receiver);
    } else {
      NothingMoves(s, Started(s, e));
    }
  }

  lemma WentKeepsPlaces(s: State, w: nat)
    requires Placed(s) && w in s.workers
    ensures Placed(Went(s, w))
  {
    match s.workers[w] {
      case DmRead(_, _, _) => DmReadKeeps(s, w);
      case DmEnqueue(m, sender, receiver) =>
        hide Placed, Enqueued;
        EnqueuedKeeps(s, w, m, receiver, EchoRead(m, sender));
      case RoomEnqueue(m, sender, member, rest) =>
        hide Placed, Enqueued;
        EnqueuedKeeps(s, w, m, member, RoomFan(m, sender, rest));
      case Drain(u) =>
        hide Placed, Drained;
        DrainedKeeps(s, w, u);
      case ReplayRead(u, pending) =>
        hide Placed, Replayed;
        if u in s.presence { HandedReplayKeeps(s, w, u, pending); } else { DroppedReplayKeeps(s, w, u, pending); }
      case _ =>
        hide Placed;
        NothingMoves(s, Went(s, w));
    }
  }

  lemma CopyIsOnRecord(s: State, k: Copy, p: Place)
    requires Placed(s) && At(s, k, p)
    ensures k in s.place
  {
  }

  /** A busy worker creates no copy. */
  lemma WentMakesNoCopy(s: State, w: nat)
    requires Placed(s) && w in s.workers
    ensures Went(s, w).place.Keys <= s.place.Keys
  {
    hide Placed;
    var pc := s.workers[w];
    if pc.DmRead? {
      CopyIsOnRecord(s, Copy(pc.msg, pc.receiver), Undecided(w));
    } else if pc.DmEnqueue? {
      CopyIsOnRecord(s, Copy(pc.msg, pc.receiver), Absent(w));
    } else if pc.RoomEnqueue? {
      CopyIsOnRecord(s, Copy(pc.msg, pc.member), Absent(w));
    }
  }

  lemma WentKeeps(s: State, w: nat)
    requires Inv(s) && w in s.workers
    ensures Inv(Went(s, w))
  {
    hide Placed, Fresh, Went;
    WentKeepsPlaces(s, w);
    WentMakesNoCopy(s, w);
    WentStartsNothing(s, w);
    FreshStill(s, Went(s, w));
  }

  lemma WentStartsNothing(s: State, w: nat)
    requires w in s.workers
    ensures var s' := Went(s, w);
            && s'.next == s.next
            && forall v :: v in s'.workers && s'.workers[v].RoomMembers? ==> v in s.workers && s.workers[v] == s'.workers[v]
  {
    hide Looked, Enqueued, Drained, Replayed;
  }

  lemma FanKeeps(s: State, w: nat, m: nat, sender: nat, u: nat, rest: set<nat>)
    requires Inv(s) && w in s.workers && s.workers[w] == RoomFan(m, sender, rest) && u in rest
    ensures Inv(Fanned(s, w, m, sender, u, rest))
  {
    hide Placed, Fresh;
    FannedKeeps(s, w, m, sender, u, rest);
    CopyIsOnRecord(s, Copy(m, u), Undecided(w));
    FreshStill(s, Fanned(s, w, m, sender, u, rest));
  }

  lemma MembersReadKeeps(s: State, w: nat, m: nat, sender: nat, members: set<nat>)
    requires Inv(s) && w in s.workers && s.workers[w] == RoomMembers(m, sender)
    ensures Inv(MembersRead(s, w, m, sender, members))
  {
    hide Placed;
    MembersKeep(s, w, m, sender, members);
  }

  lemma UnbindKeeps(s: State, u: nat, c: nat)
    requires Inv(s)
    ensures Inv(s.(presence := P.Unbound(s.presence, u, c)))
  {
    hide P.Unbound;
    NothingMoves(s, s.(presence := P.Unbound(s.presence, u, c)));
  }

  lemma StepKeeps(s: State, e: Event)
    requires Inv(s)
    ensures Inv(Step(s, e))
  {
    hide Inv, Started, Went, MembersRead, Fanned;
    if e.Unbind? {
      UnbindKeeps(s, e.user, e.conn);
    } else if e.worker !in s.workers {
      StartedKeeps(s, e);
    } else {
      var pc := s.workers[e.worker];
      if e.Go? {
        WentKeeps(s, e.worker);
      } else if e.Members? && pc.RoomMembers? {
        MembersReadKeeps(s, e.worker, pc.msg, pc.sender, e.members);
      } else if e.Fan? && pc.RoomFan? && e.member in pc.rest {
        FanKeeps(s, e.worker, pc.msg, pc.sender, e.member, pc.rest);
      }
    }
  }

  lemma {:induction false} RunKeeps(es: seq<Event>)
    ensures Inv(Run(es))
  {
    if es != [] {
      RunKeeps(es[..|es| - 1]);
      StepKeeps(Run(es[..|es| - 1]), es[|es| - 1]);
    }
  }

  // ---- at most once ------------------------------------------------

  /** A worker with a message knows its sender. */
  ghost predicate Knows(senders: map<nat, nat>, pc: Pc) {
    !pc.Drain? && !pc.ReplayRead? ==> pc.msg in senders && senders[pc.msg] == pc.sender
  }

  ghost predicate IsSender(senders: map<nat, nat>, k: Copy) { k.msg in senders && senders[k.msg] == k.user }

  ghost predicate EchoIsOwn(senders: map<nat, nat>, h: Hand) {
    h.echo ==> h.msg in senders && senders[h.msg] == h.user
  }

  ghost predicate Echoes(s: State) {
    && (forall m :: m in s.senders ==> m < s.next)
    && (forall w :: w in s.workers ==> Knows(s.senders, s.workers[w]))
    && (forall i :: 0 <= i < |s.hands| ==> EchoIsOwn(s.senders, s.hands[i]))
    && (forall i :: 0 <= i < |s.passed| ==> IsSender(s.senders, s.passed[i]))
  }

  /** At most one worker moves. */
  ghost predicate OneMoves(s: State, s': State, w: nat) {
    forall v :: v != w ==> (v in s'.workers <==> v in s.workers) && (v in s.workers ==> s'.workers[v] == s.workers[v])
  }

  lemma EchoesStill(s: State, s': State, w: nat)
    requires Echoes(s) && s'.senders == s.senders && s'.next == s.next && OneMoves(s, s', w)
    requires w in s'.workers ==> Knows(s.senders, s'.workers[w])
    requires s.hands <= s'.hands && forall i :: |s.hands| <= i < |s'.hands| ==> EchoIsOwn(s.senders, s'.hands[i])
    requires s.passed <= s'.passed && forall i :: |s.passed| <= i < |s'.passed| ==> IsSender(s.senders, s'.passed[i])
    ensures Echoes(s')
  {
    hide Knows, EchoIsOwn, IsSender;
  }

  lemma WentKeepsEchoes(s: State, w: nat)
    requires Echoes(s) && w in s.workers
    ensures Echoes(Went(s, w))
  {
    var s' := Went(s, w);
    assert Knows(s.senders, s.workers[w]);
    hide Echoes;
    match s.workers[w] {
      case ReplayRead(_, _) => ReplayKeepsEchoes(s, w);
      case Drain(_) => EchoesStill(s, s', w);
      case EchoRead(_, _) => EchoesStill(s, s', w);
      case _ =>
        hide Drained, Replayed;
        EchoesStill(s, s', w);
    }
  }

  lemma ReplayKeepsEchoes(s: State, w: nat)
    requires Echoes(s) && w in s.workers && s.workers[w].ReplayRead?
    ensures Echoes(Went(s, w))
  {
    hide Echoes;
    EchoesStill(s, Went(s, w), w);
  }

  lemma StartedKeepsEchoes(s: State, e: Event)
    requires Echoes(s) && !e.Unbind? && e.worker !in s.workers
    ensures Echoes(Started(s, e))
  {
  }

  lemma StepKeepsEchoes(s: State, e: Event)
    requires Echoes(s)
    ensures Echoes(Step(s, e))
  {
    hide Went, Started;
    if !e.Unbind? {
      if e.worker !in s.workers {
        StartedKeepsEchoes(s, e);
      } else if e.Go? {
        WentKeepsEchoes(s, e.worker);
      } else {
        assert Knows(s.senders, s.workers[e.worker]);
        hide Echoes;
        EchoesStill(s, Step(s, e), e.worker);
      }
    }
  }

  /** Echoes go to the sender only, and only a sender is ever passed over. */
  lemma {:induction false} EchoesGoToSenders(es: seq<Event>)
    ensures Echoes(Run(es))
  {
    if es != [] {
      EchoesGoToSenders(es[..|es| - 1]);
      StepKeepsEchoes(Run(es[..|es| - 1]), es[|es| - 1]);
    }
  }

  /**
   * In every interleaving a copy, once made, is from then on in exactly one place: with a worker that will look, with
   * one that will queue it, in the queue, drained, handed off, dropped, or passed over if it is for the sender.
   */
  lemma EachCopyIsInOnePlace(es: seq<Event>, n: nat, k: Copy) returns (p: Place)
    requires n <= |es| && k in Run(es[..n]).place
    ensures At(Run(es), k, p) && forall q :: At(Run(es), k, q) ==> q == p
    ensures p.PassedOver? ==> IsSender(Run(es).senders, k)
  {
    NoCopyGoesBack(es, n, k);
    p := Run(es).place[k];
    hide Run;
    EchoesGoToSenders(es);
    RunKeeps(es);
    assert OnRecord(Run(es), k, p);
    assert forall q :: At(Run(es), k, q) ==> OnRecord(Run(es), k, q);
  }

  /** A copy is made for the receiver of each direct message, and for each member a room message is sent to. */
  lemma CopiesAreMade(s: State, e: Event)
    ensures e.StartDm? && e.worker !in s.workers ==> Copy(s.next, e.receiver) in Step(s, e).place
    ensures e.Members? && e.worker in s.workers && s.workers[e.worker].RoomMembers? ==>
              forall u :: u in e.members ==> Copy(s.workers[e.worker].msg, u) in Step(s, e).place
  {
  }

  lemma NeverTwoPlaces(es: seq<Event>, k: Copy, p: Place, q: Place)
    requires At(Run(es), k, p) && At(Run(es), k, q)
    ensures p == q
  {
    hide Run, At;
    RunKeeps(es);
    assert OnRecord(Run(es), k, p) && OnRecord(Run(es), k, q);
  }

  /** A user other than the sender is handed a message at most once, live and replayed together. */
  lemma HandedAtMostOnce(es: seq<Event>, i: nat, j: nat)
    requires i < |Run(es).hands| && j < |Run(es).hands|
    requires var a, b := Run(es).hands[i], Run(es).hands[j];
             a.msg == b.msg && a.user == b.user && (a.msg in Run(es).senders ==> Run(es).senders[a.msg] != a.user)
    ensures i == j
  {
    hide Run;
    EchoesGoToSenders(es);
    var a := Run(es).hands[i];
    NeverTwoPlaces(es, Copy(a.msg, a.user), Handed(i), Handed(j));
  }

  // ---- no copy goes back -------------------------------------------

  function Rank(p: Place): nat {
    match p
    case Undecided(_) => 0
    case Absent(_) => 1
    case Queued(_) => 2
    case InReplay(_, _) => 3
    case Handed(_) => 4
    case Dropped(_) => 4
    case PassedOver(_) => 4
  }

  /** The copy stays where it is or moves on. */
  ghost predicate MovesOn(s: State, s': State, k: Copy) {
    k in s.place ==> k in s'.place && (s'.place[k] == s.place[k] || Rank(s'.place[k]) > Rank(s.place[k]))
  }

  lemma PlaceOf(s: State, k: Copy, p: Place)
    requires Placed(s) && At(s, k, p)
    ensures OnRecord(s, k, p)
  {
  }

  lemma WentMovesOn(s: State, w: nat, k: Copy)
    requires Placed(s) && w in s.workers
    ensures MovesOn(s, Went(s, w), k)
  {
    hide Placed;
    var pc := s.workers[w];
    if pc.DmRead? {
      PlaceOf(s, Copy(pc.msg, pc.receiver), Undecided(w));
    } else if pc.DmEnqueue? {
      PlaceOf(s, Copy(pc.msg, pc.receiver), Absent(w));
    } else if pc.RoomEnqueue? {
      PlaceOf(s, Copy(pc.msg, pc.member), Absent(w));
    }
  }

  lemma StepMovesOn(s: State, e: Event, k: Copy)
    requires Inv(s)
    ensures MovesOn(s, Step(s, e), k)
  {
    hide Placed, Went;
    if !e.Unbind? && e.worker in s.workers {
      var pc := s.workers[e.worker];
      if e.Go? {
        WentMovesOn(s, e.worker, k);
      } else if e.Fan? && pc.RoomFan? && e.member in pc.rest {
        PlaceOf(s, Copy(pc.msg, e.member), Undecided(e.worker));
      }
    }
  }

  /** A copy never vanishes and only moves on; once drained it is never queued or drained again. */
  lemma {:induction false} NoCopyGoesBack(es: seq<Event>, n: nat, k: Copy)
    requires n <= |es| && k in Run(es[..n]).place
    ensures k in Run(es).place
    ensures Run(es).place[k] == Run(es[..n]).place[k] || Rank(Run(es).place[k]) > Rank(Run(es[..n]).place[k])
    decreases |es|
  {
    if n == |es| {
      assert es[..n] == es;
    } else {
      hide Step, Inv;
      var before := es[..|es| - 1];
      assert before[..n] == es[..n];
      NoCopyGoesBack(before, n, k);
      RunKeeps(before);
      StepMovesOn(Run(before), es[|es| - 1], k);
    }
  }
}
