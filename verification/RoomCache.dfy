/** The room-membership cache (`RoomManager` in chat/room_manager) in front of the store. */
module RoomCache {
  import opened Options
  import opened Store

  type Table = map<nat, set<nat>>

  /** The cache after a lazy load. */
  function WithLoaded(cache: Table, loaded: set<nat>, members: Table, room: nat): Table {
    if room in loaded then cache else cache[room := Members(members, room)]
  }

  class RoomManager {
    const repos: Repositories
    var cache: Table
    var loaded: set<nat>

    ghost predicate Valid()
      reads this
    {
      cache.Keys == loaded
    }

    constructor (repos: Repositories)
      ensures Valid() && this.repos == repos && cache == map[] && loaded == {}
    {
      this.repos := repos;
      cache, loaded := map[], {};
    }

    method EnsureLoaded(room: nat)
      requires Valid()
      modifies this
      ensures Valid() && room in cache
      ensures cache == WithLoaded(old(cache), old(loaded), repos.roomMembers, room)
    {
      if room in loaded { return; }
      cache := cache[room := Members(repos.roomMembers, room)];
      loaded := loaded + {room};
    }

    method MembersOf(room: nat) returns (members: set<nat>)
      requires Valid()
      modifies this
      ensures Valid() && cache == WithLoaded(old(cache), old(loaded), repos.roomMembers, room)
      ensures room in cache && members == cache[room]
    {
      EnsureLoaded(room);
      members := cache[room];
    }

    method IsMember(room: nat, user: nat) returns (yes: bool)
      requires Valid()
      modifies this
      ensures Valid() && cache == WithLoaded(old(cache), old(loaded), repos.roomMembers, room)
      ensures room in cache && yes == (user in cache[room])
    {
      EnsureLoaded(room);
      yes := user in cache[room];
    }

    method OnJoin(room: nat, user: nat)
      requires Valid()
      modifies this
      ensures Valid()
      ensures var c := WithLoaded(old(cache), old(loaded), repos.roomMembers, room);
              room in c && cache == c[room := c[room] + {user}]
    {
      EnsureLoaded(room);
      cache := cache[room := cache[room] + {user}];
    }

    method OnLeave(room: nat, user: nat)
      requires Valid()
      modifies this
      ensures Valid()
      ensures cache == if room in old(cache) then old(cache)[room := old(cache)[room] - {user}] else old(cache)
    {
      if room in cache { cache := cache[room := cache[room] - {user}]; }
    }

    method Invalidate(room: nat)
      requires Valid()
      modifies this
      ensures Valid() && cache == old(cache) - {room}
    {
      cache := cache - {room};
      loaded := loaded - {room};
    }
  }
}

/**
 * Cache and store under every interleaving. A join or leave writes the store in one locked section and the cache in
 * a later one; a lazy load reads the store and fills the cache while it holds only the cache's mutex.
 */
module RoomCacheRuns {
  import opened Options
  import opened Store

  datatype Op = Join(room: nat, user: nat) | Leave(room: nat, user: nat)

  /** A thread that holds the cache's mutex and has read the store, but not yet filled the cache. */
  datatype Load = Load(thread: nat, room: nat, snapshot: set<nat>)

  datatype State = State(
    rooms: set<nat>, members: map<nat, set<nat>>,
    cache: map<nat, set<nat>>,
    loading: Option<Load>,
    /** Operations between their store write and their cache update. */
    ops: map<nat, Op>)

  datatype Event =
    | CreateRoom(room: nat)
    | StoreJoin(thread: nat, room: nat, user: nat)
    | StoreLeave(thread: nat, room: nat, user: nat)
    | LoadRead(thread: nat, room: nat)
    | LoadFill(thread: nat)
    | CacheUpdate(thread: nat)
    | Invalidate(room: nat)

  function Init(): State { State({}, map[], map[], None, map[]) }

  function Step(s: State, e: Event): State {
    match e
    case CreateRoom(r) => s.(rooms := s.rooms + {r})
    case StoreJoin(t, r, u) =>
      if t in s.ops || r !in s.rooms then s
      else s.(members := s.members[r := Members(s.members, r) + {u}], ops := s.ops[t := Join(r, u)])
    case StoreLeave(t, r, u) =>
      if t in s.ops then s
      else
        var members := if r in s.members then s.members[r := s.members[r] - {u}] else s.members;
        s.(members := members, ops := s.ops[t := Leave(r, u)])
    case LoadRead(t, r) =>
      if s.loading.Some? || r in s.cache then s
      else s.(loading := Some(Load(t, r, Members(s.members, r))))
    case LoadFill(t) =>
      if s.loading.Some? && s.loading.value.thread == t then
        s.(cache := s.cache[s.loading.value.room := s.loading.value.snapshot], loading := None)
      else s
    case CacheUpdate(t) =>
      if s.loading.Some? || t !in s.ops then s
      else
        (match s.ops[t]
         case Join(r, u) =>
           if r !in s.cache then s   // it has to load the room first
           else s.(cache := s.cache[r := s.cache[r] + {u}], ops := s.ops - {t})
         case Leave(r, u) =>
           var cache := if r in s.cache then s.cache[r := s.cache[r] - {u}] else s.cache;
           s.(cache := cache, ops := s.ops - {t}))
    case Invalidate(r) => if s.loading.Some? then s else s.(cache := s.cache - {r})
  }

  function Run(es: seq<Event>): State {
    if es == [] then Init() else Step(Run(es[..|es| - 1]), es[|es| - 1])
  }

  ghost predicate InFlight(s: State, r: nat, u: nat) {
    exists t :: t in s.ops && s.ops[t].room == r && s.ops[t].user == u
  }

  /** Where no operation is in flight, a loaded room's cached membership is the stored one. */
  ghost predicate Agree(s: State) {
    forall r, u :: r in s.cache && !InFlight(s, r, u) ==> (u in s.cache[r] <==> u in Members(s.members, r))
  }

  /** And so is the membership that a load in progress has read. */
  ghost predicate LoadAgrees(s: State) {
    s.loading.Some? ==>
      var l := s.loading.value;
      forall u :: !InFlight(s, l.room, u) ==> (u in l.snapshot <==> u in Members(s.members, l.room))
  }

  /** An operation is about to update the cache last, although the store saw a contrary one after it. */
  ghost predicate Overtaken(s: State, e: Event) {
    && e.CacheUpdate? && e.thread in s.ops && s.loading.None?
    && var op := s.ops[e.thread];
       && op.room in s.cache && (op.Join? <==> op.user !in Members(s.members, op.room))
       && !InFlight(s.(ops := s.ops - {e.thread}), op.room, op.user)
  }

  lemma FlightAfterStore(s: State, ops: map<nat, Op>, t: nat, op: Op, r: nat, u: nat)
    requires t !in s.ops && ops == s.ops[t := op]
    ensures InFlight(s.(ops := ops), r, u) <==> InFlight(s, r, u) || (r == op.room && u == op.user)
  {
    var s' := s.(ops := ops);
    assert t in s'.ops && s'.ops[t] == op;
    if v :| v in s.ops && s.ops[v].room == r && s.ops[v].user == u { assert v in s'.ops && s'.ops[v] == s.ops[v]; }
  }

  lemma FlightAfterUpdate(s: State, t: nat, r: nat, u: nat)
    requires t in s.ops && (r != s.ops[t].room || u != s.ops[t].user)
    ensures InFlight(s.(ops := s.ops - {t}), r, u) <==> InFlight(s, r, u)
  {
    var s' := s.(ops := s.ops - {t});
    if v :| v in s.ops && s.ops[v].room == r && s.ops[v].user == u { assert v in s'.ops && s'.ops[v] == s.ops[v]; }
  }

  /** Only the operations matter for what is in flight. */
  lemma SameFlight(s: State, s': State, r: nat, u: nat)
    requires s'.ops == s.ops
    ensures InFlight(s', r, u) <==> InFlight(s, r, u)
  {
  }

  lemma StoreKeeps(s: State, e: Event, t: nat, op: Op)
    requires Agree(s) && LoadAgrees(s) && t !in s.ops
    requires op.Join? ==> e == StoreJoin(t, op.room, op.user) && op.room in s.rooms
    requires op.Leave? ==> e == StoreLeave(t, op.room, op.user)
    ensures Agree(Step(s, e)) && LoadAgrees(Step(s, e))
  {
    hide InFlight;
    var s' := Step(s, e);
    forall r, u ensures InFlight(s', r, u) <==> InFlight(s, r, u) || (r == op.room && u == op.user) {
      FlightAfterStore(s, s'.ops, t, op, r, u);
      SameFlight(s.(ops := s'.ops), s', r, u);
    }
    assert forall r, u :: r != op.room || u != op.user ==> (u in Members(s'.members, r) <==> u in Members(s.members, r));
  }

  lemma UpdateAgrees(s: State, t: nat)
    requires Agree(s) && t in s.ops && s.loading.None? && (s.ops[t].Join? ==> s.ops[t].room in s.cache)
    ensures Agree(Step(s, CacheUpdate(t))) <==> !Overtaken(s, CacheUpdate(t))
  {
    hide InFlight;
    var s', op, rest := Step(s, CacheUpdate(t)), s.ops[t], s.(ops := s.ops - {t});
    forall r, u ensures InFlight(s', r, u) <==> InFlight(rest, r, u) { SameFlight(rest, s', r, u); }
    forall r, u | r != op.room || u != op.user ensures InFlight(rest, r, u) <==> InFlight(s, r, u) {
      FlightAfterUpdate(s, t, r, u);
    }
    assert op.room in s.cache ==> (op.user in s'.cache[op.room] <==> op.Join?);
  }

  /** A step keeps the agreement exactly if it is not an update that was overtaken. */
  lemma AgreementIsKeptUnlessOvertaken(s: State, e: Event)
    requires Agree(s) && LoadAgrees(s)
    ensures LoadAgrees(Step(s, e)) && (Agree(Step(s, e)) <==> !Overtaken(s, e))
  {
    match e {
      case StoreJoin(t, r, u) => if t !in s.ops && r in s.rooms { StoreKeeps(s, e, t, Join(r, u)); }
      case StoreLeave(t, r, u) => if t !in s.ops { StoreKeeps(s, e, t, Leave(r, u)); }
      case CacheUpdate(t) =>
        if t in s.ops && s.loading.None? && (s.ops[t].Join? ==> s.ops[t].room in s.cache) { UpdateAgrees(s, t); }
      case _ =>
        hide InFlight;
        forall r, u { SameFlight(s, Step(s, e), r, u); }
    }
  }

  ghost predicate AlwaysAgree(es: seq<Event>) {
    forall i :: 0 <= i <= |es| ==> Agree(Run(es[..i]))
  }

  ghost predicate NeverOvertaken(es: seq<Event>) {
    forall i :: 0 <= i < |es| ==> !Overtaken(Run(es[..i]), es[i])
  }

  lemma AgreeSnoc(es: seq<Event>, e: Event)
    ensures AlwaysAgree(es + [e]) <==> AlwaysAgree(es) && Agree(Run(es + [e]))
    ensures AlwaysAgree(es) ==> Agree(Run(es))
  {
    hide Run, Agree;
    assert (es + [e])[..|es| + 1] == es + [e] && es[..|es|] == es;
    assert forall i :: 0 <= i <= |es| ==> (es + [e])[..i] == es[..i];
  }

  lemma OvertakenSnoc(es: seq<Event>, e: Event)
    ensures NeverOvertaken(es + [e]) <==> NeverOvertaken(es) && !Overtaken(Run(es), e)
  {
    hide Run, Overtaken;
    assert (es + [e])[..|es|] == es && (es + [e])[|es|] == e;
    assert forall i :: 0 <= i <= |es| ==> (es + [e])[..i] == es[..i];
  }

  /**
   * In any interleaving, cache and store agree throughout on every pair that no operation is changing, exactly if no
   * update of the cache is overtaken in the store.
   */
  lemma {:induction false} CacheAgreesUnlessOvertaken(es: seq<Event>)
    ensures AlwaysAgree(es) <==> NeverOvertaken(es)
    ensures AlwaysAgree(es) ==> LoadAgrees(Run(es))
  {
    if es == [] {
      assert es[..0] == es;
    } else {
      hide Step, Agree, LoadAgrees, Overtaken, AlwaysAgree, NeverOvertaken;
      var before, e := es[..|es| - 1], es[|es| - 1];
      assert es == before + [e];
      CacheAgreesUnlessOvertaken(before);
      AgreeSnoc(before, e);
      OvertakenSnoc(before, e);
      if AlwaysAgree(before) { AgreementIsKeptUnlessOvertaken(Run(before), e); }
    }
  }

  // ---- operations that do not overlap ------------------------------

  /** The store write of an operation does not start while another one on the same pair is in flight. */
  ghost predicate Disciplined(s: State, e: Event) {
    match e
    case StoreJoin(t, r, u) => !InFlight(s, r, u)
    case StoreLeave(t, r, u) => !InFlight(s, r, u)
    case _ => true
  }

  ghost predicate NoOverlap(es: seq<Event>) {
    forall i :: 0 <= i < |es| ==> Disciplined(Run(es[..i]), es[i])
  }

  /** An operation in flight is the last one the store saw on its pair. */
  ghost predicate OpsAreLatest(s: State) {
    && (forall t :: t in s.ops ==> (s.ops[t].user in Members(s.members, s.ops[t].room) <==> s.ops[t].Join?))
    && (forall t, t' :: t in s.ops && t' in s.ops && t != t' ==>
          s.ops[t].room != s.ops[t'].room || s.ops[t].user != s.ops[t'].user)
  }

  lemma StepKeepsLatest(s: State, e: Event)
    requires OpsAreLatest(s) && Disciplined(s, e)
    ensures OpsAreLatest(Step(s, e)) && !Overtaken(s, e)
  {
  }

  lemma OverlapSnoc(es: seq<Event>, e: Event)
    ensures NoOverlap(es + [e]) <==> NoOverlap(es) && Disciplined(Run(es), e)
  {
    hide Run, Disciplined;
    assert (es + [e])[..|es|] == es && (es + [e])[|es|] == e;
    assert forall i :: 0 <= i <= |es| ==> (es + [e])[..i] == es[..i];
  }

  lemma {:induction false} NoOverlapNeverOvertaken(es: seq<Event>)
    requires NoOverlap(es)
    ensures NeverOvertaken(es) && OpsAreLatest(Run(es))
  {
    if es != [] {
      hide Step, Overtaken, NeverOvertaken, NoOverlap, OpsAreLatest, Disciplined;
      var before, e := es[..|es| - 1], es[|es| - 1];
      assert es == before + [e];
      OverlapSnoc(before, e);
      NoOverlapNeverOvertaken(before);
      OvertakenSnoc(before, e);
      StepKeepsLatest(Run(before), e);
    }
  }

  /** If operations on the same room and user never overlap, the agreement always holds. */
  lemma CacheAgreesWithStore(es: seq<Event>)
    requires NoOverlap(es)
    ensures AlwaysAgree(es) && Agree(Run(es))
  {
    hide Run, Agree, NeverOvertaken;
    NoOverlapNeverOvertaken(es);
    CacheAgreesUnlessOvertaken(es);
    AgreeSnoc(es, Invalidate(0));
  }

  lemma RunSnoc(es: seq<Event>, e: Event)
    ensures Run(es + [e]) == Step(Run(es), e)
  {
    assert (es + [e])[..|es|] == es;
  }

  /** Overlapping, a join and a leave of the same user can reach store and cache in opposite order. */
  lemma OverlapBreaksAgreement(r: nat, u: nat) returns (es: seq<Event>)
    ensures Run(es).ops == map[] && r in Run(es).cache
    ensures u in Run(es).cache[r] && u !in Members(Run(es).members, r)
    ensures !Agree(Run(es)) && !NoOverlap(es)
  {
    var e1, e2, e3 := CreateRoom(r), LoadRead(0, r), LoadFill(0);
    var loaded := [e1, e2, e3];
    RunSnoc([], e1);
    RunSnoc([e1], e2);
    RunSnoc([e1, e2], e3);
    assert [] + [e1] == [e1] && [e1] + [e2] == [e1, e2] && [e1, e2] + [e3] == loaded;
    var joined := loaded + [StoreJoin(1, r, u)];
    var left := joined + [StoreLeave(2, r, u)];
    var dropped := left + [CacheUpdate(2)];
    es := dropped + [CacheUpdate(1)];
    RunSnoc(loaded, StoreJoin(1, r, u));
    RunSnoc(joined, StoreLeave(2, r, u));
    RunSnoc(left, CacheUpdate(2));
    RunSnoc(dropped, CacheUpdate(1));
    var s := Run(es);
    assert s.ops == map[] && !InFlight(s, r, u);
    if NoOverlap(es) { CacheAgreesWithStore(es); }
  }
}
