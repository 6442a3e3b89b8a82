/** Which users are online and on which connections (`Presence` in chat/presence). */
module Presence {

  /** User id to the ids of the connections bound to that user. */
  type Table = map<nat, set<nat>>

  function ConnectionsOf(table: Table, user: nat): set<nat> {
    if user in table then table[user] else {}
  }

  function Bound(table: Table, user: nat, conn: nat): Table {
    table[user := ConnectionsOf(table, user) + {conn}]
  }

  function Unbound(table: Table, user: nat, conn: nat): Table {
    if user !in table then table
    else if table[user] - {conn} == {} then table - {user}
    else table[user := table[user] - {conn}]
  }

  /** A user is in the table exactly while bound to some connection. */
  ghost predicate NoEmptySlot(table: Table) {
    forall u :: u in table ==> table[u] != {}
  }

  predicate IsBound(table: Table, user: nat, conn: nat) {
    user in table && conn in table[user]
  }

  /** Binding adds one pair and keeps the others. */
  lemma BoundPairs(table: Table, user: nat, conn: nat, u: nat, c: nat)
    ensures IsBound(Bound(table, user, conn), u, c) <==> IsBound(table, u, c) || (u, c) == (user, conn)
  {
  }

  /** Unbinding removes that pair and no other, although it may drop a whole slot. */
  lemma UnboundPairs(table: Table, user: nat, conn: nat, u: nat, c: nat)
    ensures IsBound(Unbound(table, user, conn), u, c) <==> IsBound(table, u, c) && (u, c) != (user, conn)
  {
    if IsBound(table, u, c) && u == user && c != conn { assert c in table[user] - {conn}; }
  }

  /** The object; its transition handler runs after the lock is released, so the result is what the handler is told. */
  class Registry {
    var table: Table

    ghost predicate Valid()
      reads this
    {
      NoEmptySlot(table)
    }

    constructor ()
      ensures Valid() && table == map[]
    {
      table := map[];
    }

    method Bind(user: nat, conn: nat) returns (wentOnline: bool)
      requires Valid()
      modifies this
      ensures Valid() && table == Bound(old(table), user, conn)
      ensures wentOnline <==> user !in old(table)
    {
      var slot := if user in table then table[user] else {};
      wentOnline := slot == {};
      table := table[user := slot + {conn}];
    }

    method Unbind(user: nat, conn: nat) returns (wentOffline: bool)
      requires Valid()
      modifies this
      ensures Valid() && table == Unbound(old(table), user, conn)
      ensures wentOffline <==> user in old(table) && user !in table
    {
      if user !in table { return false; }
      var slot := table[user] - {conn};
      if slot == {} {
        table := table - {user};
        return true;
      }
      table := table[user := slot];
      return false;
    }

    method Connections(user: nat) returns (conns: set<nat>)
      requires Valid()
      ensures conns == ConnectionsOf(table, user)
      ensures conns == {} <==> user !in table
    {
      conns := if user in table then table[user] else {};
    }

    method IsOnline(user: nat) returns (online: bool)
      requires Valid()
      ensures online <==> ConnectionsOf(table, user) != {}
    {
      online := user in table;
    }
  }

  // ---- every sequence of locked sections ---------------------------

  datatype Event = Bind(user: nat, conn: nat) | Unbind(user: nat, conn: nat)

  datatype State = State(table: Table, transitions: seq<(nat, bool)>)

  function Step(s: State, e: Event): State {
    match e
    case Bind(u, c) =>
      State(Bound(s.table, u, c), if u in s.table then s.transitions else s.transitions + [(u, true)])
    case Unbind(u, c) =>
      var t := Unbound(s.table, u, c);
      State(t, if u in s.table && u !in t then s.transitions + [(u, false)] else s.transitions)
  }

  function Run(es: seq<Event>): State {
    if es == [] then State(map[], []) else Step(Run(es[..|es| - 1]), es[|es| - 1])
  }

  /** The transitions of one user. */
  function Of(transitions: seq<(nat, bool)>, user: nat): seq<bool> {
    if transitions == [] then []
    else
      var n := |transitions| - 1;
      Of(transitions[..n], user) + (if transitions[n].0 == user then [transitions[n].1] else [])
  }

  lemma OfSnoc(ts: seq<(nat, bool)>, t: (nat, bool), user: nat)
    ensures Of(ts + [t], user) == Of(ts, user) + (if t.0 == user then [t.1] else [])
  {
    assert (ts + [t])[..|ts|] == ts;
  }

  ghost predicate Alternates(bs: seq<bool>) {
    forall i :: 0 <= i < |bs| ==> bs[i] == (i % 2 == 0)
  }

  ghost predicate TransitionsMatch(s: State, user: nat) {
    var bs := Of(s.transitions, user);
    NoEmptySlot(s.table) && Alternates(bs) && (user in s.table <==> |bs| % 2 == 1)
  }

  lemma StepKeepsMatch(s: State, e: Event, user: nat)
    requires TransitionsMatch(s, user)
    ensures TransitionsMatch(Step(s, e), user)
  {
    hide Of;
    OfSnoc(s.transitions, (e.user, e.Bind?), user);
  }

  /**
   * In any interleaving no slot is ever empty, each user's transitions alternate online, offline, online, and the
   * user is online exactly if the last one was to online.
   */
  lemma {:induction false} TransitionsAlternate(es: seq<Event>, user: nat)
    ensures TransitionsMatch(Run(es), user)
  {
    if es != [] {
      TransitionsAlternate(es[..|es| - 1], user);
      StepKeepsMatch(Run(es[..|es| - 1]), es[|es| - 1], user);
    }
  }
}
