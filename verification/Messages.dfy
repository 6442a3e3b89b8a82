/** The message log of the in-memory store and the queries over it (`history_dm`, `history_room`). */
module Messages {
  import opened Options

  datatype Message = Message(
    id: nat, sender: nat, receiver: Option<nat>, room: Option<nat>, content: string, status: nat, createdAt: int)

  type Log = seq<Message>

  /** Ids count up from 1 in insertion order. */
  ghost predicate Ordered(log: Log) {
    && (forall i :: 0 <= i < |log| ==> log[i].id >= 1)
    && (forall i, j :: 0 <= i < j < |log| ==> log[i].id < log[j].id)
  }

  datatype Query = Between(a: nat, b: nat) | InRoom(r: nat)

  predicate Matches(q: Query, m: Message) {
    match q
    case Between(a, b) =>
      m.receiver.Some? &&
      ((m.sender == a && m.receiver.value == b) || (m.sender == b && m.receiver.value == a))
    case InRoom(r) => m.room == Some(r)
  }

  /** A cursor of 0 is no cursor. */
  predicate Before(cursor: nat, m: Message) { cursor == 0 || m.id < cursor }

  function Select(log: Log, q: Query, cursor: nat): Log {
    if log == [] then []
    else
      var n := |log| - 1;
      Select(log[..n], q, cursor) + (if Matches(q, log[n]) && Before(cursor, log[n]) then [log[n]] else [])
  }

  function Last(s: Log, n: nat): (t: Log)
    ensures |t| == if n < |s| then n else |s|
  {
    if n < |s| then s[|s| - n..] else s
  }

  /** A page: the newest `limit` matching messages before the cursor, oldest first. */
  function Page(log: Log, q: Query, cursor: nat, limit: nat): Log {
    Last(Select(log, q, cursor), limit)
  }

  lemma {:induction false} SelectAppend(a: Log, b: Log, q: Query, cursor: nat)
    ensures Select(a + b, q, cursor) == Select(a, q, cursor) + Select(b, q, cursor)
  {
    if b == [] {
      assert a + b == a;
    } else {
      var n := |b| - 1;
      assert (a + b)[..|a + b| - 1] == a + b[..n];
      SelectAppend(a, b[..n], q, cursor);
    }
  }

  lemma SelectFrom(log: Log, i: nat, q: Query, cursor: nat)
    requires i < |log|
    ensures Select(log[i..], q, cursor) ==
            (if Matches(q, log[i]) && Before(cursor, log[i]) then [log[i]] else []) + Select(log[i + 1..], q, cursor)
  {
    assert log[i..] == [log[i]] + log[i + 1..];
    SelectAppend([log[i]], log[i + 1..], q, cursor);
    assert Select([log[i]][..0], q, cursor) == [];
  }

  function Reversed(s: Log): (r: Log)
    ensures |r| == |s|
    ensures forall i :: 0 <= i < |s| ==> r[i] == s[|s| - 1 - i]
  {
    seq(|s|, i requires 0 <= i < |s| => s[|s| - 1 - i])
  }

  lemma ReversedSnoc(s: Log, m: Message)
    ensures Reversed(s + [m]) == [m] + Reversed(s)
  {
  }

  /** The reverse scan of the source, newest first until the limit is reached. */
  method History(log: Log, q: Query, cursor: nat, limit: nat) returns (page: Log)
    ensures page == Page(log, q, cursor, limit)
  {
    var out: Log := [];
    var i := |log|;
    while i > 0
      invariant 0 <= i <= |log|
      invariant Reversed(out) == Select(log[i..], q, cursor) && |out| <= limit
    {
      if |out| >= limit { break; }
      SelectFrom(log, i - 1, q, cursor);
      i := i - 1;
      if cursor != 0 && log[i].id >= cursor { continue; }
      if Matches(q, log[i]) {
        ReversedSnoc(out, log[i]);
        out := out + [log[i]];
      }
    }
    assert log == log[..i] + log[i..];
    SelectAppend(log[..i], log[i..], q, cursor);
    page := Reversed(out);
  }

  // ---- how a log changes -------------------------------------------

  ghost predicate SameButStatus(m: Message, n: Message) { m.(status := 0) == n.(status := 0) }

  /** `s` is, up to statuses, the beginning of `t`. */
  ghost predicate AlikePrefix(s: Log, t: Log) {
    |s| <= |t| && forall i :: 0 <= i < |s| ==> SameButStatus(s[i], t[i])
  }

  /** Inserts append, status updates change nothing else, and ids keep growing. */
  ghost predicate Evolves(log: Log, later: Log) {
    Ordered(later) && AlikePrefix(log, later)
  }

  lemma EvolvesTransitively(a: Log, b: Log, c: Log)
    requires Evolves(a, b) && Evolves(b, c)
    ensures Evolves(a, c)
  {
  }

  /** What matched before still matches, in the same places, whatever was added after it. */
  lemma {:induction false} SelectEvolves(log: Log, later: Log, q: Query, cursor: nat)
    requires AlikePrefix(log, later)
    ensures AlikePrefix(Select(log, q, cursor), Select(later, q, cursor))
    decreases |later|
  {
    if later != [] {
      var n := |later| - 1;
      if |log| == |later| {
        SelectEvolves(log[..n], later[..n], q, cursor);
        assert SameButStatus(log[n], later[n]);
        assert |Select(log[..n], q, cursor)| == |Select(later[..n], q, cursor)| by {
          SelectEvolves(later[..n], log[..n], q, cursor);
        }
      } else {
        SelectEvolves(log, later[..n], q, cursor);
      }
    }
  }

  /** Selections from an ordered log are ordered. */
  lemma {:induction false} SelectOrdered(log: Log, q: Query, cursor: nat)
    requires Ordered(log)
    ensures Ordered(Select(log, q, cursor))
    ensures forall m :: m in Select(log, q, cursor) ==> m in log
  {
    if log != [] {
      var n := |log| - 1;
      var s := Select(log[..n], q, cursor);
      SelectOrdered(log[..n], q, cursor);
      forall i | 0 <= i < |s| ensures s[i].id < log[n].id && s[i] in log {
        assert s[i] in s;
        var j :| 0 <= j < n && log[..n][j] == s[i];
        assert log[j] == s[i];
      }
      assert log[n].id >= 1;
    }
  }

  /** The first messages of a selection, up to one with the cursor's id, are the selection before the cursor. */
  lemma {:induction false} SelectBefore(log: Log, q: Query, cursor: nat, k: nat)
    requires Ordered(log) && cursor > 0
    requires k <= |Select(log, q, 0)|
    requires forall i :: 0 <= i < k ==> Select(log, q, 0)[i].id < cursor
    requires forall i :: k <= i < |Select(log, q, 0)| ==> Select(log, q, 0)[i].id >= cursor
    ensures Select(log, q, cursor) == Select(log, q, 0)[..k]
  {
    if log != [] {
      var n := |log| - 1;
      var before, m := log[..n], log[n];
      var s, t := Select(before, q, 0), Select(log, q, 0);
      assert t == if Matches(q, m) then s + [m] else s;
      assert Select(log, q, cursor) ==
             Select(before, q, cursor) + (if Matches(q, m) && Before(cursor, m) then [m] else []);
      hide Select, Matches;
      assert forall i :: 0 <= i < |s| ==> s[i] == t[i];
      if k <= |s| {
        SelectBefore(before, q, cursor, k);
        assert Matches(q, m) ==> t[|s|] == m;
        assert s[..k] == t[..k];
      } else {
        SelectBefore(before, q, cursor, |s|);
        assert t[|s|] == m && t[..k] == s[..|s|] + [m];
      }
    }
  }

  lemma {:induction false} SelectedIff(log: Log, q: Query, cursor: nat, m: Message)
    ensures m in Select(log, q, cursor) <==> m in log && Matches(q, m) && Before(cursor, m)
  {
    hide Matches, Before;
    if log != [] {
      var n := |log| - 1;
      SelectedIff(log[..n], q, cursor, m);
      assert log == log[..n] + [log[n]];
    }
  }

  lemma LastOlder(s: Log, n: nat, m: Message, p: Message)
    requires Ordered(s) && m in s && m !in Last(s, n) && p in Last(s, n)
    ensures m.id < p.id
  {
    var t := Last(s, n);
    var i :| 0 <= i < |s| && s[i] == m;
    var j :| 0 <= j < |t| && t[j] == p;
    var k := |s| - |t|;
    assert t == s[k..] && forall x :: k <= x < |s| ==> t[x - k] == s[x];
    assert s[k + j] == p;
  }

  /** The last messages of an ordered log. */
  lemma LastIs(s: Log, n: nat)
    requires Ordered(s)
    ensures Ordered(Last(s, n)) && |Last(s, n)| <= n
    ensures forall m :: m in Last(s, n) ==> m in s
    ensures forall m :: m in s && m !in Last(s, n) ==> |Last(s, n)| == n
    ensures forall m, p :: m in s && m !in Last(s, n) && p in Last(s, n) ==> m.id < p.id
  {
    forall m, p | m in s && m !in Last(s, n) && p in Last(s, n) ensures m.id < p.id { LastOlder(s, n, m, p); }
  }

  /** A page holds only messages that are asked for, in order, and leaves out only older ones, and none if not full. */
  lemma PageIs(log: Log, q: Query, cursor: nat, limit: nat)
    requires Ordered(log)
    ensures var page := Page(log, q, cursor, limit);
            && Ordered(page) && |page| <= limit
            && (forall m :: m in page ==> m in log && Matches(q, m) && Before(cursor, m))
            && (forall m :: m in log && Matches(q, m) && Before(cursor, m) && m !in page ==>
                  |page| == limit && forall p :: p in page ==> m.id < p.id)
  {
    hide Select, Matches, Before, Last, Ordered;
    SelectOrdered(log, q, cursor);
    forall m { SelectedIff(log, q, cursor, m); }
    LastIs(Select(log, q, cursor), limit);
  }
}
