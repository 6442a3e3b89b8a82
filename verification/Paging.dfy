/**
 * Paging backwards through a history: each fetch sets the cursor to the lowest id of the page before it. Between
 * fetches messages are inserted and statuses updated, so each fetch sees its own log.
 */
module Paging {
  import opened Messages

  ghost predicate Session(logs: seq<Log>) {
    && |logs| > 0 && Ordered(logs[0])
    && forall k :: 0 < k < |logs| ==> Evolves(logs[k - 1], logs[k])
  }

  function Cursor(logs: seq<Log>, q: Query, limit: nat, k: nat): nat
    requires k < |logs|
    decreases k, 0
  {
    if k == 0 then 0
    else
      var page := Fetch(logs, q, limit, k - 1);
      if page == [] then 0 else page[0].id
  }

  /** Page `k`, counted from the newest. */
  function Fetch(logs: seq<Log>, q: Query, limit: nat, k: nat): Log
    requires k < |logs|
    decreases k, 1
  {
    Page(logs[k], q, Cursor(logs, q, limit, k), limit)
  }

  /** The first `k` pages, oldest message first. */
  function Joined(logs: seq<Log>, q: Query, limit: nat, k: nat): Log
    requires k <= |logs|
  {
    if k == 0 then [] else Fetch(logs, q, limit, k - 1) + Joined(logs, q, limit, k - 1)
  }

  /** How many messages `k` pages of a history of `total` messages hold. */
  function Covered(total: nat, limit: nat, k: nat): (c: nat)
    ensures c <= total
  {
    if k == 0 then 0
    else
      var c := Covered(total, limit, k - 1) + limit;
      if c < total then c else total
  }

  /** Equal up to statuses. */
  ghost predicate Alike(s: Log, t: Log) { |s| == |t| && AlikePrefix(s, t) }

  lemma {:induction false} SessionEvolves(logs: seq<Log>, k: nat)
    requires Session(logs) && k < |logs|
    ensures Evolves(logs[0], logs[k])
  {
    if k > 0 {
      SessionEvolves(logs, k - 1);
      EvolvesTransitively(logs[0], logs[k - 1], logs[k]);
    }
  }

  /** With the cursor on message `total - c` of the first log's history, the next page holds those just before. */
  lemma NextPage(log: Log, later: Log, q: Query, limit: nat, c: nat)
    requires Ordered(log) && Evolves(log, later)
    requires 0 < c <= |Select(log, q, 0)|
    ensures var all := Select(log, q, 0);
            var n := |all| - c;
            Alike(Page(later, q, all[n].id, limit), all[if limit < n then n - limit else 0..n])
  {
    hide Select;
    var all, now := Select(log, q, 0), Select(later, q, 0);
    var n := |all| - c;
    SelectEvolves(log, later, q, 0);
    SelectOrdered(later, q, 0);
    assert SameButStatus(all[n], now[n]);
    SelectBefore(later, q, all[n].id, n);
    AlikeSlice(all, now, if limit < n then n - limit else 0, n);
    assert Page(later, q, all[n].id, limit) == Last(now[..n], limit);
    LastOfFirst(now, n, limit);
  }

  lemma LastOfFirst(s: Log, n: nat, limit: nat)
    requires n <= |s|
    ensures Last(s[..n], limit) == s[if limit < n then n - limit else 0..n]
  {
  }

  lemma AlikeSlice(s: Log, t: Log, i: nat, j: nat)
    requires AlikePrefix(s, t) && i <= j <= |s|
    ensures Alike(t[i..j], s[i..j])
  {
    forall x | 0 <= x < j - i ensures SameButStatus(t[i..j][x], s[i..j][x]) {
      assert SameButStatus(s[i + x], t[i + x]);
    }
  }

  ghost predicate FullSoFar(logs: seq<Log>, q: Query, limit: nat, k: nat)
    requires k <= |logs|
  {
    forall j :: 0 <= j < k ==> Fetch(logs, q, limit, j) != []
  }

  lemma AlikeJoin(a: Log, b: Log, all: Log, i: nat, j: nat)
    requires i <= j <= |all| && Alike(a, all[i..j]) && Alike(b, all[j..])
    ensures Alike(a + b, all[i..])
  {
    forall x | 0 <= x < |a + b| ensures SameButStatus((a + b)[x], all[i..][x]) {
      if x < |a| {
        assert SameButStatus(a[x], all[i..j][x]);
      } else {
        assert SameButStatus(b[x - |a|], all[j..][x - |a|]);
      }
    }
  }

  /** The pages so far are the newest messages of the first log's history. */
  ghost predicate Shown(logs: seq<Log>, q: Query, limit: nat, all: Log, k: nat)
    requires k <= |logs|
  {
    var c := Covered(|all|, limit, k);
    k <= c && Alike(Joined(logs, q, limit, k), all[|all| - c..])
  }

  /** The next page is the stretch before them. */
  ghost predicate Coming(logs: seq<Log>, q: Query, limit: nat, all: Log, k: nat)
    requires k < |logs|
  {
    Alike(Fetch(logs, q, limit, k),
          all[|all| - Covered(|all|, limit, k + 1)..|all| - Covered(|all|, limit, k)])
  }

  lemma ShownStep(logs: seq<Log>, q: Query, limit: nat, all: Log, k: nat)
    requires 0 < k <= |logs| && Shown(logs, q, limit, all, k - 1) && Coming(logs, q, limit, all, k - 1)
    requires Fetch(logs, q, limit, k - 1) != []
    ensures Shown(logs, q, limit, all, k)
  {
    hide Fetch;
    var b, c := Covered(|all|, limit, k - 1), Covered(|all|, limit, k);
    AlikeJoin(Fetch(logs, q, limit, k - 1), Joined(logs, q, limit, k - 1), all, |all| - c, |all| - b);
  }

  lemma ComingStep(logs: seq<Log>, q: Query, limit: nat, all: Log, k: nat)
    requires Session(logs) && 0 < k < |logs| && all == Select(logs[0], q, 0)
    requires Coming(logs, q, limit, all, k - 1) && Fetch(logs, q, limit, k - 1) != []
    ensures Coming(logs, q, limit, all, k)
  {
    hide Select, Page;
    var b, c := Covered(|all|, limit, k - 1), Covered(|all|, limit, k);
    var n := |all| - c;
    var page := Fetch(logs, q, limit, k - 1);
    assert SameButStatus(page[0], all[n..|all| - b][0]);
    SessionEvolves(logs, k);
    NextPage(logs[0], logs[k], q, limit, c);
    assert Fetch(logs, q, limit, k) == Page(logs[k], q, all[n].id, limit);
    assert |all| - Covered(|all|, limit, k + 1) == if limit < n then n - limit else 0;
  }

  /** What `k` non-empty pages have shown, and what the next one will be. */
  lemma {:induction false} PagesCover(logs: seq<Log>, q: Query, limit: nat, k: nat)
    requires Session(logs) && k < |logs| && limit >= 1
    requires FullSoFar(logs, q, limit, k)
    ensures Shown(logs, q, limit, Select(logs[0], q, 0), k) && Coming(logs, q, limit, Select(logs[0], q, 0), k)
  {
    hide Select, Alike;
    var all := Select(logs[0], q, 0);
    if k == 0 {
      FirstPage(logs[0], q, limit);
      assert Alike([], all[|all|..]) by { assert [] == all[|all|..]; AlikeSelf([]); }
    } else {
      PagesCover(logs, q, limit, k - 1);
      ShownStep(logs, q, limit, all, k);
      ComingStep(logs, q, limit, all, k);
    }
  }

  lemma AlikeSelf(s: Log)
    ensures Alike(s, s)
  {
  }

  lemma FirstPage(log: Log, q: Query, limit: nat)
    ensures var all := Select(log, q, 0);
            Alike(Page(log, q, 0, limit), all[|all| - Covered(|all|, limit, 1)..|all|])
  {
    hide Select;
    var all := Select(log, q, 0);
    assert Last(all, limit) == all[|all| - Covered(|all|, limit, 1)..|all|];
  }

  /**
   * Paging is complete and exact: when a page comes back empty, the pages before it, oldest first, are the matching
   * messages of the log as the first fetch saw it, each once and in order.
   */
  lemma PagingIsExact(logs: seq<Log>, q: Query, limit: nat, k: nat)
    requires Session(logs) && k < |logs| && limit >= 1
    requires FullSoFar(logs, q, limit, k)
    ensures Fetch(logs, q, limit, k) == [] <==> Alike(Joined(logs, q, limit, k), Select(logs[0], q, 0))
  {
    PagesCover(logs, q, limit, k);
    var all := Select(logs[0], q, 0);
    if Covered(|all|, limit, k) == |all| { assert all[0..] == all; }
  }

  /** Paging ends: no more pages are non-empty than there are messages. */
  lemma PagingEnds(logs: seq<Log>, q: Query, limit: nat, k: nat)
    requires Session(logs) && k < |logs| && limit >= 1
    requires FullSoFar(logs, q, limit, k)
    ensures k <= |Select(logs[0], q, 0)|
    ensures k == |Select(logs[0], q, 0)| ==> Fetch(logs, q, limit, k) == []
  {
    PagesCover(logs, q, limit, k);
  }
}
