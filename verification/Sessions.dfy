/** The session cache (`SessionManager` in auth/session), written through to the session table of the store. */
module Sessions {
  import opened Options
  import opened Store

  datatype Info = Info(user: nat, expires: int)

  type Cache = map<string, Info>

  /** One row of the table as `warm` treats it: an expired one is passed over. */
  function WarmRow(cache: Cache, row: SessionRow, ttl: int, now: int): Cache {
    if row.lastActive + ttl <= now then cache else cache[row.token := Info(row.user, row.lastActive + ttl)]
  }

  function Warmed(cache: Cache, rows: seq<SessionRow>, ttl: int, now: int): Cache {
    if rows == [] then cache
    else
      var n := |rows| - 1;
      WarmRow(Warmed(cache, rows[..n], ttl, now), rows[n], ttl, now)
  }

  /** What a lookup returns and what it leaves in the cache: an expired entry is erased. */
  function Lookup(cache: Cache, token: string, now: int): Option<Info> {
    if token in cache && now < cache[token].expires then Some(cache[token]) else None
  }

  function AfterLookup(cache: Cache, token: string, now: int): Cache {
    if token in cache && now >= cache[token].expires then cache - {token} else cache
  }

  function Touched(cache: Cache, token: string, ttl: int, now: int): Cache {
    if token in cache then cache[token := cache[token].(expires := now + ttl)] else cache
  }

  class SessionManager {
    const repos: Repositories
    /** Milliseconds. */
    const ttl: int
    var cache: Cache

    constructor (repos: Repositories, ttlSeconds: int)
      ensures this.repos == repos && cache == map[]
      ensures ttl == (if ttlSeconds > 0 then ttlSeconds else 86400) * 1000
    {
      this.repos := repos;
      ttl := (if ttlSeconds > 0 then ttlSeconds else 86400) * 1000;
      cache := map[];
    }

    method Warm(now: int)
      modifies this
      ensures cache == Warmed(old(cache), repos.sessions, ttl, now)
    {
      var rows := repos.sessions;
      for i := 0 to |rows|
        invariant cache == Warmed(old(cache), rows[..i], ttl, now)
      {
        assert rows[..i + 1][..i] == rows[..i];
        if rows[i].lastActive + ttl <= now { continue; }
        cache := cache[rows[i].token := Info(rows[i].user, rows[i].lastActive + ttl)];
      }
      assert rows[..|rows|] == rows;
    }

    /** The token comes from the random source. */
    method Create(user: nat, token: string, now: int)
      modifies this, repos`sessions
      ensures cache == old(cache)[token := Info(user, now + ttl)]
      ensures repos.sessions == PutRow(old(repos.sessions), SessionRow(token, user, now))
    {
      cache := cache[token := Info(user, now + ttl)];
      repos.InsertSession(token, user, now);
    }

    method Validate(token: string, now: int) returns (info: Option<Info>)
      modifies this
      ensures info.Some? <==> token in old(cache) && now < old(cache)[token].expires
      ensures info.Some? ==> info.value == old(cache)[token] && cache == old(cache)
      ensures info.None? ==> cache == old(cache) - {token}
      ensures info == Lookup(old(cache), token, now) && cache == AfterLookup(old(cache), token, now)
    {
      if token !in cache { return None; }
      if now >= cache[token].expires {
        cache := cache - {token};
        return None;
      }
      return Some(cache[token]);
    }

    method Touch(token: string, now: int)
      modifies this
      ensures cache == Touched(old(cache), token, ttl, now)
    {
      if token !in cache { return; }
      cache := cache[token := cache[token].(expires := now + ttl)];
    }

    method Revoke(token: string)
      modifies this, repos`sessions
      ensures cache == old(cache) - {token}
      ensures repos.sessions == DropRows(old(repos.sessions), token)
    {
      cache := cache - {token};
      repos.DeleteSession(token);
    }
  }

  // ---- the table as a map ------------------------------------------

  ghost predicate OneRowEach(rows: seq<SessionRow>) {
    forall i, j :: 0 <= i < j < |rows| ==> rows[i].token != rows[j].token
  }

  function ByToken(rows: seq<SessionRow>): (m: map<string, SessionRow>)
    ensures forall k :: k in m ==> m[k].token == k && m[k] in rows
    ensures forall r :: r in rows ==> r.token in m
  {
    if rows == [] then map[]
    else
      var n := |rows| - 1;
      assert rows == rows[..n] + [rows[n]];
      ByToken(rows[..n])[rows[n].token := rows[n]]
  }

  lemma ByTokenIs(rows: seq<SessionRow>, r: SessionRow)
    requires OneRowEach(rows) && r in rows
    ensures r.token in ByToken(rows) && ByToken(rows)[r.token] == r
  {
    var q := ByToken(rows)[r.token];
    assert q in rows && q.token == r.token;
  }

  lemma {:induction false} PutRowContents(rows: seq<SessionRow>, row: SessionRow)
    requires OneRowEach(rows)
    ensures OneRowEach(PutRow(rows, row))
    ensures forall r :: r in PutRow(rows, row) <==> r == row || (r in rows && r.token != row.token)
  {
    if rows != [] {
      var rest := rows[1..];
      assert rows == [rows[0]] + rest;
      if rows[0].token != row.token {
        PutRowContents(rest, row);
        assert forall r :: r in rest ==> r.token != rows[0].token;
      } else {
        assert forall r :: r in rest ==> r.token != row.token;
      }
    }
  }

  lemma {:induction false} DropRowsContents(rows: seq<SessionRow>, token: string)
    requires OneRowEach(rows)
    ensures OneRowEach(DropRows(rows, token))
    ensures forall r :: r in DropRows(rows, token) <==> r in rows && r.token != token
  {
    if rows != [] {
      var n := |rows| - 1;
      DropRowsContents(rows[..n], token);
      assert rows == rows[..n] + [rows[n]];
      assert forall r :: r in rows[..n] ==> r.token != rows[n].token;
    }
  }

  lemma SameTable(rows: seq<SessionRow>, m: map<string, SessionRow>)
    requires OneRowEach(rows)
    requires forall k :: k in m ==> m[k].token == k
    requires forall r :: r in rows <==> r.token in m && m[r.token] == r
    ensures ByToken(rows) == m
  {
    forall k | k in m ensures k in ByToken(rows) && ByToken(rows)[k] == m[k] {
      assert m[k] in rows;
      ByTokenIs(rows, m[k]);
    }
    forall k | k in ByToken(rows) ensures k in m {
      assert ByToken(rows)[k] in rows;
    }
  }

  /** Inserting overwrites the row of its token, deleting removes it, and both keep one row per token. */
  lemma PutRowIsUpdate(rows: seq<SessionRow>, row: SessionRow)
    requires OneRowEach(rows)
    ensures OneRowEach(PutRow(rows, row)) && ByToken(PutRow(rows, row)) == ByToken(rows)[row.token := row]
  {
    PutRowContents(rows, row);
    var m := ByToken(rows)[row.token := row];
    forall r ensures r in PutRow(rows, row) <==> r.token in m && m[r.token] == r {
      if r in rows { ByTokenIs(rows, r); }
    }
    SameTable(PutRow(rows, row), m);
  }

  lemma DropRowsIsRemoval(rows: seq<SessionRow>, token: string)
    requires OneRowEach(rows)
    ensures OneRowEach(DropRows(rows, token)) && ByToken(DropRows(rows, token)) == ByToken(rows) - {token}
  {
    DropRowsContents(rows, token);
    var m := ByToken(rows) - {token};
    forall r ensures r in DropRows(rows, token) <==> r.token in m && m[r.token] == r {
      if r in rows { ByTokenIs(rows, r); }
    }
    SameTable(DropRows(rows, token), m);
  }

  /** The cache after a restart: the unexpired rows. */
  function Unexpired(rows: map<string, SessionRow>, ttl: int, now: int): Cache {
    map k | k in rows && rows[k].lastActive + ttl > now :: Info(rows[k].user, rows[k].lastActive + ttl)
  }

  lemma UnexpiredUpdate(m: map<string, SessionRow>, row: SessionRow, ttl: int, now: int)
    requires row.token !in m
    ensures Unexpired(m[row.token := row], ttl, now) == WarmRow(Unexpired(m, ttl, now), row, ttl, now)
  {
  }

  lemma NewToken(rows: seq<SessionRow>, n: nat)
    requires OneRowEach(rows) && n < |rows|
    ensures rows[n].token !in ByToken(rows[..n])
  {
    assert forall r :: r in rows[..n] ==> r.token != rows[n].token;
  }

  lemma {:induction false} WarmIsUnexpired(rows: seq<SessionRow>, ttl: int, now: int)
    requires OneRowEach(rows)
    ensures Warmed(map[], rows, ttl, now) == Unexpired(ByToken(rows), ttl, now)
  {
    hide Unexpired, WarmRow;
    if rows == [] {
      assert Unexpired(map[], ttl, now) == map[] by { UnexpiredOfNone(ttl, now); }
    } else {
      var n := |rows| - 1;
      WarmIsUnexpired(rows[..n], ttl, now);
      NewToken(rows, n);
      UnexpiredUpdate(ByToken(rows[..n]), rows[n], ttl, now);
    }
  }

  lemma UnexpiredOfNone(ttl: int, now: int)
    ensures Unexpired(map[], ttl, now) == map[]
  {
  }
}

/**
 * Sessions over every interleaving and any number of restarts. `create` reads the clock, then fills the cache, then
 * writes the table; `revoke` empties the cache, then the table; a restart loses the cache and all running calls and
 * warms a new cache from the table. The ttl stays the same and the clock never goes back.
 */
module SessionRuns {
  import opened Options
  import opened Store
  import opened Sessions

  /** A `create` in progress: before, or after, the entry is in the cache. */
  datatype Creation = Drawn(row: SessionRow) | Cached(row: SessionRow)

  datatype State = State(
    clock: int, cache: Cache, rows: map<string, SessionRow>,
    creating: map<nat, Creation>, revoking: map<nat, string>,
    // histories: whom each token was created for, and the tokens whose `revoke` has returned
    owner: map<string, nat>, revoked: set<string>)

  datatype Event =
    | Tick(ms: nat)
    | CreateDraw(thread: nat, token: string, user: nat)
    | CreateCache(thread: nat)
    | CreateStore(thread: nat)
    | Validate(token: string)
    | Touch(token: string)
    | RevokeCache(thread: nat, token: string)
    | RevokeStore(thread: nat)
    | Restart

  function Init(): State { State(0, map[], map[], map[], map[], map[], {}) }

  /** Tokens are fresh: `CreateDraw` never yields one that was drawn before. */
  function Step(s: State, e: Event, ttl: int): State {
    match e
    case Tick(ms) => s.(clock := s.clock + ms)
    case CreateDraw(t, token, user) =>
      if t in s.creating || token in s.owner then s
      else s.(creating := s.creating[t := Drawn(SessionRow(token, user, s.clock))], owner := s.owner[token := user])
    case CreateCache(t) =>
      if t in s.creating && s.creating[t].Drawn? then
        var row := s.creating[t].row;
        s.(cache := s.cache[row.token := Info(row.user, row.lastActive + ttl)],
           creating := s.creating[t := Cached(row)])
      else s
    case CreateStore(t) =>
      if t in s.creating && s.creating[t].Cached? then
        var row := s.creating[t].row;
        s.(rows := s.rows[row.token := row], creating := s.creating - {t})
      else s
    case Validate(token) => s.(cache := AfterLookup(s.cache, token, s.clock))
    case Touch(token) => s.(cache := Touched(s.cache, token, ttl, s.clock))
    case RevokeCache(t, token) =>
      if t in s.revoking then s else s.(cache := s.cache - {token}, revoking := s.revoking[t := token])
    case RevokeStore(t) =>
      if t in s.revoking then
        s.(rows := s.rows - {s.revoking[t]}, revoking := s.revoking - {t}, revoked := s.revoked + {s.revoking[t]})
      else s
    case Restart => s.(cache := Unexpired(s.rows, ttl, s.clock), creating := map[], revoking := map[])
  }

  function Run(es: seq<Event>, ttl: int): State {
    if es == [] then Init() else Step(Run(es[..|es| - 1], ttl), es[|es| - 1], ttl)
  }

  ghost predicate BeingCreated(s: State, token: string) {
    exists t :: t in s.creating && s.creating[t].row.token == token
  }

  ghost predicate BeingRevoked(s: State, token: string) {
    exists t :: t in s.revoking && s.revoking[t] == token
  }

  /** The token's row is there and has not expired. */
  predicate RowIsLive(s: State, token: string, ttl: int) {
    token in s.rows && s.rows[token].lastActive + ttl > s.clock
  }

  /** Nobody knows a token, to revoke it, before the `create` that drew it has returned it. */
  ghost predicate Issued(s: State, token: string) {
    token in s.owner && !BeingCreated(s, token)
  }

  ghost predicate Disciplined(es: seq<Event>, ttl: int) {
    forall i :: 0 <= i < |es| && es[i].RevokeCache? ==> Issued(Run(es[..i], ttl), es[i].token)
  }

  /** Entries, rows and creations all belong to the user the token was drawn for, at a time that has passed. */
  ghost predicate Owned(s: State) {
    && (forall k :: k in s.cache ==> k in s.owner && s.cache[k].user == s.owner[k])
    && (forall k :: k in s.rows ==>
          k in s.owner && s.rows[k].token == k && s.rows[k].user == s.owner[k] && s.rows[k].lastActive <= s.clock)
    && (forall t :: t in s.creating ==>
          var row := s.creating[t].row;
          row.token in s.owner && row.user == s.owner[row.token] && row.lastActive <= s.clock)
  }

  /** A row is no fresher than its cache entry; without an entry it is expired or about to go. */
  ghost predicate Behind(s: State, row: SessionRow, ttl: int) {
    || (row.token in s.cache && s.cache[row.token].expires >= row.lastActive + ttl)
    || row.lastActive + ttl <= s.clock
  }

  ghost predicate RowsBehind(s: State, ttl: int) {
    && (forall k :: k in s.rows ==> Behind(s, s.rows[k], ttl) || BeingRevoked(s, k))
    && (forall t :: t in s.creating && s.creating[t].Cached? ==> Behind(s, s.creating[t].row, ttl))
  }

  /** A token whose revocation is under way has left the cache, and a revoked one is nowhere. */
  ghost predicate Gone(s: State) {
    && (forall t :: t in s.revoking ==> Issued(s, s.revoking[t]) && s.revoking[t] !in s.cache)
    && (forall k :: k in s.revoked ==> Issued(s, k) && k !in s.cache && k !in s.rows)
  }

  ghost predicate CreationsApart(s: State) {
    && (forall t :: t in s.creating ==> s.creating[t].row.token !in s.rows)
    && (forall t, t' :: t in s.creating && t' in s.creating && t != t' ==>
          s.creating[t].row.token != s.creating[t'].row.token)
  }

  ghost predicate Inv(s: State, ttl: int) {
    Owned(s) && RowsBehind(s, ttl) && Gone(s) && CreationsApart(s)
  }

  lemma OwnedStep(s: State, e: Event, ttl: int)
    requires Owned(s)
    ensures Owned(Step(s, e, ttl))
  {
  }

  lemma ApartStep(s: State, e: Event, ttl: int)
    requires Owned(s) && CreationsApart(s)
    ensures CreationsApart(Step(s, e, ttl))
  {
  }

  /** Rows that a step leaves in place stay behind their entries. */
  lemma RowStaysBehind(s: State, e: Event, ttl: int, row: SessionRow)
    requires Behind(s, row, ttl) && row.lastActive <= s.clock
    requires e.CreateCache? && e.thread in s.creating ==> s.creating[e.thread].row.token != row.token
    requires !e.Restart? && (e.RevokeCache? ==> e.token != row.token)
    ensures Behind(Step(s, e, ttl), row, ttl)
  {
  }

  lemma BehindStep(s: State, e: Event, ttl: int)
    requires Inv(s, ttl) && (e.RevokeCache? ==> Issued(s, e.token))
    ensures RowsBehind(Step(s, e, ttl), ttl)
  {
    hide Behind;
    var s' := Step(s, e, ttl);
    if !e.Restart? {
      forall k | k in s'.rows ensures Behind(s', s'.rows[k], ttl) || BeingRevoked(s', k) {
        RowStep(s, e, ttl, k);
      }
      forall t | t in s'.creating && s'.creating[t].Cached? ensures Behind(s', s'.creating[t].row, ttl) {
        CreationStep(s, e, ttl, t);
      }
    } else {
      forall k | k in s'.rows ensures Behind(s', s'.rows[k], ttl) { RestartedRow(s, ttl, k); }
    }
  }

  lemma RestartedRow(s: State, ttl: int, k: string)
    requires Owned(s) && k in s.rows
    ensures Behind(Step(s, Restart, ttl), s.rows[k], ttl)
  {
  }

  /** A row whose revocation is under way stays in that state until it goes. */
  lemma RevokedRowStep(s: State, e: Event, ttl: int, k: string)
    requires BeingRevoked(s, k) && !e.Restart? && k in Step(s, e, ttl).rows
    ensures BeingRevoked(Step(s, e, ttl), k)
  {
    var s' := Step(s, e, ttl);
    var t :| t in s.revoking && s.revoking[t] == k;
    if t in s'.revoking { assert s'.revoking[t] == k; }
  }

  lemma RowStep(s: State, e: Event, ttl: int, k: string)
    requires Inv(s, ttl) && (e.RevokeCache? ==> Issued(s, e.token)) && !e.Restart?
    requires k in Step(s, e, ttl).rows
    ensures Behind(Step(s, e, ttl), Step(s, e, ttl).rows[k], ttl) || BeingRevoked(Step(s, e, ttl), k)
  {
    hide Behind, Gone;
    var s' := Step(s, e, ttl);
    if e.RevokeCache? && e.token == k {
      RevokedNow(s, e, ttl);
    } else if BeingRevoked(s, k) {
      RevokedRowStep(s, e, ttl, k);
    } else {
      hide BeingRevoked;
      if k in s.rows {
        RowStaysBehind(s, e, ttl, s.rows[k]);
      } else {
        RowStaysBehind(s, e, ttl, s.creating[e.thread].row);
      }
    }
  }

  lemma RevokedNow(s: State, e: Event, ttl: int)
    requires e.RevokeCache?
    ensures e.thread !in s.revoking ==> BeingRevoked(Step(s, e, ttl), e.token)
  {
    var s' := Step(s, e, ttl);
    if e.thread !in s.revoking { assert s'.revoking[e.thread] == e.token; }
  }

  lemma CreationStep(s: State, e: Event, ttl: int, t: nat)
    requires Inv(s, ttl) && (e.RevokeCache? ==> Issued(s, e.token)) && !e.Restart?
    requires t in Step(s, e, ttl).creating && Step(s, e, ttl).creating[t].Cached?
    ensures Behind(Step(s, e, ttl), Step(s, e, ttl).creating[t].row, ttl)
  {
    if e == CreateCache(t) && s.creating[t].Drawn? {
    } else if e.CreateCache? && e.thread == t {
    } else {
      RowStaysBehind(s, e, ttl, s.creating[t].row);
    }
  }

  lemma RevokingStep(s: State, e: Event, ttl: int, t: nat)
    requires Gone(s) && (e.RevokeCache? ==> Issued(s, e.token)) && t in Step(s, e, ttl).revoking
    ensures var s' := Step(s, e, ttl); Issued(s', s'.revoking[t]) && s'.revoking[t] !in s'.cache
  {
    hide BeingCreated;
    NotDrawnAgain(s, e, ttl, Step(s, e, ttl).revoking[t]);
    if t in s.revoking { OutOfCache(s, e, ttl, s.revoking[t]); }
  }

  lemma RevokedStep(s: State, e: Event, ttl: int, k: string)
    requires Gone(s) && k in Step(s, e, ttl).revoked
    ensures var s' := Step(s, e, ttl); Issued(s', k) && k !in s'.cache && k !in s'.rows
  {
    hide BeingCreated;
    NotDrawnAgain(s, e, ttl, k);
    OutOfCache(s, e, ttl, k);
  }

  lemma GoneStep(s: State, e: Event, ttl: int)
    requires Gone(s) && (e.RevokeCache? ==> Issued(s, e.token))
    ensures Gone(Step(s, e, ttl))
  {
    var s' := Step(s, e, ttl);
    hide Step, Issued;
    forall t | t in s'.revoking ensures Issued(s', s'.revoking[t]) && s'.revoking[t] !in s'.cache {
      RevokingStep(s, e, ttl, t);
    }
    forall k | k in s'.revoked ensures Issued(s', k) && k !in s'.cache && k !in s'.rows { RevokedStep(s, e, ttl, k); }
  }

  /** A token that nobody is creating does not come back into cache or table by itself. */
  lemma OutOfCache(s: State, e: Event, ttl: int, k: string)
    requires Issued(s, k) && k !in s.cache
    ensures !e.Restart? ==> k !in Step(s, e, ttl).cache
    ensures k !in s.rows ==> k !in Step(s, e, ttl).rows && k !in Step(s, e, ttl).cache
  {
  }

  /** A token that was drawn is not drawn again. */
  lemma NotDrawnAgain(s: State, e: Event, ttl: int, k: string)
    requires k in s.owner
    ensures k in Step(s, e, ttl).owner && (BeingCreated(Step(s, e, ttl), k) ==> BeingCreated(s, k))
  {
    var s' := Step(s, e, ttl);
    if t :| t in s'.creating && s'.creating[t].row.token == k {
      assert t in s.creating && s.creating[t].row.token == k;
    }
  }

  lemma {:induction false} RunKeeps(es: seq<Event>, ttl: int)
    requires Disciplined(es, ttl)
    ensures Inv(Run(es, ttl), ttl)
  {
    if es != [] {
      var n := |es| - 1;
      forall i | 0 <= i < n && es[..n][i].RevokeCache? ensures Issued(Run(es[..n][..i], ttl), es[..n][i].token) {
        assert es[..n][..i] == es[..i];
      }
      RunKeeps(es[..n], ttl);
      var s := Run(es[..n], ttl);
      OwnedStep(s, es[n], ttl);
      ApartStep(s, es[n], ttl);
      BehindStep(s, es[n], ttl);
      GoneStep(s, es[n], ttl);
    }
  }

  /** A token validates only for the user it was created for, and never once its revocation has returned. */
  lemma ValidationIsSound(es: seq<Event>, ttl: int, token: string)
    requires Disciplined(es, ttl)
    ensures var s := Run(es, ttl);
            var info := Lookup(s.cache, token, s.clock);
            && (info.Some? ==> token in s.owner && info.value.user == s.owner[token])
            && (token in s.revoked ==> info == None)
  {
    RunKeeps(es, ttl);
  }

  /**
   * A restart accepts the tokens whose row has not expired, for the same user as before. It accepts one that was not
   * accepted just before it exactly if it has cut short the revocation of a token with such a row.
   */
  lemma RestartAcceptsNoMore(es: seq<Event>, ttl: int, token: string)
    requires Disciplined(es, ttl)
    ensures var s := Run(es, ttl);
            var s' := Step(s, Restart, ttl);
            var before, after := Lookup(s.cache, token, s.clock), Lookup(s'.cache, token, s'.clock);
            && (after.Some? && before.Some? ==> before.value.user == after.value.user)
            && (after.Some? && before.None? <==> BeingRevoked(s, token) && RowIsLive(s, token, ttl))
            && (after.Some? <==> RowIsLive(s, token, ttl))
  {
    hide Run;
    RunKeeps(es, ttl);
    RestartOf(Run(es, ttl), ttl, token);
  }

  lemma RestartOf(s: State, ttl: int, token: string)
    requires Inv(s, ttl)
    ensures var s' := Step(s, Restart, ttl);
            var before, after := Lookup(s.cache, token, s.clock), Lookup(s'.cache, token, s'.clock);
            && (after.Some? && before.Some? ==> before.value.user == after.value.user)
            && (after.Some? && before.None? <==> BeingRevoked(s, token) && RowIsLive(s, token, ttl))
            && (after.Some? <==> RowIsLive(s, token, ttl))
  {
  }

  lemma RunSnoc(es: seq<Event>, e: Event, ttl: int)
    ensures Run(es + [e], ttl) == Step(Run(es, ttl), e, ttl)
  {
    assert (es + [e])[..|es|] == es;
  }

  function Drawing(row: SessionRow): State {
    State(0, map[], map[], map[0 := Drawn(row)], map[], map[row.token := row.user], {})
  }

  function Filling(row: SessionRow, ttl: int): State {
    Drawing(row).(cache := map[row.token := Info(row.user, row.lastActive + ttl)], creating := map[0 := Cached(row)])
  }

  function Done(row: SessionRow, ttl: int): State {
    Filling(row, ttl).(rows := map[row.token := row], creating := map[])
  }

  lemma CreationSteps(row: SessionRow, ttl: int)
    requires row.lastActive == 0
    ensures Step(Init(), CreateDraw(0, row.token, row.user), ttl) == Drawing(row)
    ensures Step(Drawing(row), CreateCache(0), ttl) == Filling(row, ttl)
  {
  }

  lemma CreationStored(row: SessionRow, ttl: int)
    ensures Step(Filling(row, ttl), CreateStore(0), ttl) == Done(row, ttl)
  {
    assert Filling(row, ttl).creating - {0} == map[];
  }

  /** One session, and nothing else going on. */
  lemma SomeRunCreates(token: string, user: nat, ttl: int) returns (es: seq<Event>)
    ensures Run(es, ttl) == Done(SessionRow(token, user, 0), ttl)
    ensures forall i :: 0 <= i < |es| ==> !es[i].RevokeCache?
  {
    var row := SessionRow(token, user, 0);
    assert Run([], ttl) == Init();
    hide Run, Step, Drawing, Filling, Done;
    CreationSteps(row, ttl);
    CreationStored(row, ttl);
    RunSnoc([], CreateDraw(0, token, user), ttl);
    es := [] + [CreateDraw(0, token, user)];
    RunSnoc(es, CreateCache(0), ttl);
    es := es + [CreateCache(0)];
    RunSnoc(es, CreateStore(0), ttl);
    es := es + [CreateStore(0)];
  }

  /** For every token and user: a restart between the two halves of a revocation brings the token back. */
  lemma RestartCanRevive(token: string, user: nat, ttl: int) returns (es: seq<Event>)
    requires ttl > 0
    ensures Disciplined(es, ttl)
    ensures var s := Run(es, ttl);
            var s' := Step(s, Restart, ttl);
            Lookup(s.cache, token, s.clock) == None && Lookup(s'.cache, token, s'.clock) == Some(Info(user, ttl))
  {
    hide Run;
    var made := SomeRunCreates(token, user, ttl);
    assert Issued(Run(made, ttl), token);
    es := made + [RevokeCache(1, token)];
    RunSnoc(made, RevokeCache(1, token), ttl);
    assert es[..|made|] == made;
  }

  // ---- expiry ------------------------------------------------------

  /** Nothing in the state lets the token live longer than `limit`. */
  ghost predicate Fades(s: State, token: string, ttl: int, limit: int) {
    && (token in s.cache ==> s.cache[token].expires <= limit)
    && (token in s.rows ==> s.rows[token].lastActive + ttl <= limit)
    && (forall t :: t in s.creating && s.creating[t].Cached? && s.creating[t].row.token == token ==>
          s.creating[t].row.lastActive + ttl <= limit)
  }

  /** The step is a use of the token: it enters the cache or is touched. */
  ghost predicate Uses(s: State, e: Event, token: string) {
    || e == Touch(token)
    || (e.CreateCache? && e.thread in s.creating && s.creating[e.thread].row.token == token)
  }

  /** No entry outlives the clock by more than the ttl. */
  ghost predicate WithinTtl(s: State, ttl: int) {
    && (forall k :: k in s.cache ==> s.cache[k].expires <= s.clock + ttl)
  }

  lemma WithinTtlStep(s: State, e: Event, ttl: int)
    requires Owned(s) && WithinTtl(s, ttl)
    ensures WithinTtl(Step(s, e, ttl), ttl)
  {
  }

  lemma {:induction false} RunsWithinTtl(es: seq<Event>, ttl: int)
    ensures Owned(Run(es, ttl)) && WithinTtl(Run(es, ttl), ttl)
  {
    if es != [] {
      var before := es[..|es| - 1];
      RunsWithinTtl(before, ttl);
      hide Step, Owned, WithinTtl;
      OwnedStep(Run(before, ttl), es[|es| - 1], ttl);
      WithinTtlStep(Run(before, ttl), es[|es| - 1], ttl);
    }
  }

  lemma FadesNow(s: State, token: string, ttl: int)
    requires Owned(s) && WithinTtl(s, ttl)
    ensures Fades(s, token, ttl, s.clock + ttl)
  {
  }

  lemma FadesStep(s: State, e: Event, token: string, ttl: int, limit: int)
    requires Owned(s) && Fades(s, token, ttl, limit) && !Uses(s, e, token)
    ensures Fades(Step(s, e, ttl), token, ttl, limit)
  {
  }

  /** A run goes on from a state. */
  function From(s: State, more: seq<Event>, ttl: int): State {
    if more == [] then s else Step(From(s, more[..|more| - 1], ttl), more[|more| - 1], ttl)
  }

  lemma {:induction false} RunGoesOn(es: seq<Event>, more: seq<Event>, ttl: int)
    ensures Run(es + more, ttl) == From(Run(es, ttl), more, ttl)
  {
    if more == [] {
      assert es + more == es;
    } else {
      var n := |more| - 1;
      RunGoesOn(es, more[..n], ttl);
      assert es + more == (es + more[..n]) + [more[n]];
      hide Step;
      RunSnoc(es + more[..n], more[n], ttl);
    }
  }

  ghost predicate Unused(s: State, more: seq<Event>, token: string, ttl: int) {
    forall i :: 0 <= i < |more| ==> !Uses(From(s, more[..i], ttl), more[i], token)
  }

  lemma UnusedParts(s: State, more: seq<Event>, token: string, ttl: int)
    requires more != [] && Unused(s, more, token, ttl)
    ensures var n := |more| - 1; Unused(s, more[..n], token, ttl) && !Uses(From(s, more[..n], ttl), more[n], token)
  {
    hide From, Uses;
    assert forall i :: 0 <= i <= |more| - 1 ==> more[..|more| - 1][..i] == more[..i];
  }

  lemma {:induction false} FadesFrom(s: State, more: seq<Event>, token: string, ttl: int)
    requires Owned(s) && WithinTtl(s, ttl) && Unused(s, more, token, ttl)
    ensures Owned(From(s, more, ttl)) && Fades(From(s, more, ttl), token, ttl, s.clock + ttl)
  {
    if more == [] {
      FadesNow(s, token, ttl);
    } else {
      hide Step, Owned, Fades, Uses, Unused, WithinTtl;
      var before, e := more[..|more| - 1], more[|more| - 1];
      UnusedParts(s, more, token, ttl);
      FadesFrom(s, before, token, ttl);
      OwnedStep(From(s, before, ttl), e, ttl);
      FadesStep(From(s, before, ttl), e, token, ttl, s.clock + ttl);
    }
  }

  /**
   * Sessions expire: once the clock has moved on by the ttl and the token was neither created nor touched meanwhile,
   * it does not validate, whatever else happened, restarts included.
   */
  lemma SessionExpires(es: seq<Event>, more: seq<Event>, token: string, ttl: int)
    requires Unused(Run(es, ttl), more, token, ttl)
    requires Run(es + more, ttl).clock >= Run(es, ttl).clock + ttl
    ensures var s := Run(es + more, ttl); Lookup(s.cache, token, s.clock) == None
  {
    hide Run, From, Unused, Owned, WithinTtl;
    RunsWithinTtl(es, ttl);
    RunGoesOn(es, more, ttl);
    FadesFrom(Run(es, ttl), more, token, ttl);
  }

  /** The token stays what it is: no use, no revocation, no restart. */
  ghost predicate Disturbs(s: State, e: Event, token: string) {
    Uses(s, e, token) || (e.RevokeCache? && e.token == token) || e.Restart?
  }

  ghost predicate LeftAlone(s: State, more: seq<Event>, token: string, ttl: int) {
    forall i :: 0 <= i < |more| ==> !Disturbs(From(s, more[..i], ttl), more[i], token)
  }

  lemma LeftAloneParts(s: State, more: seq<Event>, token: string, ttl: int)
    requires more != [] && LeftAlone(s, more, token, ttl)
    ensures var n := |more| - 1;
            LeftAlone(s, more[..n], token, ttl) && !Disturbs(From(s, more[..n], ttl), more[n], token)
  {
    hide From, Disturbs;
    assert forall i :: 0 <= i <= |more| - 1 ==> more[..|more| - 1][..i] == more[..i];
  }

  /** The entry is the same until it expires, and then it is the same or gone. */
  ghost predicate EntryKept(s: State, s': State, token: string) {
    && s'.clock >= s.clock && token in s.cache
    && (token in s'.cache ==> s'.cache[token] == s.cache[token])
    && (s'.clock < s.cache[token].expires ==> token in s'.cache)
  }

  lemma EntryKeptStep(s: State, t: State, e: Event, token: string, ttl: int)
    requires EntryKept(s, t, token) && !Disturbs(t, e, token)
    ensures EntryKept(s, Step(t, e, ttl), token)
  {
  }

  lemma {:induction false} EntryStays(s: State, more: seq<Event>, token: string, ttl: int)
    requires token in s.cache && LeftAlone(s, more, token, ttl)
    ensures EntryKept(s, From(s, more, ttl), token)
  {
    if more != [] {
      hide Step, EntryKept, Disturbs, LeftAlone;
      LeftAloneParts(s, more, token, ttl);
      EntryStays(s, more[..|more| - 1], token, ttl);
      EntryKeptStep(s, From(s, more[..|more| - 1], ttl), more[|more| - 1], token, ttl);
    }
  }

  /** When the token was last used: at the touch, or when `create` read the clock. */
  ghost function UsedAt(s: State, e: Event, token: string): int
    requires Uses(s, e, token)
  {
    if e.Touch? then s.clock else s.creating[e.thread].row.lastActive
  }

  lemma UseSets(s: State, e: Event, token: string, ttl: int)
    requires Uses(s, e, token) && (if e.Touch? then token in s.cache else s.creating[e.thread].Drawn?)
    ensures var s' := Step(s, e, ttl); token in s'.cache && s'.cache[token].expires == UsedAt(s, e, token) + ttl
  {
  }

  /**
   * From a use on, and left alone, a token validates exactly while less than the ttl has passed since the use, and then
   * for the user it was created for.
   */
  lemma ValidUntilTtl(es: seq<Event>, e: Event, more: seq<Event>, token: string, ttl: int)
    requires var s := Run(es, ttl);
             && Uses(s, e, token) && (if e.Touch? then token in s.cache else s.creating[e.thread].Drawn?)
             && LeftAlone(Step(s, e, ttl), more, token, ttl)
    ensures var s, s' := Run(es, ttl), Run(es + [e] + more, ttl);
            var found := Lookup(s'.cache, token, s'.clock);
            && (found.Some? <==> s'.clock < UsedAt(s, e, token) + ttl)
            && (found.Some? ==> token in s'.owner && found.value.user == s'.owner[token])
  {
    var s := Run(es, ttl);
    RunSnoc(es, e, ttl);
    RunGoesOn(es + [e], more, ttl);
    RunsWithinTtl(es + [e] + more, ttl);
    hide Run, Step, From, Uses, LeftAlone, UsedAt;
    UseSets(s, e, token, ttl);
    EntryStays(Step(s, e, ttl), more, token, ttl);
  }
}
