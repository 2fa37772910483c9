/**
 Runs of two processes, built step by step: the material of which the counterexamples and the
 tightness results are made. Every piece also keeps to bounds on the delays, if any are given.
 */
module TokenRuns {
  import opened Common
  import opened TokenProtocol
  import opened TokenInvariant
  import opened TokenSafety
  import opened TokenSoundness

  // Some schedule leads here; if bounds are given, one that keeps to them.
  ghost predicate Reached(s: State, b: Option<Bounds>) {
    if b.None? then Reachable(s) else TimelyReachable(s, b.value)
  }

  // The steps that bounds are about.
  predicate Timed(st: Step) { st.AuthorizeReply? || st.IntrospectReply? || st.PutToken? || st.Adopt? || st.Finish? }

  ghost predicate Keeps(s: State, st: Step, b: Option<Bounds>) { b.Some? ==> Timely(s, st, b.value) }

  lemma ReachNext(s: State, st: Step, b: Option<Bounds>)
    requires Reached(s, b) && (Timed(st) ==> Keeps(s, st, b))
    ensures Reached(Next(s, st), b)
  {
    if b.None? {
      var s0, steps :| Init(s0) && Exec(s0, steps) == s;
      ExecMore(s0, steps, st);
      assert Exec(s0, steps + [st]) == Next(s, st);
    } else {
      var s0, steps :| Init(s0) && TimelyRun(s0, steps, b.value) && Exec(s0, steps) == s;
      ExecMore(s0, steps, st);
      assert TimelyRun(s0, steps + [st], b.value);
      assert Exec(s0, steps + [st]) == Next(s, st);
    }
  }

  lemma ExecMore(s0: State, steps: seq<Step>, st: Step)
    ensures (steps + [st])[..|steps + [st]| - 1] == steps && (steps + [st])[|steps + [st]| - 1] == st
    ensures Exec(s0, steps + [st]) == Next(Exec(s0, steps), st)
  {
    assert (steps + [st])[..|steps + [st]| - 1] == steps;
  }

  lemma ReachInit(s: State, b: Option<Bounds>)
    requires Init(s)
    ensures Reached(s, b)
  {
    assert Exec(s, []) == s && (b.Some? ==> TimelyRun(s, [], b.value));
  }

  // Two processes with one coroutine each, nothing cached anywhere.
  function Start(margin: int): State {
    State(margin, 0, [0, 1], [NewClient, NewClient], [Idle, Idle], None, None, 0)
  }

  // Process and coroutine p of such a system.
  predicate Two(s: State) { s.owner == [0, 1] && |s.clients| == 2 && |s.calls| == 2 }

  function With(s: State, p: nat, call: Call, cl: Client): State
    requires Two(s) && p < 2
  {
    s.(calls := s.calls[p := call], clients := s.clients[p := cl])
  }

  // One step of coroutine p, with its effect spelled out.
  lemma Go(s: State, st: Step, p: nat, pair: Pair, b: Option<Bounds>) returns (t: State)
    requires Reached(s, b) && Two(s) && p < 2 && Actor(st) == Some(p) && Enabled(s, st)
    requires Timed(st) ==> Keeps(s, st, b)
    requires !st.PutToken? && !st.PutCookies? && !st.BeginLogin?
    requires Local(s, st) == pair
    ensures Reached(t, b) && t == With(s, p, pair.call, pair.cl)
  {
    hide Reached, Keeps;
    t := Next(s, st);
    ReachNext(s, st, b);
  }

  lemma Wait(s: State, dt: nat, b: Option<Bounds>) returns (t: State)
    requires Reached(s, b)
    ensures Reached(t, b) && t == s.(now := s.now + dt)
  {
    hide Reached, Keeps;
    t := Next(s, Tick(dt));
    ReachNext(s, Tick(dt), b);
  }

  lemma Put(s: State, p: nat, r: Refresh, b: Option<Bounds>) returns (t: State)
    requires Reached(s, b) && Two(s) && p < 2 && s.calls[p] == PuttingToken(r)
    requires b.Some? ==> s.now - r.cachedAt <= b.value.write && !s.calls[1 - p].GotToken?
    ensures Reached(t, b)
    ensures t == With(s, p, PuttingCookies(r), s.clients[p]).(tokenKey := Written(r, s.margin, s.now))
  {
    hide Reached;
    t := Next(s, PutToken(p));
    ReachNext(s, PutToken(p), b);
  }

  lemma PutJar(s: State, p: nat, r: Refresh, b: Option<Bounds>) returns (t: State)
    requires Reached(s, b) && Two(s) && p < 2 && s.calls[p] == PuttingCookies(r)
    ensures Reached(t, b)
    ensures t == With(s, p, Published(r), s.clients[p]).(cookieKey := Written(r, s.margin, s.now))
  {
    hide Reached;
    t := Next(s, PutCookies(p));
    ReachNext(s, PutCookies(p), b);
  }

  // A call that finds nothing usable in the process or in Redis.
  lemma Miss(s: State, p: nat, b: Option<Bounds>) returns (t: State)
    requires Reached(s, b) && Two(s) && p < 2 && s.calls[p] == Idle && s.clients[p].lock == None
    requires !Fresh(s.clients[p], s.now) && !Live(s.tokenKey, s.now)
    ensures Reached(t, b)
    ensures t == With(s, p, Missed(s.tokenKey, s.now), s.clients[p].(lock := Some(p)))
  {
    hide Reached;
    var cl := s.clients[p].(lock := Some(p));
    t := Go(s, Enter(p), p, Pair(Waiting, s.clients[p]), b);
    t := Go(t, Acquire(p), p, Pair(Reading, cl), b);
    t := Go(t, GetToken(p), p, Pair(Missed(s.tokenKey, s.now), cl), b);
  }

  lemma Begin(s: State, p: nat, b: Option<Bounds>) returns (t: State)
    requires Reached(s, b) && Two(s) && p < 2 && s.calls[p].Missed?
    ensures Reached(t, b)
    ensures t == With(s, p, LoggingIn(s.logins), s.clients[p].(jar := map[])).(logins := s.logins + 1)
  {
    hide Reached;
    t := Next(s, BeginLogin(p));
    ReachNext(s, BeginLogin(p), b);
  }

  // It then logs in, starting from an empty jar.
  lemma StartLogin(s: State, p: nat, b: Option<Bounds>) returns (t: State)
    requires Reached(s, b) && Two(s) && p < 2 && s.calls[p] == Idle && s.clients[p].lock == None
    requires !Fresh(s.clients[p], s.now) && !Live(s.tokenKey, s.now)
    ensures Reached(t, b)
    ensures t == With(s, p, LoggingIn(s.logins), s.clients[p].(jar := map[], lock := Some(p))).(logins := s.logins + 1)
  {
    hide Reached;
    t := Miss(s, p, b);
    t := Begin(t, p, b);
  }

  // An unrelated reply sets a cookie in the jar of process p.
  lemma StrayRun(s: State, p: nat, name: string, b: Option<Bounds>) returns (t: State)
    requires Reached(s, b) && Two(s) && p < 2
    ensures Reached(t, b)
    ensures t == With(s, p, s.calls[p], s.clients[p].(jar := Merge(s.clients[p].jar, {name}, Stray)))
  {
    hide Reached;
    t := Next(s, StrayCookie(p, name));
    ReachNext(s, StrayCookie(p, name), b);
  }

  // OpenIAM mints a token,
  lemma MintRun(s: State, p: nat, login: nat, goodUntil: int, b: Option<Bounds>) returns (t: State)
    requires Reached(s, b) && Two(s) && p < 2 && s.calls[p] == LoggingIn(login)
    ensures Reached(t, b) && t == With(s, p, Minted(Token(login, s.now, goodUntil)), s.clients[p])
  {
    hide Reached;
    var cl := s.clients[p];
    assert Merge(cl.jar, {}, Session(login)) == cl.jar;
    t := Go(s, LoginReply(p, {}), p, Pair(Authorizing(login), cl), b);
    t := Go(t, Mint(p, goodUntil), p, Pair(Minted(Token(login, s.now, goodUntil)), cl), b);
  }

  // and the client caches it when the reply arrives.
  lemma CacheRun(s: State, p: nat, token: Token, lifetime: int, b: Option<Bounds>) returns (t: State)
    requires Reached(s, b) && Two(s) && p < 2 && s.calls[p] == Minted(token)
    requires b.Some? ==> CachesTimely(s, token, lifetime, b.value)
    ensures Reached(t, b)
    ensures var r := Refresh(token, lifetime, s.now, s.clients[p].jar);
            t == With(s, p, PuttingToken(r), Cached(s.clients[p], r, s.margin))
  {
    hide Reached, CachesTimely;
    var cl := s.clients[p];
    assert Merge(cl.jar, {}, Session(token.login)) == cl.jar;
    var r := Refresh(token, lifetime, s.now, cl.jar);
    t := Go(s, AuthorizeReply(p, Some(lifetime), {}), p, Pair(PuttingToken(r), Cached(cl, r, s.margin)), b);
  }

  // The delays and lifetimes of a login, as the bounds want them.
  predicate LoginKeeps(issuedAt: int, delay: nat, lifetime: int, goodUntil: int, margin: int, b: Option<Bounds>) {
    b.Some? ==> lifetime > margin && issuedAt + SECOND * lifetime <= goodUntil && delay <= b.value.issue
  }

  // The token is cached `delay` milliseconds after it was minted.
  lemma EndLogin(s: State, p: nat, login: nat, delay: nat, lifetime: int, goodUntil: int, b: Option<Bounds>)
    returns (t: State)
    requires Reached(s, b) && Two(s) && p < 2 && s.calls[p] == LoggingIn(login)
    requires LoginKeeps(s.now, delay, lifetime, goodUntil, s.margin, b)
    ensures Reached(t, b)
    ensures var r := Refresh(Token(login, s.now, goodUntil), lifetime, s.now + delay, s.clients[p].jar);
            t == With(s, p, PuttingToken(r), Cached(s.clients[p], r, s.margin)).(now := s.now + delay)
  {
    hide Reached;
    t := MintRun(s, p, login, goodUntil, b);
    t := Wait(t, delay, b);
    t := CacheRun(t, p, Token(login, s.now, goodUntil), lifetime, b);
  }

  lemma LoginRun(s: State, p: nat, delay: nat, lifetime: int, goodUntil: int, b: Option<Bounds>) returns (t: State)
    requires Reached(s, b) && Two(s) && p < 2 && s.calls[p] == Idle && s.clients[p].lock == None
    requires !Fresh(s.clients[p], s.now) && !Live(s.tokenKey, s.now)
    requires LoginKeeps(s.now, delay, lifetime, goodUntil, s.margin, b)
    ensures Reached(t, b)
    ensures var r := Refresh(Token(s.logins, s.now, goodUntil), lifetime, s.now + delay, map[]);
            t == With(s, p, PuttingToken(r), Cached(s.clients[p].(jar := map[], lock := Some(p)), r, s.margin))
                   .(now := s.now + delay, logins := s.logins + 1)
  {
    hide Reached, LoginKeeps;
    t := StartLogin(s, p, b);
    t := EndLogin(t, p, s.logins, delay, lifetime, goodUntil, b);
  }

  // The same coroutine writes both keys and returns `publish` milliseconds later,
  lemma ReturnRun(s: State, p: nat, r: Refresh, publish: nat, b: Option<Bounds>) returns (t: State)
    requires Reached(s, b) && Two(s) && p < 2 && s.calls[p] == PuttingToken(r) && s.clients[p].token == Some(r.token)
    requires s.now == r.cachedAt && (b.Some? ==> publish <= b.value.publish && !s.calls[1 - p].GotToken?)
    ensures Reached(t, b)
    ensures t == With(s, p, Returned(r.token, s.now + publish, s.clients[p].source, false), s.clients[p].(lock := None))
                   .(tokenKey := Written(r, s.margin, s.now), cookieKey := Written(r, s.margin, s.now),
                     now := s.now + publish)
  {
    hide Reached;
    var cl := s.clients[p];
    t := Put(s, p, r, b);
    t := PutJar(t, p, r, b);
    t := Wait(t, publish, b);
    t := Go(t, Finish(p), p, Pair(Returned(r.token, s.now + publish, cl.source, false), cl.(lock := None)), b);
  }

  // then is ready for a new call.
  lemma PublishRun(s: State, p: nat, r: Refresh, b: Option<Bounds>) returns (t: State)
    requires Reached(s, b) && Two(s) && p < 2 && s.calls[p] == PuttingToken(r) && s.clients[p].token == Some(r.token)
    requires s.now == r.cachedAt && (b.Some? ==> !s.calls[1 - p].GotToken?)
    ensures Reached(t, b)
    ensures t == With(s, p, Idle, s.clients[p].(lock := None))
                   .(tokenKey := Written(r, s.margin, s.now), cookieKey := Written(r, s.margin, s.now))
  {
    hide Reached;
    t := ReturnRun(s, p, r, 0, b);
    t := Go(t, Again(p), p, Pair(Idle, s.clients[p].(lock := None)), b);
  }

  // An exception under the lock, at any await of a login.
  lemma FailRun(s: State, p: nat, b: Option<Bounds>) returns (t: State)
    requires Reached(s, b) && Two(s) && p < 2 && Holding(s.calls[p])
    ensures Reached(t, b) && t == With(s, p, Raised, s.clients[p].(lock := None))
  {
    hide Reached;
    t := Go(s, Fail(p), p, Pair(Raised, s.clients[p].(lock := None)), b);
  }

  /* ----- a reading process ----- */

  // Process 1, never used before, finds a token in Redis.
  lemma ReadFirst(s: State, got: Entry, b: Option<Bounds>) returns (t: State)
    requires Reached(s, b) && Two(s) && s.calls[1] == Idle && s.clients[1] == NewClient
    requires s.tokenKey == Some(got) && Live(s.tokenKey, s.now)
    ensures Reached(t, b) && t == With(s, 1, GotToken(got), NewClient.(lock := Some(1)))
  {
    hide Reached;
    var cl := NewClient.(lock := Some(1));
    t := Go(s, Enter(1), 1, Pair(Waiting, NewClient), b);
    t := Go(t, Acquire(1), 1, Pair(Reading, cl), b);
    t := Go(t, GetToken(1), 1, Pair(GotToken(got), cl), b);
  }

  // It then asks for the time to live and the cookies.
  lemma ReadOn(s: State, got: Entry, timed: Entry, b: Option<Bounds>) returns (t: State)
    requires Reached(s, b) && Two(s) && s.calls[1] == GotToken(got)
    requires s.tokenKey == Some(timed) && TtlReply(s.tokenKey, s.now) > 0
    ensures Reached(t, b)
    ensures exists cookies :: t == With(s, 1, GotCookies(got, timed, s.now, cookies), s.clients[1])
  {
    hide Reached;
    var cookies := if Live(s.cookieKey, s.now) then s.cookieKey.value.value.cookies else map[];
    t := Go(s, GetTtl(1), 1, Pair(GotTtl(got, timed, s.now), s.clients[1]), b);
    t := Go(t, GetCookies(1), 1, Pair(GotCookies(got, timed, s.now, cookies), s.clients[1]), b);
  }

  // It adopts the token `read` milliseconds later,
  lemma AdoptRun(s: State, got: Entry, timed: Entry, cookies: Jar, read: nat, b: Option<Bounds>) returns (t: State)
    requires Reached(s, b) && Two(s) && s.calls[1] == GotCookies(got, timed, s.now, cookies)
    requires b.Some? ==> read <= b.value.read
    ensures Reached(t, b)
    ensures var cl := Adopted(s.clients[1], got, timed, s.now, cookies, s.now + read);
            t == With(s, 1, Returned(got.value.token, s.now + read, cl.source, true), cl).(now := s.now + read)
  {
    hide Reached, TtlReply;
    var cl := Adopted(s.clients[1], got, timed, s.now, cookies, s.now + read);
    t := Wait(s, read, b);
    t := Go(t, Adopt(1), 1, Pair(Returned(got.value.token, s.now + read, cl.source, true), cl), b);
  }

  // and serves it again `hold` after that.
  lemma AdoptThenServe(s: State, got: Entry, timed: Entry, cookies: Jar, read: nat, hold: nat, b: Option<Bounds>)
    returns (t: State)
    requires Reached(s, b) && Two(s) && s.calls[1] == GotCookies(got, timed, s.now, cookies)
    requires hold < SECOND * TtlReply(Some(timed), s.now) && (b.Some? ==> read <= b.value.read)
    ensures Reached(t, b) && t.margin == s.margin && |t.calls| == 2
    ensures t.calls[1] == Returned(got.value.token, s.now + read + hold, ByRead(got, timed, s.now, s.now + read), true)
  {
    hide Reached, TtlReply;
    var src := ByRead(got, timed, s.now, s.now + read);
    t := AdoptRun(s, got, timed, cookies, read, b);
    var cl := t.clients[1];
    t := Wait(t, hold, b);
    t := Go(t, Again(1), 1, Pair(Idle, cl), b);
    t := Go(t, Enter(1), 1, Pair(Returned(got.value.token, s.now + read + hold, src, true), cl), b);
  }
}
