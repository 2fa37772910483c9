/**
 Where the guarantees of the token cache end: concrete and parametric runs in which the
 hypotheses of the safety theorems do not hold and the conclusion does not either.
 */
module TokenLimits {
  import opened Common
  import opened TokenProtocol
  import opened TokenInvariant
  import opened TokenSafety
  import opened TokenPairing
  import opened TokenRuns
  import opened TokenSoundness

  /* ----- the margin, exactly ----- */

  // A freshness-tested return of a token past its real expiry, where OpenIAM stated the truth
  // and the login cached the token `delay` milliseconds after it was minted.
  predicate ExpiredReturn(call: Call, lifetime: int, delay: nat) {
    && call.Returned? && call.checked && call.source.ByLogin?
    && call.source.refresh.lifetime == lifetime
    && call.source.refresh.cachedAt == call.token.issuedAt + delay
    && call.token.goodUntil == call.token.issuedAt + SECOND * lifetime
    && call.token.goodUntil <= call.at
  }

  ghost predicate ServesExpired(s: State, lifetime: int, delay: nat) {
    exists c :: 0 <= c < |s.calls| && ExpiredReturn(s.calls[c], lifetime, delay)
  }

  // In the process that logged in, the freshness test lets an expired token through exactly
  // when the issue delay exceeds the margin, or, for a lifetime that the margin leaves no more
  // than a second of, when that delay and this second exceed the lifetime.
  lemma MarginIsExact(margin: int, lifetime: int, delay: nat)
    ensures (exists s :: Reachable(s) && s.margin == margin && ServesExpired(s, lifetime, delay))
       <==> if lifetime - margin > 1 then delay > 1000 * margin else delay + 1000 > 1000 * lifetime
  {
    if delay + SECOND * EffectiveTtl(lifetime, margin) > SECOND * lifetime {
      var s := ExpiredRun(margin, lifetime, delay);
    }
    forall s, c | Reachable(s) && s.margin == margin && 0 <= c < |s.calls| && ExpiredReturn(s.calls[c], lifetime, delay)
      ensures delay + SECOND * EffectiveTtl(lifetime, margin) > SECOND * lifetime
    {
      ReturnedAge(s, c);
    }
  }

  lemma ExpiredRun(margin: int, lifetime: int, delay: nat) returns (s: State)
    requires delay + SECOND * EffectiveTtl(lifetime, margin) > SECOND * lifetime
    ensures Reachable(s) && s.margin == margin && ServesExpired(s, lifetime, delay)
  {
    hide Reached;
    var s0 := Start(margin);
    ReachInit(s0, None);
    var r := Refresh(Token(0, 0, SECOND * lifetime), lifetime, delay, map[]);
    var s1 := LoginRun(s0, 0, delay, lifetime, SECOND * lifetime, None);
    var s2 := PublishRun(s1, 0, r, None);
    var cl := s2.clients[0];
    var s3 := Wait(s2, SECOND * EffectiveTtl(lifetime, margin) - 1, None);
    s := Go(s3, Enter(0), 0, Pair(Returned(r.token, s3.now, ByLogin(r), true), cl), None);
    assert ExpiredReturn(s.calls[0], lifetime, delay);
    NoneIsReachable(s);
  }

  // The call that logged in returns its token without looking at the clock again, `publish`
  // milliseconds after it cached it.
  predicate ExpiredOwnReturn(call: Call, lifetime: int, issue: nat, publish: nat) {
    && call.Returned? && !call.checked && call.source.ByLogin?
    && call.source.refresh.lifetime == lifetime
    && call.source.refresh.cachedAt == call.token.issuedAt + issue && call.at == call.source.refresh.cachedAt + publish
    && call.token.goodUntil == call.token.issuedAt + SECOND * lifetime
    && call.token.goodUntil <= call.at
  }

  ghost predicate ReturnsExpired(s: State, lifetime: int, issue: nat, publish: nat) {
    exists c :: 0 <= c < |s.calls| && ExpiredOwnReturn(s.calls[c], lifetime, issue, publish)
  }

  // Its token has expired exactly when the two SETs outlast what was left of the lifetime. The
  // margin does not come into it.
  lemma OwnReturnIsExact(margin: int, lifetime: int, issue: nat, publish: nat)
    ensures (exists s :: Reachable(s) && s.margin == margin && ReturnsExpired(s, lifetime, issue, publish))
       <==> issue + publish >= SECOND * lifetime
  {
    if issue + publish >= SECOND * lifetime {
      var s := OwnReturnRun(margin, lifetime, issue, publish, None);
    }
  }

  lemma OwnReturnRun(margin: int, lifetime: int, issue: nat, publish: nat, b: Option<Bounds>) returns (s: State)
    requires issue + publish >= SECOND * lifetime
    requires LoginKeeps(0, issue, lifetime, SECOND * lifetime, margin, b) && (b.Some? ==> publish <= b.value.publish)
    ensures Reached(s, b) && s.margin == margin && ReturnsExpired(s, lifetime, issue, publish)
  {
    hide Reached;
    s := Start(margin);
    ReachInit(s, b);
    var r := Refresh(Token(0, 0, SECOND * lifetime), lifetime, issue, map[]);
    s := LoginRun(s, 0, issue, lifetime, SECOND * lifetime, b);
    s := ReturnRun(s, 0, r, publish, b);
    assert ExpiredOwnReturn(s.calls[0], lifetime, issue, publish);
  }

  // The same for a process that adopts the token from Redis: `issue` milliseconds from minting
  // to caching, `write` from there to the effect of the SET, `read` from the TTL reply to the
  // adoption, the value and the time to live being of one SET.
  predicate ExpiredReadReturn(call: Call, lifetime: int, issue: nat, write: nat, read: nat) {
    && call.Returned? && call.checked && call.source.ByRead? && Paired(call.source)
    && RefreshOf(call.source).lifetime == lifetime
    && IssueDelay(call.source) == issue && WriteDelay(call.source) == write && ReadDelay(call.source) == read + ROUNDING
    && call.token.goodUntil == call.token.issuedAt + SECOND * lifetime
    && call.token.goodUntil <= call.at
  }

  ghost predicate ReaderServesExpired(s: State, lifetime: int, issue: nat, write: nat, read: nat) {
    exists c :: 0 <= c < |s.calls| && ExpiredReadReturn(s.calls[c], lifetime, issue, write, read)
  }

  // A reader lets an expired token through exactly when the three delays and half a second of
  // rounding exceed the margin; short lifetimes as before.
  lemma ReaderMarginIsExact(margin: int, lifetime: int, issue: nat, write: nat, read: nat)
    ensures (exists s :: Reachable(s) && s.margin == margin && ReaderServesExpired(s, lifetime, issue, write, read))
       <==> if lifetime - margin > 1 then issue + write + read + 500 > 1000 * margin
            else issue + write + read + 1500 > 1000 * lifetime
  {
    if issue + write + read + ROUNDING + SECOND * EffectiveTtl(lifetime, margin) > SECOND * lifetime {
      var s := ExpiredReadRun(margin, lifetime, issue, write, read, None);
    }
    forall s, c | Reachable(s) && s.margin == margin && 0 <= c < |s.calls|
                  && ExpiredReadReturn(s.calls[c], lifetime, issue, write, read)
      ensures issue + write + read + ROUNDING + SECOND * EffectiveTtl(lifetime, margin) > SECOND * lifetime
    {
      ReturnedAge(s, c);
    }
  }

  // Process 1 reads half a second before the key expires, which Redis rounds up to one second.
  lemma ExpiredReadRun(margin: int, lifetime: int, issue: nat, write: nat, read: nat, b: Option<Bounds>)
    returns (s: State)
    requires issue + write + read + ROUNDING + SECOND * EffectiveTtl(lifetime, margin) > SECOND * lifetime
    requires LoginKeeps(0, issue, lifetime, SECOND * lifetime, margin, b)
    requires b.Some? ==> write <= b.value.write && read <= b.value.read
    ensures Reached(s, b) && s.margin == margin && ReaderServesExpired(s, lifetime, issue, write, read)
  {
    hide Reached;
    var r := Refresh(Token(0, 0, SECOND * lifetime), lifetime, issue, map[]);
    var entry := Entry(r, EffectiveTtl(lifetime, margin), issue + write);
    s := WrittenRun(margin, lifetime, issue, write, r, entry, b);
    s := Wait(s, SECOND * entry.ttl - ROUNDING, b);
    s := ReadFirst(s, entry, b);
    assert TtlReply(Some(entry), s.now) == 1;
    var readAt := s.now;
    var t := ReadOn(s, entry, entry, b);
    var cookies :| t == With(s, 1, GotCookies(entry, entry, readAt, cookies), s.clients[1]);
    s := AdoptThenServe(t, entry, entry, cookies, read, SECOND - 1, b);
    assert ExpiredReadReturn(s.calls[1], lifetime, issue, write, read);
  }

  // Process 0 logs in at time 0 and its SET takes effect.
  lemma WrittenRun(margin: int, lifetime: int, issue: nat, write: nat, r: Refresh, entry: Entry, b: Option<Bounds>)
    returns (t: State)
    requires r == Refresh(Token(0, 0, SECOND * lifetime), lifetime, issue, map[])
    requires entry == Entry(r, EffectiveTtl(lifetime, margin), issue + write)
    requires LoginKeeps(0, issue, lifetime, SECOND * lifetime, margin, b) && (b.Some? ==> write <= b.value.write)
    ensures Reached(t, b) && Two(t) && t.margin == margin && t.now == issue + write
    ensures t.tokenKey == Some(entry) && t.calls[1] == Idle && t.clients[1] == NewClient
  {
    hide Reached;
    var s0 := Start(margin);
    ReachInit(s0, b);
    t := LoginRun(s0, 0, issue, lifetime, SECOND * lifetime, b);
    t := Wait(t, write, b);
    t := Put(t, 0, r, b);
  }

  /* ----- the bounds, exactly ----- */

  ghost predicate ServesPastExpiry(s: State) {
    exists c :: 0 <= c < |s.calls| && s.calls[c].Returned? && s.calls[c].token.goodUntil <= s.calls[c].at
  }

  // Some schedule that keeps to these bounds hands out a token past its real expiry exactly when
  // the bounds are not within the margin: the soundness theorem asks for nothing it can do without.
  lemma BoundsAreExact(b: Bounds, margin: int)
    ensures (exists s :: TimelyReachable(s, b) && s.margin == margin && ServesPastExpiry(s))
            <==> !WithinMargin(b, margin)
  {
    hide TimelyReachable;
    if !WithinMargin(b, margin) {
      var s := BeyondBounds(b, margin);
    }
    forall s, c | TimelyReachable(s, b) && s.margin == margin && WithinMargin(b, margin) && 0 <= c < |s.calls|
        && s.calls[c].Returned?
      ensures s.calls[c].at < s.calls[c].token.goodUntil
    {
      NoExpiredTokenIsEverReturned(s, b, c);
    }
  }

  lemma BeyondBounds(b: Bounds, margin: int) returns (s: State)
    requires !WithinMargin(b, margin)
    ensures TimelyReachable(s, b) && s.margin == margin && ServesPastExpiry(s)
  {
    hide TimelyReachable;
    var lifetime := margin + 1;
    if b.issue + b.publish >= SECOND * lifetime {
      s := OwnReturnRun(margin, lifetime, b.issue, b.publish, Some(b));
    } else {
      s := ExpiredReadRun(margin, lifetime, b.issue, b.write, b.read, Some(b));
    }
  }

  /* ----- the read that is not atomic ----- */

  // Between GET and TTL another process' SET can land. The reader then keeps the old token
  // for as long as the new one lives. With every delay zero and every lifetime stated
  // truthfully, a token that works for 100 s is still handed out after 141 s.
  lemma RacedReadServesExpiredToken() returns (s: State)
    ensures Reachable(s) && s.margin == 60 && |s.calls| == 2 && s.calls[1].Returned?
    ensures var call := s.calls[1];
            && call.checked && call.source.ByRead? && !Paired(call.source) && Honest(call.source)
            && IssueDelay(call.source) == WriteDelay(call.source) == 0 && ReadDelay(call.source) == ROUNDING
            && RefreshOf(call.source).lifetime > s.margin
            && call.at > call.token.goodUntil
  {
    hide Reached;
    var old' := Refresh(Token(0, 0, 100_000), 100, 0, map[]);
    var new' := Refresh(Token(1, 41_000, 10_041_000), 10_000, 41_000, map[]);
    var s1 := FirstLogin(old');
    var got, timed := Entry(old', 40, 0), Entry(new', 9_940, 41_000);
    var s2 := ReadFirst(s1, got, None);
    var s3 := SecondLogin(s2, old', new');
    assert TtlReply(Some(timed), 41_000) == 9_940;
    var s4 := ReadOn(s3, got, timed, None);
    var cookies :| s4 == With(s3, 1, GotCookies(got, timed, 41_000, cookies), s3.clients[1]);
    s := AdoptThenServe(s4, got, timed, cookies, 0, 100_000, None);
    NoneIsReachable(s);
  }

  // Process 0 logs in at time 0; 39 s pass.
  lemma FirstLogin(old': Refresh) returns (t: State)
    requires old' == Refresh(Token(0, 0, 100_000), 100, 0, map[])
    ensures Reached(t, None) && Two(t) && t.margin == 60 && t.now == 39_000 && t.logins == 1
    ensures t.calls == [Idle, Idle] && t.clients[1] == NewClient && t.tokenKey == Some(Entry(old', 40, 0))
    ensures t.clients[0] == Client(Some(old'.token), 40_000, map[], None, ByLogin(old'))
  {
    hide Reached;
    t := Start(60);
    ReachInit(t, None);
    t := LoginRun(t, 0, 0, 100, 100_000, None);
    t := PublishRun(t, 0, old', None);
    t := Wait(t, 39_000, None);
  }

  // Two seconds later its token is stale here and in Redis, so process 0 logs in again.
  lemma SecondLogin(s: State, old': Refresh, new': Refresh) returns (t: State)
    requires Reached(s, None) && Two(s) && s.margin == 60 && s.now == 39_000 && s.logins == 1
    requires old' == Refresh(Token(0, 0, 100_000), 100, 0, map[])
    requires new' == Refresh(Token(1, 41_000, 10_041_000), 10_000, 41_000, map[])
    requires s.calls[0] == Idle && s.tokenKey == Some(Entry(old', 40, 0))
    requires s.clients[0] == Client(Some(old'.token), 40_000, map[], None, ByLogin(old'))
    ensures Reached(t, None) && Two(t) && t.margin == 60 && t.now == 41_000
    ensures t.calls[1] == s.calls[1] && t.clients[1] == s.clients[1]
    ensures t.tokenKey == t.cookieKey == Some(Entry(new', 9_940, 41_000))
  {
    hide Reached;
    t := Wait(s, 2_000, None);
    t := LoginRun(t, 0, 0, 10_000, 10_041_000, None);
    t := PublishRun(t, 0, new', None);
  }

  /* ----- the two keys ----- */

  // Two processes whose writes interleave leave the token of one login with the cookies of
  // the other, with nobody in the gap any more.
  lemma OverlappingWritersMixSessions() returns (s: State)
    ensures Reachable(s) && (forall d :: 0 <= d < |s.calls| ==> !InGap(s, d))
    ensures Live(s.tokenKey, s.now) && Live(s.cookieKey, s.now)
    ensures s.tokenKey.value.value.token.login != s.cookieKey.value.value.token.login
  {
    hide Reached;
    var s0 := Start(60);
    ReachInit(s0, None);
    var s1 := LoginRun(s0, 0, 0, 100, 100_000, None);
    var s2 := LoginRun(s1, 1, 0, 100, 100_000, None);
    s := Interleave(s2, s1.calls[0].refresh, s2.calls[1].refresh);
    NoneIsReachable(s);
  }

  // Two logins ready to publish; the first one's SETs enclose the second one's.
  lemma Interleave(s: State, first: Refresh, second: Refresh) returns (t: State)
    requires Reached(s, None) && Two(s) && s.calls == [PuttingToken(first), PuttingToken(second)]
    ensures Reached(t, None) && t.calls == [Published(first), Published(second)] && t.now == s.now
    ensures t.tokenKey == Written(second, s.margin, s.now) && t.cookieKey == Written(first, s.margin, s.now)
  {
    hide Reached, Local, Ready;
    t := Put(s, 0, first, None);
    t := Put(t, 1, second, None);
    t := PutJar(t, 1, second, None);
    t := PutJar(t, 0, first, None);
  }

  // One process, one failure between the two SETs: the token stays in Redis without cookies.
  lemma AbandonedGapLosesCookies() returns (s: State)
    ensures Reachable(s) && (forall d :: 0 <= d < |s.calls| ==> !InGap(s, d))
    ensures Live(s.tokenKey, s.now) && s.cookieKey == None
  {
    hide Reached;
    s := Start(60);
    ReachInit(s, None);
    s := LoginRun(s, 0, 0, 100, 100_000, None);
    s := Put(s, 0, s.calls[0].refresh, None);
    s := FailRun(s, 0, None);
    NoneIsReachable(s);
  }

  // A reply to an unrelated request of the same client, arriving while a login is under way,
  // puts its cookie among those cached as the login's own.
  lemma StrayReplyEntersTheCache() returns (s: State)
    ensures Reachable(s) && s.cookieKey.Some? && !PureRefresh(s.cookieKey.value.value)
  {
    hide Reached, EffectiveTtl;
    s := Start(60);
    ReachInit(s, None);
    s := StartLogin(s, 0, None);
    s := StrayRun(s, 0, "SESSION", None);
    assert s.clients[0].jar["SESSION"] == Stray;
    s := EndLogin(s, 0, 0, 0, 100, 100_000, None);
    s := PublishStray(s, s.calls[0].refresh);
    NoneIsReachable(s);
  }

  lemma PublishStray(s: State, r: Refresh) returns (t: State)
    requires Reached(s, None) && Two(s) && s.calls[0] == PuttingToken(r)
    requires "SESSION" in r.cookies && r.cookies["SESSION"] == Stray
    ensures Reached(t, None) && t.cookieKey.Some? && !PureRefresh(t.cookieKey.value.value)
  {
    hide Reached, EffectiveTtl;
    t := Put(s, 0, r, None);
    t := PutJar(t, 0, r, None);
    assert t.cookieKey.value.value == r;
  }

  lemma NoneIsReachable(s: State)
    requires Reached(s, None)
    ensures Reachable(s)
  {}
}
