/**
 OpenIAMTokenClient as an object that updates its fields, and the Redis keys it shares.
 Each method is one await-free segment of get_access_token. Its contract says that the
 fields it leaves behind are those of the protocol after the step of the same name, so
 what is proved about the protocol holds of the object.
 */
module TokenClient {
  import opened Common
  import opened TokenProtocol
  import opened TokenSafety

  class Redis {
    var tokenKey: Option<Entry>
    var cookieKey: Option<Entry>

    constructor ()
      ensures tokenKey == None && cookieKey == None
    {
      tokenKey, cookieKey := None, None;
    }
  }

  // One request: how long it takes, and whether it ends with a reply or an exception.
  datatype Io<+T> = Io(delay: nat, reply: Reply<T>)

  // One SET: when it takes effect, if it does, and how long the client then waits for the
  // reply, if there is one.
  datatype Outcome = Stored | StoredThenRaised | Lost
  datatype Write = Write(delay: nat, outcome: Outcome, back: nat)

  // What a coroutine finds when it is granted the lock: others may have used the client and the
  // keys while it waited.
  datatype Arrival = Arrival(client: Client, tokenKey: Option<Entry>, cookieKey: Option<Entry>)

  // What the world does during one call: how long it waits for the lock and at each await, what
  // it finds then, and which replies come. `session` is the name the protocol gives to the login,
  // should this call start one; `mint` passes between the reply to the login and the minting.
  datatype World = World(
    session: nat, queue: Io<()>, arrival: Arrival, get: Io<()>, ttl: Io<()>, jar: Io<()>, adopt: nat,
    login: Io<set<string>>, mint: nat, goodUntil: int,
    authorize: Io<(Option<int>, set<string>)>,
    introspect: Io<(Option<int>, set<string>)>,
    put: Write, putJar: Write)

  // From minting to caching: the introspection counts only if the redirect stated no lifetime.
  function IssueTime(w: World): nat {
    w.authorize.delay + (if w.authorize.reply.Answer? && w.authorize.reply.value.0.None? then w.introspect.delay else 0)
  }

  // From caching to the return of the call that logged in.
  function PublishTime(w: World): nat { w.put.delay + w.put.back + w.putJar.delay + w.putJar.back }

  function LastsUntil(e: Entry): int { e.setAt + 1000 * e.ttl }

  // The lifetime the client believes a new token has: stated in the redirect, or else by the
  // introspection, or else five minutes. None if the client does not get that far.
  function Lifetime(w: World): Option<int> {
    if w.login.reply.Raise? || w.authorize.reply.Raise? then None
    else if w.authorize.reply.value.0.Some? then w.authorize.reply.value.0
    else if w.introspect.reply.Raise? then None
    else if w.introspect.reply.value.0.Some? then w.introspect.reply.value.0
    else Some(300)
  }

  class OpenIAMTokenClient {
    const margin: int
    var accessToken: Option<Token>
    var expiresAt: int
    var jar: Jar
    var lock: Option<nat>
    ghost var source: Source

    constructor (margin: int)
      ensures this.margin == margin && View() == NewClient
    {
      this.margin := margin;
      accessToken, expiresAt, jar, lock, source := None, 0, map[], None, Unset;
    }

    ghost function View(): Client
      reads this
    {
      Client(accessToken, expiresAt, jar, lock, source)
    }

    // This object and Redis are, in system state s, the client of coroutine c and the shared keys.
    ghost predicate Represents(s: State, c: nat, redis: Redis)
      reads this, redis
    {
      && InRange(s, c) && ClientOf(s, c) == View() && s.margin == margin
      && s.tokenKey == redis.tokenKey && s.cookieKey == redis.cookieKey
    }

    // Lines 80-81: the fast path, without the lock.
    method FastPath(ghost s: State, c: nat, redis: Redis, now: int) returns (r: Option<Token>)
      requires Represents(s, c, redis) && s.now == now && s.calls[c].Idle?
      ensures Represents(Next(s, Enter(c)), c, redis)
      ensures r == if accessToken.Some? && now < expiresAt then accessToken else None
      ensures Next(s, Enter(c)).calls[c] == if r.Some? then Returned(r.value, now, source, true) else Waiting
    {
      r := if accessToken.Some? && now < expiresAt then accessToken else None;
    }

    // Lines 83-87: take the lock and look again.
    method Recheck(ghost s: State, c: nat, redis: Redis, now: int) returns (r: Option<Token>)
      requires Represents(s, c, redis) && s.now == now && s.calls[c].Waiting? && lock == None
      modifies this`lock
      ensures r == if accessToken.Some? && now < expiresAt then accessToken else None
      ensures lock == if r.Some? then None else Some(c)
      ensures Represents(Next(s, Acquire(c)), c, redis)
      ensures Next(s, Acquire(c)).calls[c] == if r.Some? then Returned(r.value, now, source, true) else Reading
    {
      if accessToken.Some? && now < expiresAt {
        r := accessToken;
      } else {
        lock := Some(c);
        r := None;
      }
    }

    // Lines 107-109.
    method ReadToken(ghost s: State, c: nat, redis: Redis, now: int) returns (r: Option<Entry>)
      requires Represents(s, c, redis) && s.now == now && s.calls[c].Reading?
      ensures Represents(Next(s, GetToken(c)), c, redis)
      ensures r.Some? <==> redis.tokenKey.Some? && now < LastsUntil(redis.tokenKey.value)
      ensures var call := Next(s, GetToken(c)).calls[c];
              if r.Some? then r == redis.tokenKey && call == GotToken(r.value) else call.Missed?
    {
      r := if Live(redis.tokenKey, now) then redis.tokenKey else None;
    }

    // Lines 110-112.
    method ReadTtl(ghost s: State, c: nat, redis: Redis, now: int) returns (r: Option<Entry>)
      requires Represents(s, c, redis) && s.now == now && s.calls[c].GotToken?
      ensures Represents(Next(s, GetTtl(c)), c, redis)
      ensures r.Some? <==> redis.tokenKey.Some? && now + 500 <= LastsUntil(redis.tokenKey.value)
      ensures var call := Next(s, GetTtl(c)).calls[c];
              if r.Some? then r == redis.tokenKey && call == GotTtl(s.calls[c].got, r.value, now) else call.Missed?
    {
      var ttl := TtlReply(redis.tokenKey, now);
      r := if ttl <= 0 then None else redis.tokenKey;
    }

    // Lines 117-119.
    method ReadCookies(ghost s: State, c: nat, redis: Redis, now: int) returns (cookies: Jar)
      requires Represents(s, c, redis) && s.now == now && s.calls[c].GotTtl?
      ensures Represents(Next(s, GetCookies(c)), c, redis)
      ensures Next(s, GetCookies(c)).calls[c]
           == GotCookies(s.calls[c].got, s.calls[c].timed, s.calls[c].readAt, cookies)
    {
      cookies := if Live(redis.cookieKey, now) then redis.cookieKey.value.value.cookies else map[];
    }

    // Lines 120-121, 114 and 91-94: restore the cookies, adopt the token, release the lock.
    method AdoptCached(ghost s: State, c: nat, redis: Redis, got: Entry, timed: Entry, readAt: int, cookies: Jar,
                       now: int)
      returns (r: Token)
      requires Represents(s, c, redis) && s.now == now && s.calls[c] == GotCookies(got, timed, readAt, cookies)
      modifies this
      ensures lock == None
      ensures source == ByRead(got, timed, readAt, now)
      ensures r == got.value.token && accessToken == Some(r)
              && expiresAt == now + SECOND * TtlReply(Some(timed), readAt)
      ensures Represents(Next(s, Adopt(c)), c, redis) && Next(s, Adopt(c)).calls[c] == Returned(r, now, source, true)
    {
      jar := jar + cookies;
      accessToken := Some(got.value.token);
      expiresAt := now + SECOND * TtlReply(Some(timed), readAt);
      source := ByRead(got, timed, readAt, now);
      lock := None;
      r := got.value.token;
    }

    // Line 126.
    method ClearJar(ghost s: State, c: nat, redis: Redis)
      requires Represents(s, c, redis) && s.calls[c].Missed?
      modifies this`jar
      ensures Represents(Next(s, BeginLogin(c)), c, redis) && Next(s, BeginLogin(c)).calls[c] == LoggingIn(s.logins)
      ensures Next(s, BeginLogin(c)).logins == s.logins + 1
    {
      jar := map[];
    }

    // Line 128: the reply to the login request sets this login's cookies.
    method ReceiveLogin(ghost s: State, c: nat, redis: Redis, login: nat, names: set<string>)
      requires Represents(s, c, redis) && s.calls[c] == LoggingIn(login)
      modifies this`jar
      ensures Represents(Next(s, LoginReply(c, names)), c, redis)
      ensures Next(s, LoginReply(c, names)).calls[c] == Authorizing(login)
    {
      jar := jar + map n | n in names :: Session(login);
    }

    // OpenIAM mints the token; nothing changes here until its reply arrives.
    lemma AwaitMint(s: State, c: nat, redis: Redis, login: nat, goodUntil: int)
      requires Represents(s, c, redis) && s.calls[c] == Authorizing(login)
      ensures Represents(Next(s, Mint(c, goodUntil)), c, redis)
      ensures Next(s, Mint(c, goodUntil)).calls[c] == Minted(Token(login, s.now, goodUntil))
    {}

    // Lines 129-131 when the redirect stated no lifetime: introspect next.
    method ReceiveToken(ghost s: State, c: nat, redis: Redis, token: Token, names: set<string>)
      requires Represents(s, c, redis) && s.calls[c] == Minted(token)
      modifies this`jar
      ensures Represents(Next(s, AuthorizeReply(c, None, names)), c, redis)
      ensures Next(s, AuthorizeReply(c, None, names)).calls[c] == Introspecting(token)
    {
      jar := jar + map n | n in names :: Session(token.login);
    }

    // What the step does that ends a login.
    lemma CacheEffect(s: State, c: nat, token: Token, expiresIn: Option<int>, names: set<string>, st: Step)
      requires InRange(s, c)
      requires (s.calls[c] == Minted(token) && expiresIn.Some? && st == AuthorizeReply(c, expiresIn, names))
            || (s.calls[c] == Introspecting(token) && st == IntrospectReply(c, expiresIn, names))
      ensures var t := Next(s, st);
              var pair := Cache(ClientOf(s, c), token, expiresIn.GetOr(FALLBACK_TTL), names, s.margin, s.now);
              && InRange(t, c) && t.calls[c] == pair.call && ClientOf(t, c) == pair.cl && t.margin == s.margin
              && t.tokenKey == s.tokenKey && t.cookieKey == s.cookieKey
    {
      hide Cache;
    }

    // Lines 134-140: the lifetime is known, cache the token and take stock of the jar.
    method CacheToken(ghost s: State, c: nat, redis: Redis, token: Token, expiresIn: Option<int>, names: set<string>,
                      now: int,
                      ghost st: Step)
      returns (refresh: Refresh)
      requires Represents(s, c, redis) && s.now == now
      requires (s.calls[c] == Minted(token) && expiresIn.Some? && st == AuthorizeReply(c, expiresIn, names))
            || (s.calls[c] == Introspecting(token) && st == IntrospectReply(c, expiresIn, names))
      modifies this
      ensures refresh.token == token && refresh.lifetime == expiresIn.GetOr(300) && refresh.cachedAt == now
      ensures HoldsLogin(refresh) && source == ByLogin(refresh)
      ensures Represents(Next(s, st), c, redis) && Next(s, st).calls[c] == PuttingToken(refresh)
    {
      hide Next, Local, Ready;
      CacheEffect(s, c, token, expiresIn, names, st);
      jar := jar + map n | n in names :: Session(token.login);
      var ttl := if expiresIn.Some? then expiresIn.value else FALLBACK_TTL;
      var effective := if ttl - margin > 1 then ttl - margin else 1;
      accessToken := Some(token);
      expiresAt := now + SECOND * effective;
      refresh := Refresh(token, ttl, now, jar);
      source := ByLogin(refresh);
    }

    // Line 143.
    method StoreToken(ghost s: State, c: nat, redis: Redis, refresh: Refresh, now: int)
      requires Represents(s, c, redis) && s.now == now && s.calls[c] == PuttingToken(refresh)
      modifies redis`tokenKey
      ensures redis.tokenKey == Some(Entry(refresh, EffectiveTtl(refresh.lifetime, margin), now))
      ensures Represents(Next(s, PutToken(c)), c, redis) && Next(s, PutToken(c)).calls[c] == PuttingCookies(refresh)
    {
      redis.tokenKey := Some(Entry(refresh, EffectiveTtl(refresh.lifetime, margin), now));
    }

    // Line 144.
    method StoreCookies(ghost s: State, c: nat, redis: Redis, refresh: Refresh, now: int)
      requires Represents(s, c, redis) && s.now == now && s.calls[c] == PuttingCookies(refresh)
      modifies redis`cookieKey
      ensures redis.cookieKey == Some(Entry(refresh, EffectiveTtl(refresh.lifetime, margin), now))
      ensures Represents(Next(s, PutCookies(c)), c, redis) && Next(s, PutCookies(c)).calls[c] == Published(refresh)
    {
      redis.cookieKey := Some(Entry(refresh, EffectiveTtl(refresh.lifetime, margin), now));
    }

    // Lines 97-98, with the assertion: leave the lock and return what is cached.
    method Leave(ghost s: State, c: nat, redis: Redis, ghost now: int) returns (r: Reply<Token>)
      requires Represents(s, c, redis) && s.now == now && s.calls[c].Published?
      modifies this`lock
      ensures lock == None && r == if accessToken.Some? then Answer(accessToken.value) else Raise
      ensures Represents(Next(s, Finish(c)), c, redis)
      ensures Next(s, Finish(c)).calls[c] == if r.Answer? then Returned(r.value, now, source, false) else Raised
    {
      lock := None;
      r := if accessToken.Some? then Answer(accessToken.value) else Raise;
    }

    // An exception inside `async with` releases the lock on its way out.
    method Abandon(ghost s: State, c: nat, redis: Redis)
      requires Represents(s, c, redis) && Holding(s.calls[c])
      modifies this`lock
      ensures lock == None
      ensures Represents(Next(s, Fail(c)), c, redis) && Next(s, Fail(c)).calls[c] == Raised
    {
      lock := None;
    }

    // A cancelled wait for the lock leaves everything as it was.
    lemma GiveUp(s: State, c: nat, redis: Redis)
      requires Represents(s, c, redis) && s.calls[c].Waiting?
      ensures Represents(Next(s, Fail(c)), c, redis) && Next(s, Fail(c)).calls[c] == Raised
    {}

    // The fields are those of this login: its token, kept for its lifetime less the margin but
    // for a second at least, and its cookies.
    ghost predicate HoldsLogin(r: Refresh)
      reads this
    {
      && source == ByLogin(r) && accessToken == Some(r.token) && r.cookies == jar
      && expiresAt == r.cachedAt + 1000 * (if r.lifetime - margin > 1 then r.lifetime - margin else 1)
    }

    // What the keys hold after the two SETs of a login cached at time `at`, given what they held.
    ghost predicate Written(redis: Redis, r: Refresh, at: int, w: World, tokenKey: Option<Entry>,
                            cookieKey: Option<Entry>)
      reads redis
    {
      var ttl := if r.lifetime - margin > 1 then r.lifetime - margin else 1;
      && redis.tokenKey == (if w.put.outcome.Lost? then tokenKey else Some(Entry(r, ttl, at + w.put.delay)))
      && redis.cookieKey == (if !w.put.outcome.Stored? || w.putJar.outcome.Lost? then cookieKey
                             else Some(Entry(r, ttl, at + w.put.delay + w.put.back + w.putJar.delay)))
    }

    // How a call ends: with a token from where its client has it, or with an exception.
    ghost predicate Ended(t: State, c: nat, r: Reply<Token>)
      requires c < |t.calls|
      reads this
    {
      var call := t.calls[c];
      if r.Answer? then call.Returned? && call.token == r.value && call.source == source else call == Raised
    }

    // If that login was this call's, the token is returned this long after it was minted.
    ghost predicate EndedOnTime(call: Call, w: World) {
      call.Returned? && !call.checked ==>
        && call.source.ByLogin? && IssueDelay(call.source) == IssueTime(w)
        && call.at - call.source.refresh.cachedAt == PublishTime(w)
    }

    // What a login that mints this token comes to. It succeeds exactly if every await is answered
    // and both SETs are stored; the token is cached here as soon as its lifetime is known.
    ghost predicate LoginEnds(w: World, token: Token, r: Reply<Token>, redis: Redis,
                              tokenKey: Option<Entry>, cookieKey: Option<Entry>)
      reads this, redis
    {
      if Lifetime(w).None? then r == Raise && redis.tokenKey == tokenKey && redis.cookieKey == cookieKey
      else
        && r == (if w.put.outcome.Stored? && w.putJar.outcome.Stored? then Answer(token) else Raise)
        && source.ByLogin? && source.refresh.token == token && source.refresh.lifetime == Lifetime(w).value
        && source.refresh.cachedAt == token.issuedAt + IssueTime(w)
        && HoldsLogin(source.refresh)
        && Written(redis, source.refresh, source.refresh.cachedAt, w, tokenKey, cookieKey)
    }

    // What reading Redis comes to when its GET is answered at time `at`: the token there, nothing
    // usable, or an exception of a request that is made.
    static ghost function FoundAt(key: Option<Entry>, at: int, w: World): Reply<Option<Token>> {
      if w.get.reply.Raise? then Raise
      else if key.None? || LastsUntil(key.value) <= at then Answer(None)
      else if w.ttl.reply.Raise? then Raise
      else if LastsUntil(key.value) - (at + w.ttl.delay) < 500 then Answer(None)
      else if w.jar.reply.Raise? then Raise
      else Answer(Some(key.value.value.token))
    }

    // The instant at which nothing usable was found.
    static ghost function MissedAt(key: Option<Entry>, at: int, w: World): int {
      if key.None? || LastsUntil(key.value) <= at then at else at + w.ttl.delay
    }

    // The token of this entry is kept from its adoption on for the seconds Redis said it had left.
    ghost predicate Adopted(key: Option<Entry>, at: int, w: World)
      reads this
    {
      && key.Some? && accessToken == Some(key.value.value.token)
      && expiresAt == at + w.ttl.delay + w.jar.delay + w.adopt
                      + 1000 * ((LastsUntil(key.value) - (at + w.ttl.delay) + 500) / 1000)
    }

    // The token and expiry held before are held still, and so are both keys.
    ghost predicate Untouched(before: Arrival, redis: Redis)
      reads this, redis
    {
      && accessToken == before.client.token && expiresAt == before.client.expiresAt
      && redis.tokenKey == before.tokenKey && redis.cookieKey == before.cookieKey
    }

    ghost function Now(redis: Redis): Arrival
      reads this, redis
    {
      Arrival(View(), redis.tokenKey, redis.cookieKey)
    }

    static predicate HasFresh(cl: Client, now: int) { cl.token.Some? && now < cl.expiresAt }

    // What a call that was granted the lock comes to, its GET being answered at time `at`: the
    // token found in Redis, or that of a login, or an exception.
    ghost predicate Answered(before: Arrival, at: int, w: World, r: Reply<Token>, redis: Redis)
      reads this, redis
    {
      var found := FoundAt(before.tokenKey, at, w);
      var login := MissedAt(before.tokenKey, at, w) + w.login.delay;
      if found.Raise? then r == Raise && Untouched(before, redis)
      else if found.value.Some? then
        && r == Answer(found.value.value) && Adopted(before.tokenKey, at, w)
        && redis.tokenKey == before.tokenKey && redis.cookieKey == before.cookieKey
      else
        && LoginEnds(w, Token(w.session, login + w.mint, w.goodUntil), r, redis, before.tokenKey, before.cookieKey)
        && (Lifetime(w).None? ==> Untouched(before, redis))
    }

    // What a call comes to that did not take the fast path.
    ghost predicate Waited(start: int, w: World, r: Reply<Token>, redis: Redis)
      reads this, redis
    {
      var granted := start + w.queue.delay;
      if w.queue.reply.Raise? then r == Raise && Untouched(w.arrival, redis)
      else if HasFresh(w.arrival.client, granted) then
        r == Answer(w.arrival.client.token.value) && Untouched(w.arrival, redis)
      else Answered(w.arrival, granted + w.get.delay, w, r, redis)
    }

    // Whether such a call logs in.
    static ghost predicate LogsIn(start: int, w: World) {
      var granted := start + w.queue.delay;
      && w.queue.reply.Answer? && !HasFresh(w.arrival.client, granted)
      && FoundAt(w.arrival.tokenKey, granted + w.get.delay, w) == Answer(None)
    }

    // While c waits for the lock, others take the system to what the call finds then. Nobody
    // else holds the lock when it is granted; a cancelled wait may end at any time.
    static ghost predicate Arrives(s: State, others: seq<Step>, c: nat, w: World) {
      var t := Exec(Next(s, Enter(c)), others);
      && InRange(t, c) && t.calls[c].Waiting? && t.now == s.now + w.queue.delay && t.logins == w.session
      && w.arrival == Arrival(ClientOf(t, c), t.tokenKey, t.cookieKey)
      && (if w.queue.reply.Answer? then w.arrival.client.lock == None else w.arrival.client.lock != Some(c))
    }

    // One whole call of get_access_token, whatever others do while it waits for the lock. If a
    // fresh token is cached, the call returns it. If not, it asks again under the lock; then it
    // adopts what is in Redis; then it logs in; and it raises exactly if an await that it reaches
    // raises. It never keeps the lock. What it returned, cached and wrote is what some schedule
    // of the protocol returns, caches and writes; so from a state the system can be in, the token
    // it returns is young enough.
    method GetAccessToken(ghost s: State, c: nat, redis: Redis, start: int, w: World, ghost others: seq<Step>)
      returns (r: Reply<Token>, ghost t: State)
      requires Represents(s, c, redis) && s.now == start && s.calls[c].Idle? && lock != Some(c)
      requires !HasFresh(View(), start) ==> Arrives(s, others, c, w)
      modifies this, redis
      ensures if HasFresh(old(View()), start)
              then r == Answer(old(accessToken).value) && Untouched(old(Now(redis)), redis) && t.logins == s.logins
              else Waited(start, w, r, redis) && t.logins == w.session + if LogsIn(start, w) then 1 else 0
      ensures Leads(s, t) && Represents(t, c, redis) && lock != Some(c) && Ended(t, c, r)
      ensures !HasFresh(old(View()), start) ==> EndedOnTime(t.calls[c], w)
      ensures Reachable(s) ==> Reachable(t)
      ensures Reachable(s) && r.Answer? && Paired(old(source)) && Paired(w.arrival.client.source) ==>
                YoungEnough(t.calls[c], margin)
    {
      hide Next, Local, Ready, Reachable, YoungEnough, Waited, LogsIn;
      ghost var before := source;
      r, t := Serve(s, c, redis, start, w, others);
      if Reachable(s) {
        LeadsReach(s, t);
        if Paired(before) && Paired(w.arrival.client.source) && r.Answer? {
          ReturnedAge(t, c);
        }
      }
    }

    method Serve(ghost s: State, c: nat, redis: Redis, start: int, w: World, ghost others: seq<Step>)
      returns (r: Reply<Token>, ghost t: State)
      requires Represents(s, c, redis) && s.now == start && s.calls[c].Idle? && lock != Some(c)
      requires !HasFresh(View(), start) ==> Arrives(s, others, c, w)
      modifies this, redis
      ensures if HasFresh(old(View()), start)
              then r == Answer(old(accessToken).value) && Untouched(old(Now(redis)), redis) && t.logins == s.logins
              else Waited(start, w, r, redis) && t.logins == w.session + if LogsIn(start, w) then 1 else 0
      ensures Leads(s, t) && Represents(t, c, redis) && lock != Some(c) && Ended(t, c, r)
      ensures !HasFresh(old(View()), start) ==> EndedOnTime(t.calls[c], w)
      ensures Paired(old(source)) && Paired(w.arrival.client.source) ==> Paired(source)
    {
      hide Next, Local, Ready, FoundAt, MissedAt, Adopted, LoginEnds, Lifetime, Exec, Answered, HoldsLogin, Written;
      t := s;
      LeadsHere(s);
      var hit := FastPath(t, c, redis, start);
      t := Go(s, t, Enter(c));
      if hit.Some? { return Answer(hit.value), t; }
      t := Resume(s, t, c, redis, w, others);
      if w.queue.reply.Raise? {
        GiveUp(t, c, redis);
        t := Go(s, t, Fail(c));
        return Raise, t;
      }
      r, t := Granted(s, t, c, redis, start + w.queue.delay, w);
    }

    // Lines 83-98: look again under the lock, then refresh.
    method Granted(ghost s: State, ghost before: State, c: nat, redis: Redis, start: int, w: World)
      returns (r: Reply<Token>, ghost t: State)
      requires Leads(s, before) && Represents(before, c, redis) && before.now == start && before.calls[c].Waiting?
      requires lock == None && w.session == before.logins
      modifies this, redis
      ensures Leads(s, t) && Represents(t, c, redis) && lock == None && Ended(t, c, r) && EndedOnTime(t.calls[c], w)
      ensures Paired(old(source)) ==> Paired(source)
      ensures if HasFresh(old(View()), start)
              then r == Answer(old(accessToken).value) && Untouched(old(Now(redis)), redis) && t.logins == w.session
              else Answered(old(Now(redis)), start + w.get.delay, w, r, redis)
                   && t.logins == w.session
                      + if FoundAt(old(redis.tokenKey), start + w.get.delay, w) == Answer(None) then 1 else 0
    {
      hide Next, Local, Ready, FoundAt, MissedAt, Adopted, LoginEnds, Lifetime;
      var hit := Recheck(before, c, redis, start);
      t := Go(s, before, Acquire(c));
      if hit.Some? { return Answer(hit.value), t; }
      r, t := RefreshUnderLock(s, t, c, redis, start, w);
    }

    // If nobody intervenes and the lock is free, the call finds what it left.
    lemma AloneArrives(s: State, c: nat, redis: Redis, w: World)
      requires Represents(s, c, redis) && s.calls[c].Idle? && lock == None && !HasFresh(View(), s.now)
      requires w.arrival == Now(redis) && w.session == s.logins
      ensures Arrives(s, [Tick(w.queue.delay)], c, w)
    {
      var t, wait := Next(s, Enter(c)), [Tick(w.queue.delay)];
      assert Local(s, Enter(c)) == Pair(Waiting, ClientOf(s, c));
      assert Enabled(s, Enter(c));
      assert wait[..0] == [] && Exec(t, wait[..0]) == t && wait[|wait| - 1] == Tick(w.queue.delay);
      assert Exec(t, wait) == Next(t, Tick(w.queue.delay));
      assert t.calls[c] == Waiting;
      assert ClientOf(t, c) == ClientOf(s, c);
      var u := Exec(t, wait);
      assert u == t.(now := t.now + w.queue.delay);
      assert InRange(u, c) && u.calls[c].Waiting?;
      assert u.now == s.now + w.queue.delay && u.logins == w.session;
      assert w.arrival == Arrival(ClientOf(u, c), u.tokenKey, u.cookieKey);
    }

    // The coroutine runs again: the object and the keys are what others have made of them.
    method Resume(ghost s: State, ghost before: State, c: nat, redis: Redis, w: World, ghost others: seq<Step>)
      returns (ghost t: State)
      requires Leads(s, before) && Represents(before, c, redis)
      requires before == Next(s, Enter(c)) && Arrives(s, others, c, w)
      modifies this, redis
      ensures Leads(s, t) && Represents(t, c, redis) && t == Exec(before, others)
      ensures Now(redis) == w.arrival
    {
      hide Next, Exec;
      t := Exec(before, others);
      assert before.margin == t.margin by {
        ExecKeepsMargin(before, others);
      }
      LeadsOn(s, before, others);
      var found := w.arrival.client;
      accessToken, expiresAt, jar, lock, source := found.token, found.expiresAt, found.jar, found.lock, found.source;
      redis.tokenKey, redis.cookieKey := w.arrival.tokenKey, w.arrival.cookieKey;
    }

    // Lines 89-98, under the lock.
    method RefreshUnderLock(ghost s: State, ghost before: State, c: nat, redis: Redis, start: int, w: World)
      returns (r: Reply<Token>, ghost t: State)
      requires Leads(s, before) && Represents(before, c, redis) && before.now == start && before.calls[c].Reading?
      requires w.session == before.logins
      modifies this, redis
      ensures Leads(s, t) && Represents(t, c, redis) && lock == None && Ended(t, c, r) && EndedOnTime(t.calls[c], w)
      ensures Paired(old(source)) ==> Paired(source)
      ensures Answered(old(Now(redis)), start + w.get.delay, w, r, redis)
      ensures t.logins
           == w.session + if FoundAt(old(redis.tokenKey), start + w.get.delay, w) == Answer(None) then 1 else 0
    {
      hide Next, Local, Ready, FoundAt, MissedAt, Lifetime;
      var cached, now;
      cached, now, t := ReadCachedToken(s, before, c, redis, start, w);
      if cached.Raise? { return Raise, t; }
      if cached.value.Some? { return Answer(cached.value.value), t; }
      r, t := LoginAndAuthorize(s, t, c, redis, now, w);
    }

    // Lines 100-121, then 91-94: any of the three reads may raise, under the lock.
    method ReadCachedToken(ghost s: State, ghost before: State, c: nat, redis: Redis, start: int, w: World)
      returns (cached: Reply<Option<Token>>, now: int, ghost t: State)
      requires Leads(s, before) && Represents(before, c, redis) && before.now == start && before.calls[c].Reading?
      modifies this
      ensures Leads(s, t) && Represents(t, c, redis) && t.now == now && t.logins == before.logins
      ensures Paired(old(source)) ==> Paired(source)
      ensures cached == FoundAt(old(redis.tokenKey), start + w.get.delay, w)
      ensures cached == Answer(None) ==> now == MissedAt(old(redis.tokenKey), start + w.get.delay, w)
      ensures if cached.Answer? && cached.value.Some? then Adopted(old(redis.tokenKey), start + w.get.delay, w)
              else accessToken == old(accessToken) && expiresAt == old(expiresAt) && source == old(source)
      ensures if cached == Answer(None) then t.calls[c].Missed?
              else lock == None && (t.calls[c].Returned? ==> t.calls[c].checked)
                   && Ended(t, c, if cached.Raise? then Raise else Answer(cached.value.value))
    {
      hide Next, Local, Ready;
      now := start + w.get.delay;
      t := Wait(s, before, c, redis, w.get.delay);
      if w.get.reply.Raise? {
        t := Drop(s, t, c, redis);
        return Raise, now, t;
      }
      var got := ReadToken(t, c, redis, now);
      t := Go(s, t, GetToken(c));
      if got.None? { return Answer(None), now, t; }
      now := now + w.ttl.delay;
      t := Wait(s, t, c, redis, w.ttl.delay);
      if w.ttl.reply.Raise? {
        t := Drop(s, t, c, redis);
        return Raise, now, t;
      }
      var timed := ReadTtl(t, c, redis, now);
      t := Go(s, t, GetTtl(c));
      if timed.None? { return Answer(None), now, t; }
      cached, now, t := RestoreAndAdopt(s, t, c, redis, now, w, got.value);
    }

    // Lines 113-121 and 91-94: the cookies are read, then the token is adopted with them.
    method RestoreAndAdopt(ghost s: State, ghost before: State, c: nat, redis: Redis, start: int, w: World, got: Entry)
      returns (cached: Reply<Option<Token>>, now: int, ghost t: State)
      requires Leads(s, before) && Represents(before, c, redis) && before.now == start
               && before.calls[c] == GotTtl(got, got, start)
      modifies this
      ensures Leads(s, t) && Represents(t, c, redis) && t.now == now && t.logins == before.logins
      ensures cached == if w.jar.reply.Raise? then Raise else Answer(Some(got.value.token))
      ensures if cached.Raise? then accessToken == old(accessToken) && expiresAt == old(expiresAt)
              && source == old(source)
              else accessToken == Some(got.value.token)
                   && expiresAt == start + w.jar.delay + w.adopt + SECOND * TtlReply(Some(got), start)
      ensures Paired(old(source)) ==> Paired(source)
      ensures lock == None && (t.calls[c].Returned? ==> t.calls[c].checked)
      ensures Ended(t, c, if cached.Raise? then Raise else Answer(cached.value.value))
    {
      hide Next, Local, Ready, TtlReply, Live;
      now := start + w.jar.delay;
      t := Wait(s, before, c, redis, w.jar.delay);
      if w.jar.reply.Raise? {
        t := Drop(s, t, c, redis);
        return Raise, now, t;
      }
      var cookies := ReadCookies(t, c, redis, now);
      t := Go(s, t, GetCookies(c));
      now := now + w.adopt;
      t := Wait(s, t, c, redis, w.adopt);
      var token := AdoptCached(t, c, redis, got, got, start, cookies, now);
      t := Go(s, t, Adopt(c));
      cached := Answer(Some(token));
    }

    // Time passes at an await.
    lemma Wait(s: State, before: State, c: nat, redis: Redis, dt: nat) returns (t: State)
      requires Leads(s, before) && Represents(before, c, redis)
      ensures Leads(s, t) && Represents(t, c, redis) && t == before.(now := before.now + dt)
    {
      hide Next;
      t := Go(s, before, Tick(dt));
    }

    // An exception under the lock.
    method Drop(ghost s: State, ghost before: State, c: nat, redis: Redis) returns (ghost t: State)
      requires Leads(s, before) && Represents(before, c, redis) && Holding(before.calls[c])
      modifies this`lock
      ensures Leads(s, t) && Represents(t, c, redis) && lock == None && t.calls[c] == Raised
      ensures t.now == before.now && t.logins == before.logins
    {
      hide Next, Local, Ready;
      Abandon(before, c, redis);
      t := Go(s, before, Fail(c));
    }

    // Lines 123-144, then the return; an exception anywhere leaves through the lock.
    method LoginAndAuthorize(ghost s: State, ghost before: State, c: nat, redis: Redis, start: int, w: World)
      returns (r: Reply<Token>, ghost t: State)
      requires Leads(s, before) && Represents(before, c, redis) && before.now == start && before.calls[c].Missed?
      requires w.session == before.logins
      modifies this, redis
      ensures Leads(s, t) && Represents(t, c, redis) && lock == None && Ended(t, c, r) && EndedOnTime(t.calls[c], w)
      ensures t.logins == before.logins + 1
      ensures LoginEnds(w, Token(w.session, start + w.login.delay + w.mint, w.goodUntil), r, redis,
                        old(redis.tokenKey), old(redis.cookieKey))
      ensures Lifetime(w).None? ==>
                  accessToken == old(accessToken) && expiresAt == old(expiresAt) && source == old(source)
      ensures Paired(old(source)) ==> Paired(source)
    {
      hide Next, Local, Ready;
      t := before;
      ClearJar(t, c, redis);
      t := Go(s, t, BeginLogin(c));
      t := Wait(s, t, c, redis, w.login.delay);
      if w.login.reply.Raise? {
        t := Drop(s, t, c, redis);
        return Raise, t;
      }
      r, t := Authorize(s, t, c, redis, start + w.login.delay, w, w.session);
    }

    // The token is minted some time after the login; its lifetime comes with the redirect, or
    // after another round trip, or not at all.
    method Authorize(ghost s: State, ghost before: State, c: nat, redis: Redis, start: int, w: World, login: nat)
      returns (r: Reply<Token>, ghost t: State)
      requires Leads(s, before) && Represents(before, c, redis) && before.now == start
               && before.calls[c] == LoggingIn(login)
      requires w.login.reply.Answer?
      modifies this, redis
      ensures Leads(s, t) && Represents(t, c, redis) && lock == None && Ended(t, c, r) && EndedOnTime(t.calls[c], w)
      ensures t.logins == before.logins
      ensures LoginEnds(w, Token(login, start + w.mint, w.goodUntil), r, redis, old(redis.tokenKey),
                        old(redis.cookieKey))
      ensures Lifetime(w).None? ==>
                  accessToken == old(accessToken) && expiresAt == old(expiresAt) && source == old(source)
      ensures Paired(old(source)) ==> Paired(source)
    {
      hide Next, Local, Ready;
      ReceiveLogin(before, c, redis, login, w.login.reply.value);
      t := Go(s, before, LoginReply(c, w.login.reply.value));
      t := Wait(s, t, c, redis, w.mint);
      var token := Token(login, start + w.mint, w.goodUntil);
      AwaitMint(t, c, redis, login, w.goodUntil);
      t := Go(s, t, Mint(c, w.goodUntil));
      var now := start + w.mint + w.authorize.delay;
      t := Wait(s, t, c, redis, w.authorize.delay);
      if w.authorize.reply.Raise? {
        t := Drop(s, t, c, redis);
        return Raise, t;
      }
      r, t := Obtain(s, t, c, redis, now, w, token);
    }

    // Lines 131-144, from the redirect on.
    method Obtain(ghost s: State, ghost before: State, c: nat, redis: Redis, start: int, w: World, token: Token)
      returns (r: Reply<Token>, ghost t: State)
      requires Leads(s, before) && Represents(before, c, redis) && before.now == start
               && before.calls[c] == Minted(token)
      requires w.login.reply.Answer? && w.authorize.reply.Answer? && token.issuedAt == start - w.authorize.delay
      modifies this, redis
      ensures Leads(s, t) && Represents(t, c, redis) && lock == None && Ended(t, c, r) && EndedOnTime(t.calls[c], w)
      ensures t.logins == before.logins
      ensures LoginEnds(w, token, r, redis, old(redis.tokenKey), old(redis.cookieKey))
      ensures Lifetime(w).None? ==>
                  accessToken == old(accessToken) && expiresAt == old(expiresAt) && source == old(source)
      ensures Paired(old(source)) ==> Paired(source)
    {
      hide Next, Local, Ready, Live, TtlReply, EffectiveTtl, Fresh, Merge, HoldsLogin, Written;
      var (expiresIn, names) := w.authorize.reply.value;
      if expiresIn.Some? {
        r, t := CacheAndPublish(s, before, c, redis, start, w, token, expiresIn, names,
            AuthorizeReply(c, expiresIn, names));
      } else {
        ReceiveToken(before, c, redis, token, names);
        t := Go(s, before, AuthorizeReply(c, None, names));
        r, t := Introspect(s, t, c, redis, start, w, token);
      }
    }

    // Lines 132-144, when the redirect stated no lifetime.
    method Introspect(ghost s: State, ghost before: State, c: nat, redis: Redis, start: int, w: World, token: Token)
      returns (r: Reply<Token>, ghost t: State)
      requires Leads(s, before) && Represents(before, c, redis) && before.now == start
      requires before.calls[c] == Introspecting(token) && token.issuedAt == start - w.authorize.delay
      requires w.login.reply.Answer? && w.authorize.reply.Answer? && w.authorize.reply.value.0.None?
      modifies this, redis
      ensures Leads(s, t) && Represents(t, c, redis) && lock == None && Ended(t, c, r) && EndedOnTime(t.calls[c], w)
      ensures t.logins == before.logins
      ensures LoginEnds(w, token, r, redis, old(redis.tokenKey), old(redis.cookieKey))
      ensures Lifetime(w).None? ==>
                  accessToken == old(accessToken) && expiresAt == old(expiresAt) && source == old(source)
      ensures Paired(old(source)) ==> Paired(source)
    {
      hide Next, Local, Ready, Live, TtlReply, EffectiveTtl, Fresh, Merge, HoldsLogin, Written;
      t := Wait(s, before, c, redis, w.introspect.delay);
      var now := start + w.introspect.delay;
      if w.introspect.reply.Raise? {
        t := Drop(s, t, c, redis);
        return Raise, t;
      }
      var (stated, names) := w.introspect.reply.value;
      r, t := CacheAndPublish(s, t, c, redis, now, w, token, stated, names, IntrospectReply(c, stated, names));
    }

    // Lines 134-144, once the lifetime is known.
    method CacheAndPublish(ghost s: State, ghost before: State, c: nat, redis: Redis, start: int, w: World,
                           token: Token,
                           expiresIn: Option<int>, names: set<string>, ghost st: Step)
      returns (r: Reply<Token>, ghost t: State)
      requires Leads(s, before) && Represents(before, c, redis) && before.now == start
      requires (before.calls[c] == Minted(token) && expiresIn.Some? && st == AuthorizeReply(c, expiresIn, names))
            || (before.calls[c] == Introspecting(token) && st == IntrospectReply(c, expiresIn, names))
      modifies this, redis
      ensures Leads(s, t) && Represents(t, c, redis) && lock == None && Ended(t, c, r) && t.logins == before.logins
      ensures r.Answer? ==> !t.calls[c].checked && t.calls[c].at == start + PublishTime(w)
      ensures r == if w.put.outcome.Stored? && w.putJar.outcome.Stored? then Answer(token) else Raise
      ensures source.ByLogin? && source.refresh.token == token && source.refresh.lifetime == expiresIn.GetOr(300)
      ensures source.refresh.cachedAt == start && HoldsLogin(source.refresh)
      ensures Written(redis, source.refresh, start, w, old(redis.tokenKey), old(redis.cookieKey))
    {
      hide Next, Local, Ready, HoldsLogin, Written;
      var refresh := CacheToken(before, c, redis, token, expiresIn, names, start, st);
      t := Go(s, before, st);
      r, t := Publish(s, t, c, redis, start, w, refresh);
    }

    // Lines 142-143: a SET that raises may have taken effect or not; either way the token stays
    // cached in this process.
    method Publish(ghost s: State, ghost before: State, c: nat, redis: Redis, start: int, w: World, refresh: Refresh)
      returns (r: Reply<Token>, ghost t: State)
      requires Leads(s, before) && Represents(before, c, redis) && before.now == start
               && before.calls[c] == PuttingToken(refresh)
      requires HoldsLogin(refresh)
      modifies this`lock, redis
      ensures Leads(s, t) && Represents(t, c, redis) && lock == None && Ended(t, c, r)
      ensures r.Answer? ==> !t.calls[c].checked && t.calls[c].at == start + PublishTime(w)
      ensures t.logins == before.logins
      ensures r == if w.put.outcome.Stored? && w.putJar.outcome.Stored? then Answer(refresh.token) else Raise
      ensures Written(redis, refresh, start, w, old(redis.tokenKey), old(redis.cookieKey)) && HoldsLogin(refresh)
    {
      hide Next, Local, Ready;
      var now := start + w.put.delay;
      t := Wait(s, before, c, redis, w.put.delay);
      if w.put.outcome.Lost? {
        t := Drop(s, t, c, redis);
        return Raise, t;
      }
      StoreToken(t, c, redis, refresh, now);
      t := Go(s, t, PutToken(c));
      t := Wait(s, t, c, redis, w.put.back);
      if w.put.outcome.StoredThenRaised? {
        t := Drop(s, t, c, redis);
        return Raise, t;
      }
      r, t := PublishCookies(s, t, c, redis, now + w.put.back, w, refresh);
    }

    // Line 144, then the return.
    method PublishCookies(ghost s: State, ghost before: State, c: nat, redis: Redis, start: int, w: World,
                          refresh: Refresh)
      returns (r: Reply<Token>, ghost t: State)
      requires Leads(s, before) && Represents(before, c, redis) && before.now == start
               && before.calls[c] == PuttingCookies(refresh)
      requires HoldsLogin(refresh)
      modifies this`lock, redis`cookieKey
      ensures Leads(s, t) && Represents(t, c, redis) && lock == None && Ended(t, c, r)
      ensures r.Answer? ==> !t.calls[c].checked && t.calls[c].at == start + w.putJar.delay + w.putJar.back
      ensures t.logins == before.logins
      ensures r == if w.putJar.outcome.Stored? then Answer(refresh.token) else Raise
      ensures redis.cookieKey
           == if w.putJar.outcome.Lost? then old(redis.cookieKey)
              else Some(Entry(refresh, EffectiveTtl(refresh.lifetime, margin), start + w.putJar.delay))
    {
      hide Next, Local, Ready, EffectiveTtl;
      var now := start + w.putJar.delay;
      t := Wait(s, before, c, redis, w.putJar.delay);
      if w.putJar.outcome.Lost? {
        t := Drop(s, t, c, redis);
        return Raise, t;
      }
      StoreCookies(t, c, redis, refresh, now);
      t := Go(s, t, PutCookies(c));
      t := Wait(s, t, c, redis, w.putJar.back);
      if w.putJar.outcome.StoredThenRaised? {
        t := Drop(s, t, c, redis);
        return Raise, t;
      }
      r := Leave(t, c, redis, now + w.putJar.back);
      t := Go(s, t, Finish(c));
    }
  }

  // Some schedule takes the system from s to t.
  ghost predicate Leads(s: State, t: State) { exists steps :: Exec(s, steps) == t }

  lemma LeadsHere(s: State)
    ensures Leads(s, s)
  {
    assert Exec(s, []) == s;
  }

  lemma Go(s: State, t: State, st: Step) returns (u: State)
    requires Leads(s, t)
    ensures u == Next(t, st) && Leads(s, u)
    ensures u.now == t.now + (if st.Tick? then st.dt else 0)
    ensures !st.BeginLogin? ==> u.logins == t.logins
    ensures st.Tick? ==> u == t.(now := u.now)
  {
    u := Next(t, st);
    var steps :| Exec(s, steps) == t;
    var more := steps + [st];
    assert more[..|more| - 1] == steps;
    assert Exec(s, more) == u;
  }

  lemma LeadsOn(s: State, t: State, others: seq<Step>)
    requires Leads(s, t)
    ensures Leads(s, Exec(t, others))
  {
    var first :| Exec(s, first) == t;
    ExecAppend(s, first, others);
  }

  lemma ExecKeepsMargin(s: State, steps: seq<Step>)
    ensures Exec(s, steps).margin == s.margin
  {
    assert steps[..|steps|] == steps && steps[..0] == [];
    Shape(s, steps, 0, |steps|);
  }

  lemma LeadsReach(s: State, t: State)
    requires Reachable(s) && Leads(s, t)
    ensures Reachable(t)
  {
    var s0, first :| Init(s0) && Exec(s0, first) == s;
    var second :| Exec(s, second) == t;
    ExecAppend(s0, first, second);
  }

  lemma {:induction false} ExecAppend(s0: State, first: seq<Step>, second: seq<Step>)
    ensures Exec(s0, first + second) == Exec(Exec(s0, first), second)
    decreases |second|
  {
    var all := first + second;
    if second == [] {
      assert all == first;
    } else {
      assert all[..|all| - 1] == first + second[..|second| - 1];
      ExecAppend(s0, first, second[..|second| - 1]);
    }
  }
}
