/**
 The token cache of OpenIAMTokenClient as a transition system.

 Any number of processes, each with one client object, share one Redis. Any number of
 coroutines run get_access_token; a coroutine gives up control only at an await, so one
 step below is one await-free segment, or the moment at which Redis or OpenIAM acts on a
 request. Every step may happen at any time its coroutine has reached it, whatever the
 other coroutines and processes do in between.

 Time is one integer clock, in milliseconds, that the processes' monotonic clocks and
 Redis read alike. Redis keeps expiries in milliseconds and its TTL reply is rounded to
 the nearest second.
 */
module TokenProtocol {
  import opened Common

  const SECOND := 1000
  const ROUNDING := 500
  const FALLBACK_TTL := 300

  // A token as OpenIAM knows it: which login minted it, when, and how long it really works.
  datatype Token = Token(login: nat, issuedAt: int, goodUntil: int)

  // Where a cookie in a jar came from: the HTTP replies of a login, or any other reply.
  datatype Origin = Session(login: nat) | Stray
  type Jar = map<string, Origin>

  // What one successful login leaves behind: the token, the lifetime in seconds the client
  // believes it has, when the client cached it, and the cookies it found in its jar then.
  datatype Refresh = Refresh(token: Token, lifetime: int, cachedAt: int, cookies: Jar)

  // A Redis key written with SET ... EX ttl. Both keys hold a part of a Refresh.
  datatype Entry = Entry(value: Refresh, ttl: int, setAt: int)

  function ExpiresAt(e: Entry): int { e.setAt + SECOND * e.ttl }

  predicate Live(key: Option<Entry>, now: int) { key.Some? && now < ExpiresAt(key.value) }

  // Redis' answer to TTL: whole seconds, rounded to nearest, or -2 for a missing key.
  function TtlReply(key: Option<Entry>, now: int): int {
    if Live(key, now) then (ExpiresAt(key.value) - now + ROUNDING) / SECOND else -2
  }

  // How a client came by the token it holds. An adopting reader saw one entry when it asked
  // for the value and one when it asked for the time to live; they need not be the same.
  datatype Source =
    | Unset
    | ByLogin(refresh: Refresh)
    | ByRead(got: Entry, timed: Entry, readAt: int, adoptedAt: int)

  datatype Client = Client(token: Option<Token>, expiresAt: int, jar: Jar, lock: Option<nat>, source: Source)

  const NewClient := Client(None, 0, map[], None, Unset)

  // Where a coroutine stands in get_access_token, with its local variables.
  datatype Call =
    | Idle
    | Waiting
    | Reading
    | GotToken(got: Entry)
    | GotTtl(got: Entry, timed: Entry, readAt: int)
    | GotCookies(got: Entry, timed: Entry, readAt: int, cookies: Jar)
    | Missed(seen: Option<Entry>, at: int)
    | LoggingIn(login: nat)
    | Authorizing(login: nat)
    | Minted(token: Token)
    | Introspecting(token: Token)
    | PuttingToken(refresh: Refresh)
    | PuttingCookies(refresh: Refresh)
    | Published(refresh: Refresh)
    | Returned(token: Token, at: int, source: Source, checked: bool)
    | Raised

  datatype State = State(
    margin: int,
    now: int,
    owner: seq<nat>,
    clients: seq<Client>,
    calls: seq<Call>,
    tokenKey: Option<Entry>,
    cookieKey: Option<Entry>,
    logins: nat)

  datatype Step =
    | Tick(dt: nat)
    | Enter(c: nat)
    | Acquire(c: nat)
    | GetToken(c: nat)
    | GetTtl(c: nat)
    | GetCookies(c: nat)
    | Adopt(c: nat)
    | BeginLogin(c: nat)
    | LoginReply(c: nat, names: set<string>)
    | Mint(c: nat, goodUntil: int)
    | AuthorizeReply(c: nat, expiresIn: Option<int>, names: set<string>)
    | IntrospectReply(c: nat, expiresIn: Option<int>, names: set<string>)
    | PutToken(c: nat)
    | PutCookies(c: nat)
    | Finish(c: nat)
    | Fail(c: nat)
    | Again(c: nat)
    | StrayCookie(p: nat, name: string)
    | Restart(p: nat)

  /* ----- one client ----- */

  function EffectiveTtl(lifetime: int, margin: int): int {
    if lifetime - margin > 1 then lifetime - margin else 1
  }

  predicate Fresh(cl: Client, now: int) { cl.token.Some? && now < cl.expiresAt }

  function Merge(jar: Jar, names: set<string>, origin: Origin): Jar {
    jar + map n | n in names :: origin
  }

  // The segment that stores a token found in Redis, after its cookies were restored.
  function Adopted(cl: Client, got: Entry, timed: Entry, readAt: int, cookies: Jar, now: int): Client {
    Client(Some(got.value.token), now + SECOND * TtlReply(Some(timed), readAt), cl.jar + cookies, None,
           ByRead(got, timed, readAt, now))
  }

  // The segment that stores a token just obtained by a login.
  function Cached(cl: Client, r: Refresh, margin: int): Client {
    cl.(token := Some(r.token), expiresAt := r.cachedAt + SECOND * EffectiveTtl(r.lifetime, margin),
        source := ByLogin(r))
  }

  function Unlocked(cl: Client): Client { cl.(lock := None) }

  /* ----- the whole system ----- */

  predicate InRange(s: State, c: nat) { c < |s.calls| == |s.owner| && s.owner[c] < |s.clients| }

  function ClientOf(s: State, c: nat): Client
    requires InRange(s, c)
  {
    s.clients[s.owner[c]]
  }

  // The coroutine is inside `async with self._lock`.
  predicate Holding(call: Call) {
    !(call.Idle? || call.Waiting? || call.Returned? || call.Raised?)
  }

  // The coroutine a step runs, if it runs one.
  function Actor(st: Step): Option<nat> {
    if st.Tick? || st.StrayCookie? || st.Restart? then None else Some(st.c)
  }

  // The coroutine has reached the point at which this step is its next one.
  predicate Ready(call: Call, cl: Client, st: Step) {
    match st
    case Tick(_) => false
    case StrayCookie(_, _) => false
    case Restart(_) => false
    case Enter(_) => call.Idle?
    case Acquire(_) => call.Waiting? && cl.lock.None?
    case GetToken(_) => call.Reading?
    case GetTtl(_) => call.GotToken?
    case GetCookies(_) => call.GotTtl?
    case Adopt(_) => call.GotCookies?
    case BeginLogin(_) => call.Missed?
    case LoginReply(_, _) => call.LoggingIn?
    case Mint(_, _) => call.Authorizing?
    case AuthorizeReply(_, _, _) => call.Minted?
    case IntrospectReply(_, _, _) => call.Introspecting?
    case PutToken(_) => call.PuttingToken?
    case PutCookies(_) => call.PuttingCookies?
    case Finish(_) => call.Published?
    case Fail(_) => call.Waiting? || Holding(call)
    case Again(_) => call.Returned? || call.Raised?
  }

  predicate Enabled(s: State, st: Step) {
    match Actor(st)
    case Some(c) => InRange(s, c) && Ready(s.calls[c], ClientOf(s, c), st)
    case None => st.StrayCookie? || st.Restart? ==> st.p < |s.clients|
  }

  // A coroutine together with the client object of its process.
  datatype Pair = Pair(call: Call, cl: Client)

  // Lines 80-81 and 86-87: hand out the cached token if it is fresh.
  function Serve(cl: Client, now: int): Pair
    requires cl.token.Some?
  {
    Pair(Returned(cl.token.value, now, cl.source, true), cl)
  }

  // The lifetime of the token is known at last: cache it, then go on to publish it.
  function Cache(cl: Client, token: Token, lifetime: int, names: set<string>, margin: int, now: int): Pair {
    var jar := Merge(cl.jar, names, Session(token.login));
    var r := Refresh(token, lifetime, now, jar);
    Pair(PuttingToken(r), Cached(cl.(jar := jar), r, margin))
  }

  // What one step does to its own coroutine and client.
  function Local(s: State, st: Step): Pair
    requires Actor(st).Some? && Enabled(s, st)
  {
    var call, cl := s.calls[st.c], ClientOf(s, st.c);
    match st
    case Enter(c) => if Fresh(cl, s.now) then Serve(cl, s.now) else Pair(Waiting, cl)
    case Acquire(c) => if Fresh(cl, s.now) then Serve(cl, s.now) else Pair(Reading, cl.(lock := Some(c)))
    case GetToken(_) =>
      Pair(if Live(s.tokenKey, s.now) then GotToken(s.tokenKey.value) else Missed(s.tokenKey, s.now), cl)
    case GetTtl(_) =>
      var usable := TtlReply(s.tokenKey, s.now) > 0;
      Pair(if usable then GotTtl(call.got, s.tokenKey.value, s.now) else Missed(s.tokenKey, s.now), cl)
    case GetCookies(_) =>
      var cookies := if Live(s.cookieKey, s.now) then s.cookieKey.value.value.cookies else map[];
      Pair(GotCookies(call.got, call.timed, call.readAt, cookies), cl)
    case Adopt(_) =>
      var cl' := Adopted(cl, call.got, call.timed, call.readAt, call.cookies, s.now);
      Pair(Returned(call.got.value.token, s.now, cl'.source, true), cl')
    case BeginLogin(_) => Pair(LoggingIn(s.logins), cl.(jar := map[]))
    case LoginReply(_, names) => Pair(Authorizing(call.login), cl.(jar := Merge(cl.jar, names, Session(call.login))))
    case Mint(_, goodUntil) => Pair(Minted(Token(call.login, s.now, goodUntil)), cl)
    case AuthorizeReply(_, expiresIn, names) =>
      if expiresIn.Some?
      then Cache(cl, call.token, expiresIn.value, names, s.margin, s.now)
      else Pair(Introspecting(call.token), cl.(jar := Merge(cl.jar, names, Session(call.token.login))))
    case IntrospectReply(_, expiresIn, names) =>
      Cache(cl, call.token, expiresIn.GetOr(FALLBACK_TTL), names, s.margin, s.now)
    case PutToken(_) => Pair(PuttingCookies(call.refresh), cl)
    case PutCookies(_) => Pair(Published(call.refresh), cl)
    case Finish(_) =>
      // `assert self._access_token is not None`
      if cl.token.Some?
      then Pair(Returned(cl.token.value, s.now, cl.source, false), Unlocked(cl))
      else Pair(Raised, Unlocked(cl))
    case Fail(_) => Pair(Raised, if Holding(call) then Unlocked(cl) else cl)
    case Again(_) => Pair(Idle, cl)
  }

  // SET ... EX of the effective lifetime, at this instant.
  function Written(r: Refresh, margin: int, now: int): Option<Entry> {
    Some(Entry(r, EffectiveTtl(r.lifetime, margin), now))
  }

  function Move(s: State, c: nat, pair: Pair): State
    requires InRange(s, c)
  {
    s.(calls := s.calls[c := pair.call], clients := s.clients[s.owner[c] := pair.cl])
  }

  function Act(s: State, st: Step): State
    requires Actor(st).Some? && Enabled(s, st)
  {
    var r := if s.calls[st.c].PuttingToken? || s.calls[st.c].PuttingCookies? then Some(s.calls[st.c].refresh) else None;
    Move(s, st.c, Local(s, st)).(
      tokenKey := if st.PutToken? then Written(r.value, s.margin, s.now) else s.tokenKey,
      cookieKey := if st.PutCookies? then Written(r.value, s.margin, s.now) else s.cookieKey,
      logins := if st.BeginLogin? then s.logins + 1 else s.logins)
  }

  function Apply(s: State, st: Step): State
    requires Enabled(s, st)
  {
    if Actor(st).Some? then Act(s, st) else
    match st
    case Tick(dt) => s.(now := s.now + dt)
    case StrayCookie(p, name) =>
      var cl := s.clients[p];
      s.(clients := s.clients[p := cl.(jar := Merge(cl.jar, {name}, Stray))])
    case Restart(p) =>
      s.(clients := s.clients[p := NewClient],
         calls := seq(|s.calls|, c requires 0 <= c < |s.calls| =>
           if c < |s.owner| && s.owner[c] == p then Idle else s.calls[c]))
  }

  // A schedule is any sequence of steps; one that is not enabled when its turn comes does nothing.
  function Next(s: State, st: Step): State {
    if Enabled(s, st) then Apply(s, st) else s
  }

  function Exec(s: State, steps: seq<Step>): State {
    if steps == [] then s else Next(Exec(s, steps[..|steps| - 1]), steps[|steps| - 1])
  }

  ghost predicate Init(s: State) {
    && |s.owner| == |s.calls|
    && (forall c :: 0 <= c < |s.calls| ==> s.calls[c] == Idle && s.owner[c] < |s.clients|)
    && (forall p :: 0 <= p < |s.clients| ==> s.clients[p] == NewClient)
    && s.tokenKey == None && s.cookieKey == None
  }

  ghost predicate Reachable(s: State) {
    exists s0, steps :: Init(s0) && Exec(s0, steps) == s
  }
}
