/**
 Safety of the token cache: no token is handed out past its real expiry while the delays
 stay within the refresh margin, only the lock holder writes, one login at a time.
 */
module TokenSafety {
  import opened Common
  import opened TokenProtocol
  import opened TokenInvariant

  /* ----- soundness ----- */

  function TokenOf(src: Source): Token
    requires !src.Unset?
  {
    if src.ByLogin? then src.refresh.token else src.got.value.token
  }

  function RefreshOf(src: Source): Refresh
    requires !src.Unset?
  {
    if src.ByLogin? then src.refresh else src.got.value
  }

  // From the instant OpenIAM minted the token to the instant the login cached it.
  function IssueDelay(src: Source): int
    requires !src.Unset?
  {
    RefreshOf(src).cachedAt - TokenOf(src).issuedAt
  }

  // From caching in the process that logged in to the effect of its SET in Redis.
  function WriteDelay(src: Source): int
    requires !src.Unset?
  {
    if src.ByLogin? then 0 else src.got.setAt - src.got.value.cachedAt
  }

  // From Redis' TTL reply to the adoption by the reading process, with the rounding of that reply.
  function ReadDelay(src: Source): int
    requires !src.Unset?
  {
    if src.ByLogin? then 0 else src.adoptedAt - src.readAt + ROUNDING
  }

  // The value and the time to live were read from the same SET.
  predicate Paired(src: Source) { src.ByRead? ==> src.got == src.timed }

  // What OpenIAM stated, or the fallback, does not exceed how long the token really works.
  predicate Honest(src: Source)
    requires !src.Unset?
  {
    TokenOf(src).issuedAt + SECOND * RefreshOf(src).lifetime <= TokenOf(src).goodUntil
  }

  // The returned token is that of its source. If it passed a freshness test, it is at most this
  // old; if not, it was handed out by its own login.
  predicate YoungEnough(r: Call, margin: int)
    requires r.Returned?
  {
    && !r.source.Unset? && r.token == TokenOf(r.source)
    && (if r.checked
        then r.at < r.token.issuedAt + SECOND * EffectiveTtl(RefreshOf(r.source).lifetime, margin)
                    + IssueDelay(r.source) + WriteDelay(r.source) + ReadDelay(r.source)
        else r.source.ByLogin?)
  }

  // For every interleaving, any number of processes and restarts. The delays enter once; they
  // never add up from reader to reader.
  lemma ReturnedAge(s: State, c: nat)
    requires Reachable(s) && c < |s.calls| && s.calls[c].Returned?
    requires Paired(s.calls[c].source)
    ensures YoungEnough(s.calls[c], s.margin)
  {
    ReachableInv(s);
    assert CallOk(s.calls[c], ClientOf(s, c), s.margin, s.now);
  }

  // The soundness theorem: with an honest lifetime longer than the margin, a token whose
  // value and time to live belong together is never returned past its real expiry, provided
  // issue, write and read delay together fit in the margin, or, for the caller that logged
  // in and returns without looking at the clock again, it returns within that lifetime.
  lemma NeverServedExpired(s: State, c: nat)
    requires Reachable(s) && c < |s.calls| && s.calls[c].Returned?
    requires var r := s.calls[c]; !r.source.Unset? && Paired(r.source) && Honest(r.source)
    requires RefreshOf(s.calls[c].source).lifetime > s.margin
    requires var r := s.calls[c];
             if r.checked
             then IssueDelay(r.source) + WriteDelay(r.source) + ReadDelay(r.source) <= SECOND * s.margin
             else r.at - r.token.issuedAt < SECOND * RefreshOf(r.source).lifetime
    requires s.margin >= 0
    ensures s.calls[c].at < s.calls[c].token.goodUntil
  {
    ReturnedAge(s, c);
  }

  /* ----- who writes, and when ----- */

  // Two coroutines of one process are never both inside the lock.
  lemma MutualExclusion(s: State, c: nat, d: nat)
    requires Reachable(s)
    requires InRange(s, c) && InRange(s, d) && s.owner[c] == s.owner[d]
    requires Holding(s.calls[c]) && Holding(s.calls[d])
    ensures c == d
  {
    ReachableInv(s);
    assert LockOk(s, c) && LockOk(s, d);
  }

  // Short of a restart, the cached pair changes only by a coroutine of that process that
  // holds the lock, and then token and expiry are replaced together, from one source.
  lemma OnlyHolderWrites(s: State, st: Step, p: nat)
    requires Reachable(s) && p < |s.clients| && st != Restart(p)
    requires PairAt(Next(s, st), p) != PairAt(s, p)
    ensures var cl := Next(s, st).clients[p];
            && Actor(st).Some? && s.clients[p].lock == Actor(st)
            && cl.token == SourceToken(cl.source) && cl.expiresAt == StoredExpiry(cl.source, s.margin)
            && (cl.source.ByLogin? ==> cl.source.refresh.cachedAt == s.now)
            && (cl.source.ByRead? ==> cl.source.adoptedAt == s.now)
  {
    hide Local, Ready, CallOk;
    ReachableInv(s);
    if Actor(st).Some? {
      LocalOk(s, st);
      LocalWrites(s, st);
      assert LockOk(s, st.c);
    }
  }

  // The token and expiry a process holds.
  function PairAt(s: State, p: nat): (Option<Token>, int) {
    if p < |s.clients| then (s.clients[p].token, s.clients[p].expiresAt) else (None, 0)
  }

  // The two fields are assigned in three segments only, each at the current instant.
  lemma LocalWrites(s: State, st: Step)
    requires Inv(s) && Actor(st).Some? && Enabled(s, st)
    ensures var old', new' := ClientOf(s, st.c), Local(s, st).cl;
            || (old'.token == new'.token && old'.expiresAt == new'.expiresAt && old'.source == new'.source)
            || (old'.lock == Some(st.c) && new'.source.ByLogin? && new'.source.refresh.cachedAt == s.now)
            || (old'.lock == Some(st.c) && new'.source.ByRead? && new'.source.adoptedAt == s.now)
  {
    assert LockOk(s, st.c);
  }

  // The assertion at the end of get_access_token never fails: finishing a login returns the
  // token that login cached.
  lemma FinishReturnsOwnToken(s: State, c: nat)
    requires Reachable(s) && Enabled(s, Finish(c))
    ensures Next(s, Finish(c)).calls[c]
         == Returned(s.calls[c].refresh.token, s.now, ByLogin(s.calls[c].refresh), false)
  {
    ReachableInv(s);
    assert CallOk(s.calls[c], ClientOf(s, c), s.margin, s.now);
  }

  // A login starts only after its coroutine, under the lock, found nothing usable in Redis:
  // no live token, or one with less than half a second left.
  lemma LoginOnlyAfterMiss(s: State, c: nat)
    requires Reachable(s) && Enabled(s, BeginLogin(c))
    ensures var m := s.calls[c];
            && ClientOf(s, c).lock == Some(c)
            && (m.seen.None? || m.at + ROUNDING > ExpiresAt(m.seen.value))
  {
    ReachableInv(s);
    assert LockOk(s, c) && CallOk(s.calls[c], ClientOf(s, c), s.margin, s.now);
  }

  /* ----- single flight, over whole runs ----- */

  function StateAt(s0: State, steps: seq<Step>, i: nat): State
    requires i <= |steps|
  {
    Exec(s0, steps[..i])
  }

  predicate Happens(s0: State, steps: seq<Step>, i: nat, st: Step) {
    i < |steps| && steps[i] == st && Enabled(StateAt(s0, steps, i), st)
  }

  lemma StateStep(s0: State, steps: seq<Step>, i: nat)
    requires i < |steps|
    ensures StateAt(s0, steps, i + 1) == Next(StateAt(s0, steps, i), steps[i])
  {
    assert steps[..i + 1][..i] == steps[..i];
  }

  lemma StateAtInv(s0: State, steps: seq<Step>, i: nat)
    requires Init(s0) && i <= |steps|
    ensures Inv(StateAt(s0, steps, i))
  {
    ExecInv(s0, steps[..i]);
  }

  // Sizes, owners and the margin never change; the clock never goes back.
  predicate SameShape(s: State, t: State) {
    && s.owner == t.owner && |s.calls| == |t.calls| && |s.clients| == |t.clients|
    && s.margin == t.margin && s.now <= t.now
  }

  lemma NextShape(s: State, st: Step)
    ensures SameShape(s, Next(s, st))
  {}

  lemma {:induction false} Shape(s0: State, steps: seq<Step>, i: nat, j: nat)
    requires i <= j <= |steps|
    ensures SameShape(StateAt(s0, steps, i), StateAt(s0, steps, j))
    decreases j - i
  {
    if i < j {
      Shape(s0, steps, i, j - 1);
      StateStep(s0, steps, j - 1);
      NextShape(StateAt(s0, steps, j - 1), steps[j - 1]);
    }
  }

  // Coroutine c has started a login and has not yet cached its token.
  predicate LoggingInNow(call: Call) {
    call.LoggingIn? || call.Authorizing? || call.Minted? || call.Introspecting?
  }

  // Step st is the one at which coroutine c caches the token of its login.
  predicate Caches(s: State, st: Step, c: nat) {
    Enabled(s, st) && ((st.AuthorizeReply? && st.c == c && st.expiresIn.Some?) || (st.IntrospectReply? && st.c == c))
  }

  // The process of c serves `token` until `until`, and nobody in it is about to replace it.
  predicate Serving(s: State, p: nat, token: Token, until: int) {
    && p < |s.clients|
    && s.clients[p].token == Some(token) && s.clients[p].expiresAt == until
    && (s.clients[p].lock.Some? ==>
          InRange(s, s.clients[p].lock.value) && s.owner[s.clients[p].lock.value] == p
              && Publishing(s.calls[s.clients[p].lock.value]))
  }

  // Interrupted: the login of c failed or its process restarted.
  predicate Interrupts(s: State, st: Step, c: nat) {
    Enabled(s, st) && InRange(s, c) && (st == Fail(c) || st == Restart(s.owner[c]))
  }

  lemma LoginStays(s: State, st: Step, c: nat)
    requires Inv(s) && InRange(s, c) && LoggingInNow(s.calls[c])
    requires !Interrupts(s, st, c) && !Caches(s, st, c)
    ensures InRange(Next(s, st), c) && LoggingInNow(Next(s, st).calls[c])
  {
    hide Local, CallOk, ClientOk, EntryOk;
    if Actor(st) == Some(c) && Enabled(s, st) {
      LoginStaysLocal(s, st);
    }
  }

  lemma LoginStaysLocal(s: State, st: Step)
    requires Actor(st).Some? && Enabled(s, st) && LoggingInNow(s.calls[st.c])
    requires !st.Fail? && !Caches(s, st, st.c)
    ensures LoggingInNow(Local(s, st).call)
  {}

  lemma CachingServes(s: State, st: Step, c: nat)
    requires Inv(s) && Caches(s, st, c)
    ensures var t := Next(s, st); var p := s.owner[c];
            Serving(t, p, s.calls[c].token, PairAt(t, p).1)
  {
    assert LockOk(s, c);
  }

  // What the coroutines of a process can do while it serves a fresh token.
  lemma ServingLocal(s: State, st: Step, p: nat, token: Token, until: int)
    requires Inv(s) && Serving(s, p, token, until) && s.now < until
    requires Actor(st).Some? && Enabled(s, st) && s.owner[st.c] == p
    ensures !st.BeginLogin?
    ensures var pair := Local(s, st);
            && pair.cl.token == Some(token) && pair.cl.expiresAt == until
            && (pair.call.Returned? ==> pair.call.token == token)
            && (pair.cl.lock.Some? ==>
                if pair.cl.lock.value == st.c then Publishing(pair.call) else pair.cl.lock == s.clients[p].lock)
  {
    assert LockOk(s, st.c) && CallOk(s.calls[st.c], ClientOf(s, st.c), s.margin, s.now);
  }

  // Until its expiry nothing but a restart dislodges a served token: not a step of the process,
  lemma ServingStaysOwn(s: State, st: Step, p: nat, token: Token, until: int)
    requires Inv(s) && Serving(s, p, token, until) && s.now < until
    requires Actor(st).Some? && Enabled(s, st) && s.owner[st.c] == p
    ensures Serving(Next(s, st), p, token, until)
  {
    ServingLocal(s, st, p, token, until);
    hide Local, Ready, CallOk, ClientOk, EntryOk, Inv;
    var t, pair := Next(s, st), Local(s, st);
    assert t.clients[p] == pair.cl && t.calls[st.c] == pair.call;
    hide Next, Publishing;
  }

  // not one of another process, and not the clock or an unrelated reply.
  lemma ServingStaysOther(s: State, st: Step, p: nat, token: Token, until: int)
    requires Inv(s) && Serving(s, p, token, until) && st != Restart(p) && Enabled(s, st)
    requires Actor(st).Some? ==> s.owner[st.c] != p
    ensures Serving(Next(s, st), p, token, until)
  {
    hide Local, Ready, CallOk, ClientOk, EntryOk, Publishing;
    if s.clients[p].lock.Some? {
      assert LockOk(s, s.clients[p].lock.value);
    }
  }

  lemma ServingStays(s: State, st: Step, p: nat, token: Token, until: int)
    requires Inv(s) && Serving(s, p, token, until) && s.now < until
    requires st != Restart(p)
    ensures Serving(Next(s, st), p, token, until)
  {
    hide Inv, Serving, Local, Ready;
    if Enabled(s, st) {
      if Actor(st).Some? && s.owner[st.c] == p {
        ServingStaysOwn(s, st, p, token, until);
      } else {
        ServingStaysOther(s, st, p, token, until);
      }
    }
  }

  lemma {:induction false} ServingUntil(s0: State, steps: seq<Step>, k: nat, m: nat, p: nat, token: Token, until: int)
    requires Init(s0) && k <= m <= |steps|
    requires Serving(StateAt(s0, steps, k), p, token, until)
    requires StateAt(s0, steps, m).now < until
    requires forall i :: k <= i < m ==> steps[i] != Restart(p)
    ensures Serving(StateAt(s0, steps, m), p, token, until)
    decreases m - k
  {
    if k < m {
      Shape(s0, steps, m - 1, m);
      ServingUntil(s0, steps, k, m - 1, p, token, until);
      StateAtInv(s0, steps, m - 1);
      StateStep(s0, steps, m - 1);
      ServingStays(StateAt(s0, steps, m - 1), steps[m - 1], p, token, until);
    }
  }

  // A login in progress stays in progress until a step of its own ends it.
  lemma {:induction false} LoginEnds(s0: State, steps: seq<Step>, i: nat, j: nat, c: nat) returns (k: nat)
    requires Init(s0) && i < j <= |steps| && Happens(s0, steps, i, BeginLogin(c))
    requires c < |StateAt(s0, steps, j).calls| ==> !LoggingInNow(StateAt(s0, steps, j).calls[c])
    ensures i < k < j
    ensures var s := StateAt(s0, steps, k); Interrupts(s, steps[k], c) || Caches(s, steps[k], c)
    ensures InRange(StateAt(s0, steps, k), c) && LoggingInNow(StateAt(s0, steps, k).calls[c])
  {
    hide Init, Exec, Local, Caches, LoggingInNow, Inv, Enabled, Next;
    StateAtInv(s0, steps, i);
    StateStep(s0, steps, i);
    StartedLogin(StateAt(s0, steps, i), c);
    k := i + 1;
    while true
      invariant i < k <= j
      invariant InRange(StateAt(s0, steps, k), c) && LoggingInNow(StateAt(s0, steps, k).calls[c])
      decreases j - k
    {
      assert k < j;
      var s := StateAt(s0, steps, k);
      StateAtInv(s0, steps, k);
      StateStep(s0, steps, k);
      if Interrupts(s, steps[k], c) || Caches(s, steps[k], c) {
        return;
      }
      LoginStays(s, steps[k], c);
      KeepsRange(s, steps[k], c);
      k := k + 1;
    }
  }

  lemma StartedLogin(s: State, c: nat)
    requires Enabled(s, BeginLogin(c))
    ensures InRange(Next(s, BeginLogin(c)), c) && LoggingInNow(Next(s, BeginLogin(c)).calls[c])
  {}

  lemma KeepsRange(s: State, st: Step, c: nat)
    requires InRange(s, c)
    ensures InRange(Next(s, st), c)
  {
    hide Local, Ready;
  }

  // At step q coroutine d asked Redis about the token key and was told that there is nothing
  // usable: no live token, or one with less than half a second left.
  predicate FoundNothing(s0: State, steps: seq<Step>, q: nat, d: nat) {
    && (Happens(s0, steps, q, GetToken(d)) || Happens(s0, steps, q, GetTtl(d)))
    && TtlReply(StateAt(s0, steps, q).tokenKey, StateAt(s0, steps, q).now) <= 0
  }

  lemma MissedComesFrom(s: State, st: Step, d: nat)
    requires d < |Next(s, st).calls| && Next(s, st).calls[d].Missed?
    ensures d < |s.calls|
    ensures s.calls[d] == Next(s, st).calls[d]
            || (Enabled(s, st) && (st == GetToken(d) || st == GetTtl(d)) && TtlReply(s.tokenKey, s.now) <= 0)
  {}

  // Behind every login there is such an answer, and its coroutine has kept the lock since.
  lemma MissBehindLogin(s0: State, steps: seq<Step>, j: nat, d: nat) returns (q: nat)
    requires Init(s0) && Happens(s0, steps, j, BeginLogin(d))
    ensures q < j && FoundNothing(s0, steps, q, d)
    ensures forall m :: q < m <= j ==> InRange(StateAt(s0, steps, m), d) && StateAt(s0, steps, m).calls[d].Missed?
  {
    hide Next, Enabled, Exec;
    q := j;
    NextIsReady(StateAt(s0, steps, j), d);
    while true
      invariant 0 <= q <= j
      invariant forall m :: q <= m <= j ==> InRange(StateAt(s0, steps, m), d) && StateAt(s0, steps, m).calls[d].Missed?
      decreases q
    {
      StartsIdle(s0, steps);
      assert StateAt(s0, steps, q).calls[d].Missed?;
      q := q - 1;
      StateStep(s0, steps, q);
      MissedComesFrom(StateAt(s0, steps, q), steps[q], d);
      Shape(s0, steps, q, q + 1);
      if StateAt(s0, steps, q).calls[d] != StateAt(s0, steps, q + 1).calls[d] {
        return;
      }
    }
  }

  lemma NextIsReady(s: State, d: nat)
    ensures Enabled(s, BeginLogin(d)) ==> InRange(s, d) && s.calls[d].Missed?
  {}

  lemma StartsIdle(s0: State, steps: seq<Step>)
    requires Init(s0)
    ensures forall d :: 0 <= d < |StateAt(s0, steps, 0).calls| ==> StateAt(s0, steps, 0).calls[d] == Idle
  {
    assert steps[..0] == [];
  }

  // Step k ends the flight of c: its login failed, its process restarted, or it cached its
  // token, whose stored expiry has been reached by step j.
  predicate EndsFlight(s0: State, steps: seq<Step>, k: nat, j: nat, c: nat) {
    && k < j <= |steps| && c < |s0.owner|
    && (|| Interrupts(StateAt(s0, steps, k), steps[k], c)
        || steps[k] == Restart(s0.owner[c])
        || (Caches(StateAt(s0, steps, k), steps[k], c)
            && PairAt(StateAt(s0, steps, k + 1), s0.owner[c]).1 <= StateAt(s0, steps, j).now))
  }

  // Single flight: between two logins started by one process the first one failed, or the
  // process restarted, or the clock reached the expiry the first one stored; and after that
  // Redis had nothing usable either.
  lemma SingleFlight(s0: State, steps: seq<Step>, i: nat, j: nat, c: nat, d: nat)
    requires Init(s0) && i < j
    requires Happens(s0, steps, i, BeginLogin(c)) && Happens(s0, steps, j, BeginLogin(d))
    requires SameProcess(s0, c, d)
    ensures exists k, q :: i < k < q < j && EndsFlight(s0, steps, k, j, c) && FoundNothing(s0, steps, q, d)
  {
    hide Init, Exec, Next, StateAt, EndsFlight;
    var k := FlightEnds(s0, steps, i, j, c, d);
    var q := MissBehindLogin(s0, steps, j, d);
    assert StateAt(s0, steps, k).calls[d].Missed? && StateAt(s0, steps, k + 1).calls[d].Missed? ==> k < q;
    assert i < k < q < j && EndsFlight(s0, steps, k, j, c) && FoundNothing(s0, steps, q, d);
  }

  // The flight of c ends at a step that d, if it logs in next, is not waiting through.
  lemma FlightEnds(s0: State, steps: seq<Step>, i: nat, j: nat, c: nat, d: nat) returns (k: nat)
    requires Init(s0) && i < j
    requires Happens(s0, steps, i, BeginLogin(c)) && Happens(s0, steps, j, BeginLogin(d))
    requires SameProcess(s0, c, d)
    ensures i < k < j && EndsFlight(s0, steps, k, j, c) && !steps[k].GetToken? && !steps[k].GetTtl?
    ensures InRange(StateAt(s0, steps, k), d) && InRange(StateAt(s0, steps, k + 1), d)
    ensures !StateAt(s0, steps, k).calls[d].Missed? || !StateAt(s0, steps, k + 1).calls[d].Missed?
  {
    hide Init, Exec, Next, Local, Enabled, Inv, StateAt, Serving, LoggingInNow;
    var p := s0.owner[c];
    var last := StateAt(s0, steps, j);
    NotLoggingYet(s0, steps, j, c, d);
    k := LoginEnds(s0, steps, i, j, c);
    if Caches(StateAt(s0, steps, k), steps[k], c) {
      var until := PairAt(StateAt(s0, steps, k + 1), p).1;
      if last.now < until {
        if forall m :: k < m < j ==> steps[m] != Restart(p) {
          NoLoginWhileServed(s0, steps, k, j, c, d);
          assert false;
        }
        var m :| k < m < j && steps[m] == Restart(p);
        k := m;
        RestartIdles(s0, steps, k, c, d);
        return;
      }
    }
    OthersNotIn(s0, steps, k, c, d);
  }

  lemma NoLoginWhileServed(s0: State, steps: seq<Step>, k: nat, j: nat, c: nat, d: nat)
    requires Init(s0) && k < j <= |steps| && Caches(StateAt(s0, steps, k), steps[k], c) && SameProcess(s0, c, d)
    requires forall i :: k < i < j ==> steps[i] != Restart(s0.owner[c])
    requires StateAt(s0, steps, j).now < PairAt(StateAt(s0, steps, k + 1), s0.owner[c]).1
    ensures !Enabled(StateAt(s0, steps, j), BeginLogin(d))
  {
    hide Local, CallOk, Caches;
    assert steps[..0] == [];
    Shape(s0, steps, 0, j);
    ServesFrom(s0, steps, k, j, c);
    StateAtInv(s0, steps, j);
  }

  // When d starts a login, c is not in the middle of one.
  lemma NotLoggingYet(s0: State, steps: seq<Step>, j: nat, c: nat, d: nat)
    requires Init(s0) && SameProcess(s0, c, d) && Happens(s0, steps, j, BeginLogin(d))
    ensures InRange(StateAt(s0, steps, j), c) && !LoggingInNow(StateAt(s0, steps, j).calls[c])
  {
    assert steps[..0] == [];
    Shape(s0, steps, 0, j);
    StateAtInv(s0, steps, j);
    assert LockOk(StateAt(s0, steps, j), c) && LockOk(StateAt(s0, steps, j), d);
  }

  lemma RestartIdles(s0: State, steps: seq<Step>, k: nat, c: nat, d: nat)
    requires Init(s0) && SameProcess(s0, c, d) && k < |steps| && steps[k] == Restart(s0.owner[c])
    ensures InRange(StateAt(s0, steps, k), d) && InRange(StateAt(s0, steps, k + 1), d)
    ensures StateAt(s0, steps, k + 1).calls[d] == Idle
  {
    assert steps[..0] == [];
    Shape(s0, steps, 0, k);
    Shape(s0, steps, 0, k + 1);
    StateStep(s0, steps, k);
  }

  // While c logs in, no other coroutine of its process is inside the lock.
  lemma OthersNotIn(s0: State, steps: seq<Step>, k: nat, c: nat, d: nat)
    requires Init(s0) && SameProcess(s0, c, d) && k < |steps|
    requires InRange(StateAt(s0, steps, k), c) && LoggingInNow(StateAt(s0, steps, k).calls[c])
    ensures InRange(StateAt(s0, steps, k), d) && InRange(StateAt(s0, steps, k + 1), d)
    ensures !StateAt(s0, steps, k).calls[d].Missed?
  {
    assert steps[..0] == [];
    Shape(s0, steps, 0, k);
    Shape(s0, steps, 0, k + 1);
    StateAtInv(s0, steps, k);
    assert LockOk(StateAt(s0, steps, k), c) && LockOk(StateAt(s0, steps, k), d);
  }

  predicate SameProcess(s: State, c: nat, d: nat) {
    c < |s.owner| && d < |s.owner| && s.owner[c] == s.owner[d]
  }

  // From the caching step on, the process serves that token until the clock reaches its expiry.
  lemma ServesFrom(s0: State, steps: seq<Step>, k: nat, m: nat, c: nat)
    requires Init(s0) && k < m <= |steps| && Caches(StateAt(s0, steps, k), steps[k], c)
    requires c < |s0.owner| && forall i :: k < i < m ==> steps[i] != Restart(s0.owner[c])
    requires StateAt(s0, steps, m).now < PairAt(StateAt(s0, steps, k + 1), s0.owner[c]).1
    ensures Serving(StateAt(s0, steps, m), s0.owner[c], StateAt(s0, steps, k).calls[c].token,
                    PairAt(StateAt(s0, steps, k + 1), s0.owner[c]).1)
  {
    Shape(s0, steps, 0, k);
    StateAtInv(s0, steps, k);
    CachingServes(StateAt(s0, steps, k), steps[k], c);
    StateStep(s0, steps, k);
    ServingUntil(s0, steps, k + 1, m, s0.owner[c], StateAt(s0, steps, k).calls[c].token,
                 PairAt(StateAt(s0, steps, k + 1), s0.owner[c]).1);
  }

  // Every caller that queued behind a successful refresh shares it: whatever coroutine of the
  // process returns a token before the stored expiry, short of a restart, returns this one.
  lemma QueuedCallersShareRefresh(s0: State, steps: seq<Step>, k: nat, m: nat, c: nat, d: nat)
    requires Init(s0) && k < m < |steps| && Caches(StateAt(s0, steps, k), steps[k], c)
    requires SameProcess(s0, c, d)
    requires forall i :: k < i <= m ==> steps[i] != Restart(s0.owner[c])
    requires StateAt(s0, steps, m).now < PairAt(StateAt(s0, steps, k + 1), s0.owner[c]).1
    requires Actor(steps[m]) == Some(d) && Enabled(StateAt(s0, steps, m), steps[m])
    ensures !steps[m].BeginLogin?
    ensures d < |StateAt(s0, steps, m + 1).calls|
    ensures var call := StateAt(s0, steps, m + 1).calls[d];
            call.Returned? ==> call.token == StateAt(s0, steps, k).calls[c].token
  {
    hide Local, CallOk;
    Shape(s0, steps, 0, m);
    ServesFrom(s0, steps, k, m, c);
    StateAtInv(s0, steps, m);
    StateStep(s0, steps, m);
    ServingLocal(StateAt(s0, steps, m), steps[m], s0.owner[c], StateAt(s0, steps, k).calls[c].token,
                 PairAt(StateAt(s0, steps, k + 1), s0.owner[c]).1);
  }
}
