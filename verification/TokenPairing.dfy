/**
 The two Redis keys of the token cache belong together: a live token key comes with the
 session cookies of the login that wrote it. This needs one writer at a time and no
 failure between the two SETs; TokenLimits.dfy shows what happens otherwise, and
 TokenExactness.dfy for exactly which schedules it holds.
 */
module TokenPairing {
  import opened Common
  import opened TokenProtocol
  import opened TokenInvariant
  import opened TokenSafety

  // Coroutine d has written the token key and not yet the cookie key.
  predicate InGap(s: State, d: int) { 0 <= d < |s.calls| && s.calls[d].PuttingCookies? }

  // No second writer enters the gap between the two SETs, and nothing fails inside it.
  ghost predicate Exclusive(s: State, st: Step) {
    && (st.PutToken? ==> forall d :: 0 <= d < |s.calls| ==> !InGap(s, d))
    && (st.Fail? ==> !InGap(s, st.c))
    && (st.Restart? ==> forall d :: 0 <= d < |s.calls| && d < |s.owner| && s.owner[d] == st.p ==> !InGap(s, d))
  }

  ghost predicate ExclusiveRun(s0: State, steps: seq<Step>)
    decreases |steps|
  {
    steps == [] || (ExclusiveRun(s0, steps[..|steps| - 1])
        && Exclusive(Exec(s0, steps[..|steps| - 1]), steps[|steps| - 1]))
  }

  // The cookie key was written by the login that wrote the token key, no earlier.
  predicate SameLogin(s: State) {
    && s.tokenKey.Some? && s.cookieKey.Some?
    && s.cookieKey.value.value == s.tokenKey.value.value
    && s.cookieKey.value.ttl == s.tokenKey.value.ttl
    && s.tokenKey.value.setAt <= s.cookieKey.value.setAt
  }

  ghost predicate PairInv(s: State) {
    && (forall d :: InGap(s, d) ==> s.tokenKey.Some? && s.calls[d].refresh == s.tokenKey.value.value)
    && (forall d, e :: InGap(s, d) && InGap(s, e) ==> d == e)
    && (s.tokenKey.Some? ==> (exists d :: InGap(s, d)) || SameLogin(s))
  }

  lemma GapLocal(s: State, st: Step)
    requires Actor(st).Some? && Enabled(s, st)
    ensures var call := Local(s, st).call;
            (call.PuttingCookies? <==> st.PutToken?) && (st.PutToken? ==> call.refresh == s.calls[st.c].refresh)
  {}

  // The gap opens with the first SET, and the writer is alone in it.
  lemma PairOpens(s: State, st: Step)
    requires Inv(s) && PairInv(s) && Exclusive(s, st) && st.PutToken? && Enabled(s, st)
    ensures PairInv(Next(s, st))
  {
    var t := Next(s, st);
    GapLocal(s, st);
    assert forall d :: !InGap(s, d);
    assert forall d :: InGap(t, d) ==> d == st.c || InGap(s, d);
    assert InGap(t, st.c);
  }

  // It closes with the second one, which completes the pair.
  lemma PairCloses(s: State, st: Step)
    requires Inv(s) && PairInv(s) && st.PutCookies? && Enabled(s, st)
    ensures PairInv(Next(s, st))
  {
    var t := Next(s, st);
    GapLocal(s, st);
    assert InGap(s, st.c);
    assert SameLogin(t);
    assert forall d :: InGap(t, d) ==> InGap(s, d);
  }

  lemma PairOther(s: State, st: Step)
    requires Inv(s) && PairInv(s) && Exclusive(s, st) && Enabled(s, st)
    requires !st.PutToken? && !st.PutCookies?
    ensures PairInv(Next(s, st))
  {
    hide Local, CallOk, ClientOk;
    var t := Next(s, st);
    if Actor(st).Some? {
      GapLocal(s, st);
      assert !InGap(s, st.c);
    }
    assert forall d :: InGap(t, d) <==> InGap(s, d);
    assert t.tokenKey == s.tokenKey && t.cookieKey == s.cookieKey;
    assert forall d :: InGap(t, d) ==> t.calls[d] == s.calls[d];
  }

  lemma PairNext(s: State, st: Step)
    requires Inv(s) && PairInv(s) && Exclusive(s, st)
    ensures PairInv(Next(s, st))
  {
    if Enabled(s, st) {
      if st.PutToken? {
        PairOpens(s, st);
      } else if st.PutCookies? {
        PairCloses(s, st);
      } else {
        PairOther(s, st);
      }
    }
  }

  lemma {:induction false} PairRun(s0: State, steps: seq<Step>)
    requires Init(s0) && ExclusiveRun(s0, steps)
    ensures PairInv(Exec(s0, steps))
    decreases |steps|
  {
    if steps != [] {
      var init := steps[..|steps| - 1];
      PairRun(s0, init);
      ExecInv(s0, init);
      PairNext(Exec(s0, init), steps[|steps| - 1]);
    }
  }

  // With one writer at a time and outside the gap, a live token key means a live cookie key
  // of the same login that expires no earlier.
  lemma LiveTokenHasItsCookies(s0: State, steps: seq<Step>)
    requires Init(s0) && ExclusiveRun(s0, steps)
    ensures var s := Exec(s0, steps);
            Live(s.tokenKey, s.now) && (forall d :: 0 <= d < |s.calls| ==> !InGap(s, d)) ==>
              && Live(s.cookieKey, s.now)
              && s.cookieKey.value.value == s.tokenKey.value.value
              && ExpiresAt(s.tokenKey.value) <= ExpiresAt(s.cookieKey.value)
  {
    PairRun(s0, steps);
  }

  /* ----- whose cookies ----- */

  predicate Pure(jar: Jar, login: nat) { forall n :: n in jar ==> jar[n] == Session(login) }

  predicate PureRefresh(r: Refresh) { Pure(r.cookies, r.token.login) }

  function LoginOf(call: Call): nat
    requires LoggingInNow(call)
  {
    if call.LoggingIn? || call.Authorizing? then call.login else call.token.login
  }

  // No reply to another request of the same client sets a cookie while a login is under way.
  ghost predicate Quiet(s: State, st: Step) {
    st.StrayCookie? ==>
      forall c :: 0 <= c < |s.calls| && c < |s.owner| && s.owner[c] == st.p ==> !LoggingInNow(s.calls[c])
  }

  ghost predicate QuietRun(s0: State, steps: seq<Step>)
    decreases |steps|
  {
    steps == [] || (QuietRun(s0, steps[..|steps| - 1]) && Quiet(Exec(s0, steps[..|steps| - 1]), steps[|steps| - 1]))
  }

  predicate PureCall(call: Call, cl: Client) {
    && (LoggingInNow(call) ==> Pure(cl.jar, LoginOf(call)))
    && (call.PuttingToken? || call.PuttingCookies? ==> PureRefresh(call.refresh))
  }

  ghost predicate PureInv(s: State) {
    && (forall c :: 0 <= c < |s.calls| && InRange(s, c) ==> PureCall(s.calls[c], ClientOf(s, c)))
    && (s.cookieKey.Some? ==> PureRefresh(s.cookieKey.value.value))
  }

  lemma PureLocal(s: State, st: Step)
    requires Inv(s) && PureInv(s) && Actor(st).Some? && Enabled(s, st)
    ensures PureCall(Local(s, st).call, Local(s, st).cl)
  {
    assert PureCall(s.calls[st.c], ClientOf(s, st.c));
    assert LockOk(s, st.c);
    hide CallOk, ClientOk, EntryOk, SourceOk, TtlReply, Live, EffectiveTtl, Inv, PureInv;
  }

  // Only the lock holder changes the jar, unrelated replies apart.
  lemma HolderFillsJar(s: State, st: Step)
    requires Inv(s) && Actor(st).Some? && Enabled(s, st)
    ensures Local(s, st).cl.jar != ClientOf(s, st.c).jar ==> ClientOf(s, st.c).lock == Some(st.c)
  {
    assert LockOk(s, st.c);
    hide Inv, CallOk, ClientOk, TtlReply, Live, EffectiveTtl, Merge;
  }

  // A step that is not of d leaves its call alone, or restarts it.
  lemma OtherCall(s: State, st: Step, d: nat)
    requires Enabled(s, st) && Actor(st) != Some(d) && InRange(s, d)
    ensures InRange(Next(s, st), d) && (Next(s, st).calls[d] == s.calls[d] || Next(s, st).calls[d] == Idle)
  {
    hide Local, Ready;
  }

  // And its jar, while it is inside the lock.
  lemma OtherJar(s: State, st: Step, d: nat)
    requires Inv(s) && Enabled(s, st) && Actor(st) != Some(d) && InRange(s, d) && LoggingInNow(s.calls[d])
    requires Quiet(s, st) && st != Restart(s.owner[d])
    ensures InRange(Next(s, st), d) && ClientOf(Next(s, st), d).jar == ClientOf(s, d).jar
  {
    hide Local, Ready, CallOk, ClientOk, EntryOk;
    assert LockOk(s, d);
    if Actor(st).Some? {
      HolderFillsJar(s, st);
    }
  }

  lemma PureOther(s: State, st: Step, d: nat)
    requires Inv(s) && PureInv(s) && Quiet(s, st) && Enabled(s, st) && Actor(st) != Some(d) && InRange(s, d)
    ensures InRange(Next(s, st), d) && PureCall(Next(s, st).calls[d], ClientOf(Next(s, st), d))
  {
    hide Next, Enabled, Inv, PureInv, Quiet, Pure, LoginOf, PureRefresh, PureCall, LoggingInNow;
    PureAt(s, d);
    OtherCall(s, st, d);
    var t := Next(s, st);
    if t.calls[d] == Idle {
      IdleIsPure(ClientOf(t, d));
    } else if LoggingInNow(s.calls[d]) {
      if st == Restart(s.owner[d]) {
        RestartedIsIdle(s, st, d);
      }
      OtherJar(s, st, d);
      SameJarPure(s.calls[d], ClientOf(s, d), ClientOf(t, d));
    } else {
      OutsideIsPure(s.calls[d], ClientOf(s, d), ClientOf(t, d));
    }
  }

  lemma PureAt(s: State, d: nat)
    requires PureInv(s) && InRange(s, d)
    ensures PureCall(s.calls[d], ClientOf(s, d))
  {}

  lemma IdleIsPure(cl: Client)
    ensures PureCall(Idle, cl)
  {}

  lemma SameJarPure(call: Call, cl: Client, other: Client)
    requires PureCall(call, cl) && other.jar == cl.jar
    ensures PureCall(call, other)
  {}

  lemma OutsideIsPure(call: Call, cl: Client, other: Client)
    requires PureCall(call, cl) && !LoggingInNow(call)
    ensures PureCall(call, other)
  {}

  lemma RestartedIsIdle(s: State, st: Step, d: nat)
    requires Enabled(s, st) && InRange(s, d) && st == Restart(s.owner[d])
    ensures InRange(Next(s, st), d) && Next(s, st).calls[d] == Idle
  {}

  lemma PureOwn(s: State, st: Step)
    requires Inv(s) && PureInv(s) && Enabled(s, st) && Actor(st).Some?
    ensures InRange(Next(s, st), st.c) && PureCall(Next(s, st).calls[st.c], ClientOf(Next(s, st), st.c))
    ensures st.PutCookies? ==> PureRefresh(s.calls[st.c].refresh)
  {
    assert PureCall(s.calls[st.c], ClientOf(s, st.c));
    PureLocal(s, st);
    hide Local, Inv, PureInv, Pure, LoginOf;
  }

  lemma PureNext(s: State, st: Step)
    requires Inv(s) && PureInv(s) && Quiet(s, st)
    ensures PureInv(Next(s, st))
  {
    hide Local, Inv, PureCall, PureRefresh, Quiet;
    if Enabled(s, st) {
      var t := Next(s, st);
      if Actor(st).Some? {
        PureOwn(s, st);
      }
      forall d | 0 <= d < |t.calls| && InRange(t, d) ensures PureCall(t.calls[d], ClientOf(t, d)) {
        if Actor(st) != Some(d) {
          PureOther(s, st, d);
        }
      }
    }
  }

  // What is cached as a login's session cookies is that login's cookies and nothing else.
  lemma {:induction false} CachedCookiesAreTheLogins(s0: State, steps: seq<Step>)
    requires Init(s0) && QuietRun(s0, steps)
    ensures PureInv(Exec(s0, steps))
    decreases |steps|
  {
    if steps != [] {
      var init := steps[..|steps| - 1];
      CachedCookiesAreTheLogins(s0, init);
      ExecInv(s0, init);
      PureNext(Exec(s0, init), steps[|steps| - 1]);
    }
  }

  // The names a reply to a request of the login itself sets.
  function CookieNames(st: Step): set<string> {
    if st.LoginReply? || st.AuthorizeReply? || st.IntrospectReply? then st.names else {}
  }

  // A process that adopts a token while it is still in Redis, outside any gap, restores the
  // very cookies of the login that minted it.
  lemma AdopterGetsTheTokensCookies(s0: State, steps: seq<Step>, c: nat)
    requires Init(s0) && ExclusiveRun(s0, steps) && QuietRun(s0, steps)
    requires var s := Exec(s0, steps);
             && Enabled(s, GetCookies(c)) && s.tokenKey == Some(s.calls[c].got) && Live(s.tokenKey, s.now)
             && forall d :: 0 <= d < |s.calls| ==> !InGap(s, d)
    ensures var s := Exec(s0, steps);
            var call := Next(s, GetCookies(c)).calls[c];
            && call.GotCookies? && call.cookies == s.calls[c].got.value.cookies
            && Pure(call.cookies, call.got.value.token.login)
  {
    LiveTokenHasItsCookies(s0, steps);
    CachedCookiesAreTheLogins(s0, steps);
  }

  // Whatever happens between its reading the cookies and its adopting the token, it then returns
  // that token, and its jar holds the whole session of the login behind it.
  lemma AdoptionRestoresSession(s0: State, steps: seq<Step>, i: nat, j: nat, c: nat)
    requires Init(s0) && i < j && Happens(s0, steps, i, GetCookies(c)) && Happens(s0, steps, j, Adopt(c))
    requires ExclusiveRun(s0, steps[..i]) && QuietRun(s0, steps[..i])
    requires var s := StateAt(s0, steps, i);
             && s.tokenKey == Some(s.calls[c].got) && Live(s.tokenKey, s.now)
             && forall d :: 0 <= d < |s.calls| ==> !InGap(s, d)
    requires c < |StateAt(s0, steps, i + 1).calls|
             && StateAt(s0, steps, j).calls[c] == StateAt(s0, steps, i + 1).calls[c]
    ensures InRange(StateAt(s0, steps, j + 1), c) && StateAt(s0, steps, j + 1).calls[c].Returned?
    ensures var r, t := StateAt(s0, steps, i).calls[c].got.value, StateAt(s0, steps, j + 1);
            && t.calls[c].token == r.token
            && forall name :: name in r.cookies ==>
                 name in ClientOf(t, c).jar && ClientOf(t, c).jar[name] == Session(r.token.login)
  {
    hide Exec, ExclusiveRun, QuietRun, Init;
    AdopterGetsTheTokensCookies(s0, steps[..i], c);
    StateStep(s0, steps, i);
    StateStep(s0, steps, j);
    AdoptOutcome(StateAt(s0, steps, j), c);
  }

  lemma AdoptOutcome(s: State, c: nat)
    requires Enabled(s, Adopt(c))
    ensures var t := Next(s, Adopt(c));
            && InRange(t, c) && t.calls[c].Returned? && t.calls[c].token == s.calls[c].got.value.token
            && ClientOf(t, c).jar == ClientOf(s, c).jar + s.calls[c].cookies
  {}
}
