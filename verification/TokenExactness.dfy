/**
 Exactly when the guarantees about the shared keys hold, over every schedule: when a token
 in Redis has its own cookies beside it, when a token and a time to live were read from the
 same SET, and which cookies end up cached as a login's.
 */
module TokenExactness {
  import opened Common
  import opened TokenProtocol
  import opened TokenInvariant
  import opened TokenSafety
  import opened TokenPairing

  /* ----- no two logins are confused ----- */

  // The coroutine is between starting a login and writing its cookies.
  predicate Carries(call: Call) { LoggingInNow(call) || call.PuttingToken? || call.PuttingCookies? }

  function LoginId(call: Call): nat
    requires Carries(call)
  {
    if LoggingInNow(call) then LoginOf(call) else call.refresh.token.login
  }

  function IdOf(e: Entry): nat { e.value.token.login }

  // A login is carried by one coroutine, is not yet in the cookie key, and is in the token key
  // only past the first SET.
  ghost predicate UniqueInv(s: State) {
    IdsBelow(s) && IdsDistinct(s) && CookieIdOk(s.cookieKey, s) && TokenIdOk(s.tokenKey, s)
  }

  ghost predicate IdsBelow(s: State) {
    forall c :: 0 <= c < |s.calls| && Carries(s.calls[c]) ==> LoginId(s.calls[c]) < s.logins
  }

  ghost predicate IdsDistinct(s: State) {
    forall c, d :: 0 <= c < d < |s.calls| && Carries(s.calls[c]) && Carries(s.calls[d]) ==>
      LoginId(s.calls[c]) != LoginId(s.calls[d])
  }

  ghost predicate CookieIdOk(key: Option<Entry>, s: State) {
    key.Some? ==> IdOf(key.value) < s.logins && NotCarried(s, IdOf(key.value))
  }

  ghost predicate TokenIdOk(key: Option<Entry>, s: State) {
    key.Some? ==> IdOf(key.value) < s.logins && NotUnwritten(s, IdOf(key.value))
  }

  ghost predicate NotCarried(s: State, id: nat) {
    forall c :: 0 <= c < |s.calls| && Carries(s.calls[c]) ==> LoginId(s.calls[c]) != id
  }

  // No coroutine is still to write the token of this login.
  ghost predicate NotUnwritten(s: State, id: nat) {
    forall c :: 0 <= c < |s.calls| && Carries(s.calls[c]) && !s.calls[c].PuttingCookies? ==> LoginId(s.calls[c]) != id
  }

  lemma CarriesLocal(s: State, st: Step)
    requires Actor(st).Some? && Enabled(s, st)
    ensures var call, call' := s.calls[st.c], Local(s, st).call;
            && (Carries(call') ==> if st.BeginLogin? then LoginId(call') == s.logins
                                   else Carries(call) && LoginId(call') == LoginId(call)
                                        && (call.PuttingCookies? ==> call'.PuttingCookies?))
            && (st.PutToken? <==> call'.PuttingCookies?) && (st.PutCookies? ==> !Carries(call'))
            && (st.PutToken? || st.PutCookies? ==> Carries(call) && call.refresh.token.login == LoginId(call))
  {}

  // Whoever carries a login after a step carried it before, or has just started it.
  lemma CarriesNext(s: State, st: Step, c: nat)
    requires c < |s.calls| && Carries(Next(s, st).calls[c])
    ensures var call, call' := s.calls[c], Next(s, st).calls[c];
            if Enabled(s, st) && st == BeginLogin(c) then LoginId(call') == s.logins
            else Carries(call) && LoginId(call') == LoginId(call) && (call.PuttingCookies? ==> call'.PuttingCookies?)
                 && (call'.PuttingCookies? && !call.PuttingCookies? ==> Enabled(s, st) && st == PutToken(c))
  {
    if Enabled(s, st) && Actor(st) == Some(c) {
      CarriesLocal(s, st);
    }
  }

  lemma KeysNext(s: State, st: Step)
    requires Enabled(s, st)
    ensures var t := Next(s, st);
            && |t.calls| == |s.calls|
            && t.logins == (if st.BeginLogin? then s.logins + 1 else s.logins)
            && t.tokenKey == (if st.PutToken? then Written(s.calls[st.c].refresh, s.margin, s.now) else s.tokenKey)
            && t.cookieKey == (if st.PutCookies? then Written(s.calls[st.c].refresh, s.margin, s.now) else s.cookieKey)
            && (st.PutToken? ==> s.calls[st.c].PuttingToken? && t.calls[st.c].PuttingCookies?)
            && (st.PutCookies? ==> s.calls[st.c].PuttingCookies? && !Carries(t.calls[st.c]))
  {}

  // Every call after the step carries what it carried before, or a login just started.
  ghost predicate CarriedOn(s: State, st: Step, t: State) {
    && |t.calls| == |s.calls| && t.logins == (if st.BeginLogin? then s.logins + 1 else s.logins)
    && forall c :: 0 <= c < |t.calls| && Carries(t.calls[c]) ==>
         if st == BeginLogin(c) then LoginId(t.calls[c]) == s.logins
         else Carries(s.calls[c]) && LoginId(t.calls[c]) == LoginId(s.calls[c])
              && (s.calls[c].PuttingCookies? ==> t.calls[c].PuttingCookies?)
              && (t.calls[c].PuttingCookies? && !s.calls[c].PuttingCookies? ==> st == PutToken(c))
  }

  lemma CarriedOnNext(s: State, st: Step)
    requires Enabled(s, st)
    ensures CarriedOn(s, st, Next(s, st))
  {
    hide Next, Carries, LoginId;
    KeysNext(s, st);
    var t := Next(s, st);
    forall c | 0 <= c < |t.calls| && Carries(t.calls[c])
      ensures if st == BeginLogin(c) then LoginId(t.calls[c]) == s.logins
              else Carries(s.calls[c]) && LoginId(t.calls[c]) == LoginId(s.calls[c])
                   && (s.calls[c].PuttingCookies? ==> t.calls[c].PuttingCookies?)
                   && (t.calls[c].PuttingCookies? && !s.calls[c].PuttingCookies? ==> st == PutToken(c))
    {
      CarriesNext(s, st, c);
    }
  }

  lemma IdsNext(s: State, st: Step, t: State)
    requires IdsBelow(s) && IdsDistinct(s) && CarriedOn(s, st, t)
    ensures IdsBelow(t) && IdsDistinct(t)
  {
    hide Carries, LoginId;
  }

  lemma OldKeysNext(s: State, st: Step, t: State)
    requires CarriedOn(s, st, t)
    ensures CookieIdOk(s.cookieKey, s) ==> CookieIdOk(s.cookieKey, t)
    ensures TokenIdOk(s.tokenKey, s) ==> TokenIdOk(s.tokenKey, t)
  {
    hide Carries, LoginId;
  }

  // What coroutine c has just written is carried by nobody else.
  lemma NewKeyNext(s: State, st: Step, t: State, c: nat, e: Entry)
    requires IdsBelow(s) && IdsDistinct(s) && CarriedOn(s, st, t) && !st.BeginLogin?
    requires c < |s.calls| && Carries(s.calls[c]) && LoginId(s.calls[c]) == IdOf(e)
    ensures t.calls[c].PuttingCookies? ==> TokenIdOk(Some(e), t)
    ensures !Carries(t.calls[c]) ==> CookieIdOk(Some(e), t)
  {
    hide Carries, LoginId;
    forall d | 0 <= d < |t.calls| && Carries(t.calls[d]) && LoginId(t.calls[d]) == IdOf(e) ensures d == c {
      assert LoginId(s.calls[d]) == LoginId(s.calls[c]);
    }
  }

  lemma UniqueNext(s: State, st: Step)
    requires UniqueInv(s)
    ensures UniqueInv(Next(s, st))
  {
    hide Next, Carries, LoginId, IdsBelow, IdsDistinct, CookieIdOk, TokenIdOk, CarriedOn, NotCarried, NotUnwritten;
    if Enabled(s, st) {
      var t := Next(s, st);
      KeysNext(s, st);
      PutCarries(s, st);
      CarriedOnNext(s, st);
      IdsNext(s, st, t);
      OldKeysNext(s, st, t);
      if st.PutToken? || st.PutCookies? {
        NewKeyNext(s, st, t, st.c, Written(s.calls[st.c].refresh, s.margin, s.now).value);
      }
    } else {
      StaysPut(s, st);
    }
  }

  lemma StaysPut(s: State, st: Step)
    requires !Enabled(s, st)
    ensures Next(s, st) == s
  {}

  lemma PutCarries(s: State, st: Step)
    requires Enabled(s, st)
    ensures st.PutToken? || st.PutCookies? ==>
                Carries(s.calls[st.c]) && LoginId(s.calls[st.c]) == s.calls[st.c].refresh.token.login
  {}

  lemma {:induction false} UniqueRun(s0: State, steps: seq<Step>)
    requires Init(s0)
    ensures UniqueInv(Exec(s0, steps))
    decreases |steps|
  {
    if steps != [] {
      UniqueRun(s0, steps[..|steps| - 1]);
      UniqueNext(Exec(s0, steps[..|steps| - 1]), steps[|steps| - 1]);
    }
  }

  /* ----- the pair of keys ----- */

  // Step i is a SET of the token key.
  predicate SetsToken(s0: State, steps: seq<Step>, i: nat) {
    i < |steps| && steps[i].PutToken? && Enabled(StateAt(s0, steps, i), steps[i])
  }

  // Step k is the last SET of the token key, by coroutine c.
  ghost predicate LastToken(s0: State, steps: seq<Step>, k: nat, c: nat) {
    Happens(s0, steps, k, PutToken(c)) && forall m :: k < m < |steps| ==> !SetsToken(s0, steps, m)
  }

  // Step i is a SET of the cookie key.
  predicate SetsCookies(s0: State, steps: seq<Step>, i: nat) {
    i < |steps| && steps[i].PutCookies? && Enabled(StateAt(s0, steps, i), steps[i])
  }

  // Step m is the last SET of the cookie key before step n.
  predicate LastCookies(s0: State, steps: seq<Step>, m: nat, n: nat) {
    m < n <= |steps| && SetsCookies(s0, steps, m) && forall i :: m < i < n ==> !SetsCookies(s0, steps, i)
  }

  // What holds from the SET of the token key by c on, as long as no other follows.
  ghost predicate SinceToken(s: State, c: nat, e: Entry, own: bool) {
    && s.tokenKey == Some(e) && c < |s.calls|
    && (forall d :: InGap(s, d) ==>
        if d == c then s.calls[d].refresh == e.value else s.calls[d].refresh.token.login != IdOf(e))
    && (if own then SameLogin(s) && !InGap(s, c) else s.cookieKey.Some? ==> IdOf(s.cookieKey.value) != IdOf(e))
    && e.ttl == EffectiveTtl(e.value.lifetime, s.margin) && e.setAt <= s.now
  }

  lemma TokenWritten(s: State, c: nat)
    requires UniqueInv(s) && Enabled(s, PutToken(c))
    ensures var t := Next(s, PutToken(c)); t.tokenKey.Some? && SinceToken(t, c, t.tokenKey.value, false)
  {
    var t := Next(s, PutToken(c));
    forall d | InGap(t, d) && d != c ensures t.calls[d].refresh.token.login != IdOf(t.tokenKey.value) {
      assert Carries(s.calls[d]) && Carries(s.calls[c]);
    }
  }

  // Nobody enters the gap without a SET of the token key.
  lemma GapShrinks(s: State, st: Step)
    requires Enabled(s, st) && !st.PutToken?
    ensures var t := Next(s, st);
            && |t.calls| == |s.calls| && t.margin == s.margin && t.now >= s.now
            && forall d :: InGap(t, d) ==> InGap(s, d) && t.calls[d] == s.calls[d]
    ensures st.PutCookies? ==> InGap(s, st.c) && !InGap(Next(s, st), st.c)
  {
    if Actor(st).Some? {
      GapLocal(s, st);
      assert st.PutCookies? ==> InGap(s, st.c);
    }
    hide Local;
  }

  lemma SinceTokenNext(s: State, st: Step, c: nat, e: Entry, own: bool) returns (own': bool)
    requires SinceToken(s, c, e, own) && !(st.PutToken? && Enabled(s, st))
    ensures own' == if st.PutCookies? && Enabled(s, st) then st.c == c else own
    ensures SinceToken(Next(s, st), c, e, own')
  {
    hide Next, InGap, EffectiveTtl, Enabled;
    own' := if st.PutCookies? && Enabled(s, st) then st.c == c else own;
    if Enabled(s, st) {
      KeysNext(s, st);
      GapShrinks(s, st);
    } else {
      StaysPut(s, st);
    }
  }

  // Whoever else writes, restarts or fails: after the last SET of the token key, it has the
  // cookies of its own login beside it, living at least as long, exactly if its writer got to
  // the second SET and nobody's second SET came later.
  lemma PairIsIntactIff(s0: State, steps: seq<Step>, k: nat, c: nat)
    requires Init(s0) && LastToken(s0, steps, k, c)
    ensures SameLogin(StateAt(s0, steps, |steps|))
            <==> exists m :: k < m && LastCookies(s0, steps, m, |steps|) && steps[m].c == c
  {
    hide Init, Exec, StateAt, Enabled, Next, SinceToken, UniqueInv;
    UniqueRun(s0, steps[..k]);
    assert UniqueInv(StateAt(s0, steps, k)) by { StateAtIs(s0, steps, k); }
    TokenWritten(StateAt(s0, steps, k), c);
    StateStep(s0, steps, k);
    var e := StateAt(s0, steps, k + 1).tokenKey.value;
    var n, last, own := k + 1, k, false;
    while n < |steps|
      invariant k < n <= |steps| && k <= last < n && SinceToken(StateAt(s0, steps, n), c, e, own)
      invariant k < last ==> SetsCookies(s0, steps, last)
      invariant forall i :: last < i < n ==> !SetsCookies(s0, steps, i)
      invariant own <==> k < last && steps[last].c == c
    {
      StateStep(s0, steps, n);
      assert !SetsToken(s0, steps, n);
      own := SinceTokenNext(StateAt(s0, steps, n), steps[n], c, e, own);
      if SetsCookies(s0, steps, n) {
        last := n;
      }
      n := n + 1;
    }
    OwnIffSame(StateAt(s0, steps, |steps|), c, e, own);
    assert own ==> LastCookies(s0, steps, last, |steps|);
    assert forall m :: k < m && LastCookies(s0, steps, m, |steps|) ==> m == last;
  }

  lemma StateAtIs(s0: State, steps: seq<Step>, i: nat)
    requires i <= |steps|
    ensures StateAt(s0, steps, i) == Exec(s0, steps[..i])
  {}

  lemma OwnIffSame(s: State, c: nat, e: Entry, own: bool)
    requires SinceToken(s, c, e, own)
    ensures own <==> SameLogin(s)
  {}

  /* ----- the read that is not atomic ----- */

  // Of an entry once in the token key: it is there still, or it never comes back.
  ghost predicate SinceEntry(s: State, e: Entry, there: bool) {
    && s.tokenKey.Some? && (if there then s.tokenKey == Some(e) else IdOf(s.tokenKey.value) != IdOf(e))
    && IdOf(e) < s.logins && NotUnwritten(s, IdOf(e))
  }

  lemma SinceEntryNext(s: State, st: Step, e: Entry, there: bool)
    requires SinceEntry(s, e, there)
    ensures SinceEntry(Next(s, st), e, there && !(st.PutToken? && Enabled(s, st)))
  {
    hide Next, Carries, LoginId;
    if Enabled(s, st) {
      KeysNext(s, st);
      PutCarries(s, st);
      CarriedOnNext(s, st);
    } else {
      StaysPut(s, st);
    }
  }

  lemma EntryStaysIff(s0: State, steps: seq<Step>, i: nat, j: nat)
    requires Init(s0) && i <= j <= |steps| && StateAt(s0, steps, i).tokenKey.Some?
    ensures StateAt(s0, steps, j).tokenKey == StateAt(s0, steps, i).tokenKey
            <==> forall m :: i <= m < j ==> !SetsToken(s0, steps, m)
  {
    hide Init, Exec, StateAt, Enabled, Next, UniqueInv, NotUnwritten;
    UniqueRun(s0, steps[..i]);
    StateAtIs(s0, steps, i);
    var e := StateAt(s0, steps, i).tokenKey.value;
    StartsThere(StateAt(s0, steps, i), e);
    var n, there := i, true;
    while n < j
      invariant i <= n <= j && SinceEntry(StateAt(s0, steps, n), e, there)
      invariant there <==> forall m :: i <= m < n ==> !SetsToken(s0, steps, m)
    {
      StateStep(s0, steps, n);
      SinceEntryNext(StateAt(s0, steps, n), steps[n], e, there);
      there := there && !SetsToken(s0, steps, n);
      n := n + 1;
    }
  }

  lemma StartsThere(s: State, e: Entry)
    requires UniqueInv(s) && s.tokenKey == Some(e)
    ensures SinceEntry(s, e, true)
  {}

  // A reader's token and time to live are of one SET exactly if no SET of the token key took
  // effect between its GET and its TTL.
  lemma ReadIsPairedIff(s0: State, steps: seq<Step>, i: nat, j: nat, c: nat, got: Entry)
    requires Init(s0) && i < j && Happens(s0, steps, i, GetToken(c)) && Happens(s0, steps, j, GetTtl(c))
    requires c < |StateAt(s0, steps, i + 1).calls| && StateAt(s0, steps, i + 1).calls[c] == GotToken(got)
    requires StateAt(s0, steps, j).calls[c] == GotToken(got)
    requires c < |StateAt(s0, steps, j + 1).calls| && StateAt(s0, steps, j + 1).calls[c].GotTtl?
    ensures var call := StateAt(s0, steps, j + 1).calls[c];
            call.got == call.timed <==> forall m :: i < m < j ==> !SetsToken(s0, steps, m)
  {
    StateStep(s0, steps, i);
    StateStep(s0, steps, j);
    EntryStaysIff(s0, steps, i, j);
    assert !SetsToken(s0, steps, i);
  }

  /* ----- whose cookies are cached ----- */

  function At(jar: Jar, name: string): Option<Origin> { if name in jar then Some(jar[name]) else None }

  // What a step sets this cookie to in the jar of c, while c logs in.
  function Setting(s: State, st: Step, c: nat, name: string): Option<Origin> {
    if !Enabled(s, st) || !InRange(s, c) then None
    else if st == StrayCookie(s.owner[c], name) then Some(Stray)
    else if Actor(st) == Some(c) && LoggingInNow(s.calls[c])
        && name in CookieNames(st) then Some(Session(LoginOf(s.calls[c])))
    else None
  }

  predicate LoggingOn(s: State, st: Step, c: nat) {
    && InRange(s, c) && LoggingInNow(s.calls[c]) && InRange(Next(s, st), c)
    && (LoggingInNow(Next(s, st).calls[c]) || Caches(s, st, c))
  }

  lemma OwnJar(s: State, st: Step)
    requires Actor(st).Some? && Enabled(s, st) && LoggingInNow(s.calls[st.c])
    requires LoggingInNow(Local(s, st).call) || Caches(s, st, st.c)
    ensures Local(s, st).cl.jar == Merge(ClientOf(s, st.c).jar, CookieNames(st), Session(LoginOf(s.calls[st.c])))
    ensures LoggingInNow(Local(s, st).call) ==> LoginOf(Local(s, st).call) == LoginOf(s.calls[st.c])
    ensures Caches(s, st, st.c) ==>
                Local(s, st).call.PuttingToken? && Local(s, st).call.refresh.cookies == Local(s, st).cl.jar
                                    && Local(s, st).call.refresh.token.login == LoginOf(s.calls[st.c])
  {
    assert Merge(ClientOf(s, st.c).jar, {}, Session(LoginOf(s.calls[st.c]))) == ClientOf(s, st.c).jar;
  }

  // A step that is not of c leaves its jar as it is but for a stray cookie.
  lemma StrayStep(s: State, p: nat, c: nat, name: string, stray: string)
    requires InRange(s, c) && Enabled(s, StrayCookie(p, stray))
    ensures InRange(Next(s, StrayCookie(p, stray)), c)
    ensures At(ClientOf(Next(s, StrayCookie(p, stray)), c).jar, name)
         == if p == s.owner[c] && stray == name then Some(Stray) else At(ClientOf(s, c).jar, name)
  {}

  lemma StillLogging(s: State, st: Step, c: nat)
    requires LoggingOn(s, st, c) && Actor(st) != Some(c) && Enabled(s, st)
    ensures Next(s, st).calls[c] == s.calls[c] && st != Restart(s.owner[c]) && !Caches(s, st, c)
  {
    hide Local, Ready;
  }

  lemma OthersStep(s: State, st: Step, c: nat, name: string)
    requires Inv(s) && LoggingOn(s, st, c) && Actor(st) != Some(c) && Enabled(s, st)
    ensures var t := Next(s, st);
            && t.calls[c] == s.calls[c] && !Caches(s, st, c)
            && At(ClientOf(t, c).jar, name)
               == if Setting(s, st, c, name).Some? then Setting(s, st, c, name) else At(ClientOf(s, c).jar, name)
  {
    hide Local, Inv, Next, Enabled, LoginOf, At, Caches, LoggingInNow;
    StillLogging(s, st, c);
    if st.StrayCookie? {
      StrayStep(s, st.p, c, name, st.name);
    } else {
      OtherJar(s, st, c);
    }
  }

  lemma OwnStep(s: State, st: Step, c: nat, name: string)
    requires Inv(s) && LoggingOn(s, st, c) && Actor(st) == Some(c) && Enabled(s, st)
    ensures var t := Next(s, st);
            && t.calls[c] == Local(s, st).call && ClientOf(t, c) == Local(s, st).cl
            && At(ClientOf(t, c).jar, name)
               == if Setting(s, st, c, name).Some? then Setting(s, st, c, name) else At(ClientOf(s, c).jar, name)
  {
    OwnJar(s, st);
    hide Local, LoginOf;
  }

  lemma JarStep(s: State, st: Step, c: nat, name: string)
    requires Inv(s) && LoggingOn(s, st, c)
    ensures var t := Next(s, st); var before, after := At(ClientOf(s, c).jar, name), At(ClientOf(t, c).jar, name);
            && after == (if Setting(s, st, c, name).Some? then Setting(s, st, c, name) else before)
            && (LoggingInNow(t.calls[c]) ==> LoginOf(t.calls[c]) == LoginOf(s.calls[c]))
            && (Caches(s, st, c) ==> t.calls[c].PuttingToken? && t.calls[c].refresh.cookies == ClientOf(t, c).jar
                                     && t.calls[c].refresh.token.login == LoginOf(s.calls[c]))
  {
    hide Inv, Next, Local, Setting, LoginOf, LoggingInNow, At;
    if !Enabled(s, st) {
      StaysPut(s, st);
      NoSetting(s, st, c, name);
    } else if Actor(st) == Some(c) {
      OwnStep(s, st, c, name);
      OwnJar(s, st);
    } else {
      OthersStep(s, st, c, name);
    }
  }

  lemma NoSetting(s: State, st: Step, c: nat, name: string)
    requires !Enabled(s, st)
    ensures Setting(s, st, c, name) == None
  {}

  predicate SetsCookie(s0: State, steps: seq<Step>, m: nat, c: nat, name: string) {
    m < |steps| && Setting(StateAt(s0, steps, m), steps[m], c, name).Some?
  }

  // Step m is the last up to step n to set this cookie.
  predicate LastSetting(s0: State, steps: seq<Step>, m: nat, n: nat, c: nat, name: string) {
    && m <= n < |steps| && SetsCookie(s0, steps, m, c, name)
    && forall i :: m < i <= n ==> !SetsCookie(s0, steps, i, c, name)
  }

  // A login that begins at step i and caches its token at step k caches a cookie exactly if one
  // was set in between, and as it was set last: by a reply of its own, or by another reply to
  // the same client.
  lemma CachedCookieIsTheLastSet(s0: State, steps: seq<Step>, i: nat, k: nat, c: nat, name: string)
    requires Init(s0) && i < k < |steps| && Happens(s0, steps, i, BeginLogin(c))
             && Caches(StateAt(s0, steps, k), steps[k], c)
    requires forall m :: i < m <= k ==>
                 InRange(StateAt(s0, steps, m), c) && LoggingInNow(StateAt(s0, steps, m).calls[c])
    ensures InRange(StateAt(s0, steps, k + 1), c) && StateAt(s0, steps, k + 1).calls[c].PuttingToken?
    ensures var r := StateAt(s0, steps, k + 1).calls[c].refresh;
            && (name in r.cookies <==> exists m :: i < m && LastSetting(s0, steps, m, k, c, name))
            && (forall m :: i < m && LastSetting(s0, steps, m, k, c, name) && name in r.cookies ==>
                  r.cookies[name] == if steps[m].StrayCookie? then Stray else Session(r.token.login))
  {
    hide Init, Exec, StateAt, Enabled, Next, Inv, Caches, LoggingInNow, LoginOf, Setting;
    Begins(s0, steps, i, c);
    var login := StateAt(s0, steps, i).logins;
    var n, last := i + 1, i;
    while n <= k
      invariant i < n <= k + 1 && i <= last < n && InRange(StateAt(s0, steps, n), c)
      invariant i < last ==> SetsCookie(s0, steps, last, c, name)
      invariant forall m :: last < m < n ==> !SetsCookie(s0, steps, m, c, name)
      invariant At(ClientOf(StateAt(s0, steps, n), c).jar, name)
                == if i < last then Some(OriginAt(steps[last], login)) else None
      invariant n <= k ==> LoggingInNow(StateAt(s0, steps, n).calls[c])
                           && LoginOf(StateAt(s0, steps, n).calls[c]) == login
      invariant n == k + 1 ==> CachedJar(StateAt(s0, steps, n), c, login)
    {
      var s := StateAt(s0, steps, n);
      StateStep(s0, steps, n);
      StateAtInv(s0, steps, n);
      KeepsRange(s, steps[n], c);
      JarStep(s, steps[n], c, name);
      SettingIs(s, steps[n], c, name);
      if SetsCookie(s0, steps, n, c, name) {
        last := n;
      }
      n := n + 1;
    }
    assert i < last ==> LastSetting(s0, steps, last, k, c, name);
    assert forall m :: i < m && LastSetting(s0, steps, m, k, c, name) ==> m == last;
  }

  function OriginAt(st: Step, login: nat): Origin { if st.StrayCookie? then Stray else Session(login) }

  // Coroutine c has cached the token of this login with the cookies its jar holds.
  predicate CachedJar(s: State, c: nat, login: nat) {
    && InRange(s, c) && s.calls[c].PuttingToken?
    && s.calls[c].refresh.cookies == ClientOf(s, c).jar && s.calls[c].refresh.token.login == login
  }

  lemma SettingIs(s: State, st: Step, c: nat, name: string)
    requires InRange(s, c) && LoggingInNow(s.calls[c])
    ensures Setting(s, st, c, name).Some? ==> Setting(s, st, c, name).value == OriginAt(st, LoginOf(s.calls[c]))
  {}

  lemma Begins(s0: State, steps: seq<Step>, i: nat, c: nat)
    requires Happens(s0, steps, i, BeginLogin(c))
    ensures var s := StateAt(s0, steps, i + 1);
            && InRange(s, c) && s.calls[c] == LoggingIn(StateAt(s0, steps, i).logins)
            && LoginOf(s.calls[c]) == StateAt(s0, steps, i).logins
            && ClientOf(s, c).jar == map[]
  {
    StateStep(s0, steps, i);
  }
}
