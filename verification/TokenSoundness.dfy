/**
 The headline guarantee of the token cache, over whole schedules: if OpenIAM states
 lifetimes truthfully and they exceed the margin, if no SET of the token key lands between a
 reader's GET and its TTL, and if the delays of each kind are bounded within the margin,
 then no call in any process ever returns a token past its real expiry.
 */
module TokenSoundness {
  import opened Common
  import opened TokenProtocol
  import opened TokenInvariant
  import opened TokenSafety

  // Bounds in milliseconds: minting to caching, caching to the effect of the SET, Redis' TTL
  // reply to adoption, and caching to return in the call that logged in.
  datatype Bounds = Bounds(issue: nat, write: nat, read: nat, publish: nat)

  // The margin covers one write delay and one read delay, however many processes and restarts;
  // and a call that logs in returns within the shortest lifetime there is.
  predicate WithinMargin(b: Bounds, margin: int) {
    b.issue + b.write + b.read + ROUNDING <= SECOND * margin && b.issue + b.publish < SECOND * (margin + 1)
  }

  predicate RefreshTimely(r: Refresh, margin: int, b: Bounds) {
    && r.lifetime > margin && r.token.issuedAt + SECOND * r.lifetime <= r.token.goodUntil
    && r.cachedAt - r.token.issuedAt <= b.issue
  }

  predicate EntryTimely(e: Entry, margin: int, b: Bounds) {
    RefreshTimely(e.value, margin, b) && e.setAt - e.value.cachedAt <= b.write
  }

  predicate SourceTimely(src: Source, margin: int, b: Bounds) {
    match src
    case Unset => true
    case ByLogin(r) => RefreshTimely(r, margin, b)
    case ByRead(got, timed, readAt, adoptedAt) =>
      got == timed && EntryTimely(got, margin, b) && adoptedAt - readAt <= b.read
  }

  // What the environment is assumed to do at one step.
  ghost predicate Timely(s: State, st: Step, b: Bounds) {
    && (st.PutToken? ==> forall d :: 0 <= d < |s.calls| ==> !s.calls[d].GotToken?)
    && (Enabled(s, st) ==>
          && (st.AuthorizeReply? && st.expiresIn.Some? ==> CachesTimely(s, s.calls[st.c].token, st.expiresIn.value, b))
          && (st.IntrospectReply? ==> CachesTimely(s, s.calls[st.c].token, st.expiresIn.GetOr(FALLBACK_TTL), b))
          && (st.PutToken? ==> s.now - s.calls[st.c].refresh.cachedAt <= b.write)
          && (st.Adopt? ==> s.now - s.calls[st.c].readAt <= b.read)
          && (st.Finish? ==> s.now - s.calls[st.c].refresh.cachedAt <= b.publish))
  }

  // The reply came in time, and the lifetime about to be believed is true and worth caching.
  predicate CachesTimely(s: State, token: Token, lifetime: int, b: Bounds) {
    lifetime > s.margin && token.issuedAt + SECOND * lifetime <= token.goodUntil && s.now - token.issuedAt <= b.issue
  }

  ghost predicate TimelyRun(s0: State, steps: seq<Step>, b: Bounds)
    decreases |steps|
  {
    steps == [] || (TimelyRun(s0, steps[..|steps| - 1], b)
        && Timely(Exec(s0, steps[..|steps| - 1]), steps[|steps| - 1], b))
  }

  // Some schedule that keeps to the bounds leads here.
  ghost predicate TimelyReachable(s: State, b: Bounds) {
    exists s0, steps :: Init(s0) && TimelyRun(s0, steps, b) && Exec(s0, steps) == s
  }

  predicate CallTimely(call: Call, tokenKey: Option<Entry>, margin: int, b: Bounds) {
    match call
    case GotToken(got) => EntryTimely(got, margin, b) && tokenKey == Some(got)
    case GotTtl(got, timed, _) => EntryTimely(got, margin, b) && got == timed
    case GotCookies(got, timed, _, _) => EntryTimely(got, margin, b) && got == timed
    case PuttingToken(r) => RefreshTimely(r, margin, b)
    case PuttingCookies(r) => RefreshTimely(r, margin, b)
    case Published(r) => RefreshTimely(r, margin, b)
    case Returned(_, at, src, checked) =>
      SourceTimely(src, margin, b) && (!checked && src.ByLogin? ==> at - src.refresh.cachedAt <= b.publish)
    case _ => true
  }

  ghost predicate TimelyInv(s: State, b: Bounds) {
    && (forall c :: 0 <= c < |s.calls| ==> CallTimely(s.calls[c], s.tokenKey, s.margin, b))
    && (forall p :: 0 <= p < |s.clients| ==> SourceTimely(s.clients[p].source, s.margin, b))
    && (s.tokenKey.Some? ==> EntryTimely(s.tokenKey.value, s.margin, b))
  }

  predicate PairTimely(pair: Pair, tokenKey: Option<Entry>, margin: int, b: Bounds) {
    CallTimely(pair.call, tokenKey, margin, b) && SourceTimely(pair.cl.source, margin, b)
  }

  lemma ReadTimely(s: State, st: Step, b: Bounds)
    requires Inv(s) && TimelyInv(s, b) && Timely(s, st, b) && Actor(st).Some? && Enabled(s, st)
    requires st.Enter? || st.Acquire? || st.GetToken? || st.GetTtl? || st.GetCookies? || st.Adopt?
    ensures PairTimely(Local(s, st), s.tokenKey, s.margin, b)
  {
    assert CallTimely(s.calls[st.c], s.tokenKey, s.margin, b) && SourceTimely(ClientOf(s, st.c).source, s.margin, b);
  }

  lemma LoginTimely(s: State, st: Step, b: Bounds)
    requires Inv(s) && TimelyInv(s, b) && Timely(s, st, b) && Actor(st).Some? && Enabled(s, st)
    requires st.BeginLogin? || st.LoginReply? || st.Mint? || st.AuthorizeReply? || st.IntrospectReply?
    ensures PairTimely(Local(s, st), s.tokenKey, s.margin, b)
  {
    hide TtlReply, Merge, Live;
    assert CallTimely(s.calls[st.c], s.tokenKey, s.margin, b) && SourceTimely(ClientOf(s, st.c).source, s.margin, b);
  }

  lemma EndTimely(s: State, st: Step, b: Bounds)
    requires Inv(s) && TimelyInv(s, b) && Timely(s, st, b) && Actor(st).Some? && Enabled(s, st)
    requires st.PutToken? || st.PutCookies? || st.Finish? || st.Fail? || st.Again?
    ensures PairTimely(Local(s, st), s.tokenKey, s.margin, b)
    ensures st.PutToken? ==> EntryTimely(Written(s.calls[st.c].refresh, s.margin, s.now).value, s.margin, b)
  {
    hide TtlReply, Merge, Live;
    assert CallTimely(s.calls[st.c], s.tokenKey, s.margin, b) && SourceTimely(ClientOf(s, st.c).source, s.margin, b);
    assert CallOk(s.calls[st.c], ClientOf(s, st.c), s.margin, s.now);
  }

  lemma ActTimely(s: State, st: Step, b: Bounds)
    requires Inv(s) && TimelyInv(s, b) && Timely(s, st, b) && Actor(st).Some? && Enabled(s, st)
    ensures TimelyInv(Next(s, st), b)
  {
    if st.Enter? || st.Acquire? || st.GetToken? || st.GetTtl? || st.GetCookies? || st.Adopt? {
      ReadTimely(s, st, b);
    } else if st.PutToken? || st.PutCookies? || st.Finish? || st.Fail? || st.Again? {
      EndTimely(s, st, b);
    } else {
      LoginTimely(s, st, b);
    }
    FrameTimely(s, st, b);
  }

  // Nothing else moves, and the token key changes only while nobody is between GET and TTL.
  lemma FrameTimely(s: State, st: Step, b: Bounds)
    requires TimelyInv(s, b) && Timely(s, st, b) && Actor(st).Some? && Enabled(s, st)
    requires PairTimely(Local(s, st), s.tokenKey, s.margin, b)
    requires st.PutToken? ==> EntryTimely(Written(s.calls[st.c].refresh, s.margin, s.now).value, s.margin, b)
    requires InRange(s, st.c)
    ensures TimelyInv(Next(s, st), b)
  {
    var t := Next(s, st);
    assert st.PutToken? ==> !Local(s, st).call.GotToken?;
    hide Local, EntryTimely, RefreshTimely, SourceTimely;
    forall d | 0 <= d < |t.calls| ensures CallTimely(t.calls[d], t.tokenKey, t.margin, b) {
      assert CallTimely(s.calls[d], s.tokenKey, s.margin, b);
    }
  }

  lemma NextTimely(s: State, st: Step, b: Bounds)
    requires Inv(s) && TimelyInv(s, b) && Timely(s, st, b)
    ensures TimelyInv(Next(s, st), b)
  {
    if Enabled(s, st) {
      if Actor(st).Some? {
        ActTimely(s, st, b);
      } else {
        var t := Next(s, st);
        forall d | 0 <= d < |t.calls| ensures CallTimely(t.calls[d], t.tokenKey, t.margin, b) {
          assert CallTimely(s.calls[d], s.tokenKey, s.margin, b);
        }
      }
    }
  }

  lemma {:induction false} RunTimely(s0: State, steps: seq<Step>, b: Bounds)
    requires Init(s0) && TimelyRun(s0, steps, b)
    ensures TimelyInv(Exec(s0, steps), b)
    decreases |steps|
  {
    if steps != [] {
      var init := steps[..|steps| - 1];
      RunTimely(s0, init, b);
      ExecInv(s0, init);
      NextTimely(Exec(s0, init), steps[|steps| - 1], b);
    }
  }

  lemma TimelyCallIsGood(s: State, c: nat, b: Bounds)
    requires Reachable(s) && WithinMargin(b, s.margin)
    requires c < |s.calls| && s.calls[c].Returned? && CallTimely(s.calls[c], s.tokenKey, s.margin, b)
    ensures s.calls[c].at < s.calls[c].token.goodUntil
  {
    hide Reachable;
    ReturnedAge(s, c);
    NeverServedExpired(s, c);
  }

  // In every state of every timely schedule, whatever a call has returned was good at the time.
  lemma NoExpiredTokenIsEverReturned(s: State, b: Bounds, c: nat)
    requires TimelyReachable(s, b) && WithinMargin(b, s.margin)
    requires c < |s.calls| && s.calls[c].Returned?
    ensures s.calls[c].at < s.calls[c].token.goodUntil
  {
    hide Init, TimelyRun, Exec, CallTimely, WithinMargin;
    var s0, steps :| Init(s0) && TimelyRun(s0, steps, b) && Exec(s0, steps) == s;
    RunTimely(s0, steps, b);
    assert Reachable(s);
    TimelyCallIsGood(s, c, b);
  }
}
