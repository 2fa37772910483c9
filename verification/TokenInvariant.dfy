/**
 The inductive invariant of the token cache over every interleaving, and what it gives
 each state on its own: mutual exclusion, coherent provenance, and how far a cached
 token can outlive its real expiry.
 */
module TokenInvariant {
  import opened Common
  import opened TokenProtocol

  // A key, or what a coroutine read of it, always goes back to a login's own write.
  predicate EntryOk(e: Entry, margin: int, now: int) {
    && e.ttl == EffectiveTtl(e.value.lifetime, margin)
    && RefreshOk(e.value, e.setAt)
    && e.setAt <= now
  }

  predicate RefreshOk(r: Refresh, now: int) {
    r.token.issuedAt <= r.cachedAt <= now
  }

  predicate SourceOk(src: Source, margin: int, now: int) {
    match src
    case Unset => true
    case ByLogin(r) => RefreshOk(r, now)
    case ByRead(got, timed, readAt, adoptedAt) =>
      && EntryOk(got, margin, readAt) && EntryOk(timed, margin, readAt)
      && TtlReply(Some(timed), readAt) > 0
      && readAt <= adoptedAt <= now
  }

  function SourceToken(src: Source): Option<Token> {
    match src
    case Unset => None
    case ByLogin(r) => Some(r.token)
    case ByRead(got, _, _, _) => Some(got.value.token)
  }

  // The instant the client stops serving a token, as its source determines it.
  function StoredExpiry(src: Source, margin: int): int {
    match src
    case Unset => 0
    case ByLogin(r) => r.cachedAt + SECOND * EffectiveTtl(r.lifetime, margin)
    case ByRead(_, timed, readAt, adoptedAt) => adoptedAt + SECOND * TtlReply(Some(timed), readAt)
  }

  predicate ClientOk(cl: Client, margin: int, now: int) {
    && SourceOk(cl.source, margin, now)
    && cl.token == SourceToken(cl.source)
    && cl.expiresAt == StoredExpiry(cl.source, margin)
  }

  // Past the assignment of _access_token, before the lock is released.
  predicate Publishing(call: Call) { call.PuttingToken? || call.PuttingCookies? || call.Published? }

  predicate CallOk(call: Call, cl: Client, margin: int, now: int) {
    match call
    case GotToken(got) => EntryOk(got, margin, now)
    case GotTtl(got, timed, readAt) =>
      && EntryOk(got, margin, readAt) && EntryOk(timed, margin, readAt)
      && TtlReply(Some(timed), readAt) > 0 && readAt <= now
    case GotCookies(got, timed, readAt, _) =>
      && EntryOk(got, margin, readAt) && EntryOk(timed, margin, readAt)
      && TtlReply(Some(timed), readAt) > 0 && readAt <= now
    case Missed(seen, at) => TtlReply(seen, at) <= 0 && at <= now
    case Minted(token) => token.issuedAt <= now
    case Introspecting(token) => token.issuedAt <= now
    case PuttingToken(r) => cl.source == ByLogin(r)
    case PuttingCookies(r) => cl.source == ByLogin(r)
    case Published(r) => cl.source == ByLogin(r)
    case Returned(token, at, src, checked) =>
      && SourceOk(src, margin, at) && at <= now
      && SourceToken(src) == Some(token)
      && (if checked then at < StoredExpiry(src, margin) else src.ByLogin?)
    case _ => true
  }

  predicate LockOk(s: State, c: nat)
    requires InRange(s, c)
  {
    Holding(s.calls[c]) <==> ClientOf(s, c).lock == Some(c)
  }

  ghost predicate Inv(s: State) {
    && |s.calls| == |s.owner|
    && (forall c :: 0 <= c < |s.calls| ==> s.owner[c] < |s.clients|)
    && (forall c :: 0 <= c < |s.calls| ==> LockOk(s, c) && CallOk(s.calls[c], ClientOf(s, c), s.margin, s.now))
    && (forall p :: 0 <= p < |s.clients| ==> ClientOk(s.clients[p], s.margin, s.now))
    && (s.tokenKey.Some? ==> EntryOk(s.tokenKey.value, s.margin, s.now))
    && (s.cookieKey.Some? ==> EntryOk(s.cookieKey.value, s.margin, s.now))
  }

  lemma InitInv(s: State)
    requires Init(s)
    ensures Inv(s)
  {}

  // A step leaves its own coroutine and client coherent, and takes or frees only its own lock.
  ghost predicate PairOk(s: State, c: nat, pair: Pair)
    requires InRange(s, c)
  {
    var cl := ClientOf(s, c);
    && ClientOk(pair.cl, s.margin, s.now) && CallOk(pair.call, pair.cl, s.margin, s.now)
    && (Holding(pair.call) <==> pair.cl.lock == Some(c))
    && (pair.cl.lock == cl.lock || (cl.lock == None && pair.cl.lock == Some(c))
        || (cl.lock == Some(c) && pair.cl.lock == None))
    && (pair.cl.source == cl.source || cl.lock == Some(c))
  }

  lemma LockPairOk(s: State, st: Step)
    requires Inv(s) && Enabled(s, st) && (st.Enter? || st.Acquire? || st.GetToken?)
    ensures PairOk(s, st.c, Local(s, st))
  {
    hide Merge;
    assert LockOk(s, st.c) && CallOk(s.calls[st.c], ClientOf(s, st.c), s.margin, s.now);
  }

  lemma ReadPairOk(s: State, st: Step)
    requires Inv(s) && Enabled(s, st) && (st.GetTtl? || st.GetCookies? || st.Adopt?)
    ensures PairOk(s, st.c, Local(s, st))
  {
    hide Merge, EffectiveTtl;
    assert LockOk(s, st.c) && CallOk(s.calls[st.c], ClientOf(s, st.c), s.margin, s.now);
  }

  lemma LoginPairOk(s: State, st: Step)
    requires Inv(s) && Enabled(s, st)
    requires st.BeginLogin? || st.LoginReply? || st.Mint? || st.AuthorizeReply? || st.IntrospectReply?
    ensures PairOk(s, st.c, Local(s, st))
  {
    hide TtlReply, Merge, Live;
    assert LockOk(s, st.c) && CallOk(s.calls[st.c], ClientOf(s, st.c), s.margin, s.now);
  }

  lemma EndPairOk(s: State, st: Step)
    requires Inv(s) && Enabled(s, st)
    requires st.PutToken? || st.PutCookies? || st.Finish? || st.Fail? || st.Again?
    ensures PairOk(s, st.c, Local(s, st))
  {
    hide TtlReply, Merge, Live;
    assert LockOk(s, st.c) && CallOk(s.calls[st.c], ClientOf(s, st.c), s.margin, s.now);
  }

  lemma LocalOk(s: State, st: Step)
    requires Inv(s) && Actor(st).Some? && Enabled(s, st)
    ensures PairOk(s, st.c, Local(s, st))
  {
    hide Local, PairOk, Ready;
    if st.Enter? || st.Acquire? || st.GetToken? {
      LockPairOk(s, st);
    } else if st.GetTtl? || st.GetCookies? || st.Adopt? {
      ReadPairOk(s, st);
    } else if st.PutToken? || st.PutCookies? || st.Finish? || st.Fail? || st.Again? {
      EndPairOk(s, st);
    } else {
      LoginPairOk(s, st);
    }
  }

  lemma MoveInv(s: State, c: nat, pair: Pair)
    requires Inv(s) && InRange(s, c) && PairOk(s, c, pair)
    ensures Inv(Move(s, c, pair))
  {
    var t := Move(s, c, pair);
    forall d | 0 <= d < |t.calls|
      ensures LockOk(t, d) && CallOk(t.calls[d], ClientOf(t, d), t.margin, t.now)
    {
      assert LockOk(s, d) && CallOk(s.calls[d], ClientOf(s, d), s.margin, s.now);
    }
  }

  lemma KeysInv(s: State, tokenKey: Option<Entry>, cookieKey: Option<Entry>, logins: nat)
    requires Inv(s)
    requires tokenKey.Some? ==> EntryOk(tokenKey.value, s.margin, s.now)
    requires cookieKey.Some? ==> EntryOk(cookieKey.value, s.margin, s.now)
    ensures Inv(s.(tokenKey := tokenKey, cookieKey := cookieKey, logins := logins))
  {
    var t := s.(tokenKey := tokenKey, cookieKey := cookieKey, logins := logins);
    forall d | 0 <= d < |t.calls|
      ensures LockOk(t, d) && CallOk(t.calls[d], ClientOf(t, d), t.margin, t.now)
    {
      assert LockOk(s, d) && CallOk(s.calls[d], ClientOf(s, d), s.margin, s.now);
    }
  }

  // A SET writes an entry that goes back to a login.
  lemma WrittenOk(s: State, st: Step)
    requires Inv(s) && Enabled(s, st) && (st.PutToken? || st.PutCookies?)
    ensures EntryOk(Written(s.calls[st.c].refresh, s.margin, s.now).value, s.margin, s.now)
  {
    assert CallOk(s.calls[st.c], ClientOf(s, st.c), s.margin, s.now);
    assert ClientOk(ClientOf(s, st.c), s.margin, s.now);
  }

  lemma ActorInv(s: State, st: Step)
    requires Inv(s) && Actor(st).Some? && Enabled(s, st)
    ensures Inv(Apply(s, st))
  {
    LocalOk(s, st);
    MoveInv(s, st.c, Local(s, st));
    if st.PutToken? || st.PutCookies? {
      WrittenOk(s, st);
    }
    hide Local, PairOk, EntryOk, Written, Ready;
    var moved, t := Move(s, st.c, Local(s, st)), Apply(s, st);
    assert s.tokenKey.Some? ==> EntryOk(s.tokenKey.value, s.margin, s.now);
    assert t == moved.(tokenKey := t.tokenKey, cookieKey := t.cookieKey, logins := t.logins);
    hide Inv;
    KeysInv(moved, t.tokenKey, t.cookieKey, t.logins);
  }

  lemma TickInv(s: State, dt: nat)
    requires Inv(s)
    ensures Inv(Apply(s, Tick(dt)))
  {
    var t := Apply(s, Tick(dt));
    forall d | 0 <= d < |t.calls|
      ensures LockOk(t, d) && CallOk(t.calls[d], ClientOf(t, d), t.margin, t.now)
    {
      assert LockOk(s, d) && CallOk(s.calls[d], ClientOf(s, d), s.margin, s.now);
    }
  }

  lemma RestartInv(s: State, p: nat)
    requires Inv(s) && p < |s.clients|
    ensures Inv(Apply(s, Restart(p)))
  {
    var t := Apply(s, Restart(p));
    forall d | 0 <= d < |t.calls|
      ensures LockOk(t, d) && CallOk(t.calls[d], ClientOf(t, d), t.margin, t.now)
    {
      assert LockOk(s, d) && CallOk(s.calls[d], ClientOf(s, d), s.margin, s.now);
    }
  }

  lemma StrayInv(s: State, p: nat, name: string)
    requires Inv(s) && p < |s.clients|
    ensures Inv(Apply(s, StrayCookie(p, name)))
  {
    var t := Apply(s, StrayCookie(p, name));
    forall d | 0 <= d < |t.calls|
      ensures LockOk(t, d) && CallOk(t.calls[d], ClientOf(t, d), t.margin, t.now)
    {
      assert LockOk(s, d) && CallOk(s.calls[d], ClientOf(s, d), s.margin, s.now);
    }
  }

  lemma NextInv(s: State, st: Step)
    requires Inv(s)
    ensures Inv(Next(s, st))
  {
    if Enabled(s, st) {
      match st
      case Tick(dt) => TickInv(s, dt);
      case StrayCookie(p, name) => StrayInv(s, p, name);
      case Restart(p) => RestartInv(s, p);
      case _ => ActorInv(s, st);
    }
  }

  lemma {:induction false} ExecInv(s0: State, steps: seq<Step>)
    requires Init(s0)
    ensures Inv(Exec(s0, steps))
    decreases |steps|
  {
    if steps == [] {
      InitInv(s0);
    } else {
      ExecInv(s0, steps[..|steps| - 1]);
      NextInv(Exec(s0, steps[..|steps| - 1]), steps[|steps| - 1]);
    }
  }

  lemma ReachableInv(s: State)
    requires Reachable(s)
    ensures Inv(s)
  {
    var s0, steps :| Init(s0) && Exec(s0, steps) == s;
    ExecInv(s0, steps);
  }
}
