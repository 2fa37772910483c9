/**
 What the committed store looks like after any history of intake and escalation calls.
 A call that raises leaves no trace, so a history lists the calls that committed, in commit
 order. An escalation may have read the store at any earlier point of that order: calls
 overlap, and another call's commit can fall between its reads and its own commit.
 */
module LedgerHistory {
  import opened Common
  import opened Verdicts
  import opened Funnel
  import opened OpenIamConnector
  import opened VerdictMessages
  import opened Ledger

  datatype Tx =
    | IntakeTx(row: RequestRow, result: RunResult, startedAt: int)
    | EscalateTx(id: nat, user: string, note: Option<string>, seen: nat)

  // The rows an escalation adds, given the tables it read.
  function EscalationRows(t: Tables, id: nat, user: string, note: Option<string>): Tables {
    var found := GetRequest(t.requests, id);
    if found.None? then EMPTY
    else Tables([], [], [EscalationEvent(found.value, LatestRun(RunsFor(t.runs, id)), user, note)])
  }

  // The rows one more committed call adds.
  function Added(init: seq<Tx>, tx: Tx): Tables
    decreases |init|, 1
  {
    if tx.IntakeTx? then IntakeRows(tx.row, tx.result, tx.startedAt)
    else if tx.seen <= |init| then EscalationRows(Replay(init[..tx.seen]), tx.id, tx.user, tx.note)
    else EMPTY
  }

  function Replay(h: seq<Tx>): Tables
    decreases |h|, 0
  {
    if h == [] then EMPTY
    else Append(Replay(h[..|h| - 1]), Added(h[..|h| - 1], h[|h| - 1]))
  }

  ghost predicate Fresh(t: Tables, row: RequestRow) {
    GetRequest(t.requests, row.id).None? && forall q :: q in t.requests ==> q.correlationId != row.correlationId
  }

  // An intake commits a run of the funnel over some connector, under a new key and a new
  // correlation id; an escalation concerns a request it could see.
  ghost predicate Possible(init: seq<Tx>, tx: Tx) {
    match tx
    case IntakeTx(row, result, _) =>
      Fresh(Replay(init), row) && exists conn :: result == RunOf(row.correlationId, STEP_NAMES, conn, RequestOf(row))
    case EscalateTx(id, _, _, seen) => seen <= |init| && GetRequest(Replay(init[..seen]).requests, id).Some?
  }

  ghost predicate ValidHistory(h: seq<Tx>)
    decreases |h|
  {
    h == [] || (ValidHistory(h[..|h| - 1]) && Possible(h[..|h| - 1], h[|h| - 1]))
  }

  // One event per escalation of this request, in commit order.
  function UserEvents(h: seq<Tx>, row: RequestRow, run: RunRow): seq<AuditRow>
    decreases |h|
  {
    if h == [] then []
    else
      var tx := h[|h| - 1];
      UserEvents(h[..|h| - 1], row, run)
      + (if tx.EscalateTx? && tx.id == row.id then [EscalationEvent(row, Some(run), tx.user, tx.note)] else [])
  }

  // The request of this intake has one run, and its events are: received, run completed, one
  // escalation if that run escalated, and one for each user escalation, in that order.
  ghost predicate Accounted(h: seq<Tx>, t: Tables, tx: Tx)
    requires tx.IntakeTx?
  {
    var run := RunRowOf(tx.row, tx.result, tx.startedAt);
    && GetRequest(t.requests, tx.row.id) == Some(tx.row)
    && RunsFor(t.runs, tx.row.id) == [run]
    && EventsFor(t.audit, tx.row.correlationId)
       == [ReceivedEvent(tx.row)] + RunEvents(tx.row, tx.result) + UserEvents(h, tx.row, run)
  }

  // Nothing else is in the store: every row belongs to a committed intake, one per request.
  ghost predicate NoOrphans(h: seq<Tx>, t: Tables) {
    && (forall q :: q in t.requests ==> exists tx :: tx in h && tx.IntakeTx? && tx.row == q)
    && (forall r :: r in t.runs ==>
        exists q :: q in t.requests && q.id == r.requestId && q.correlationId == r.correlationId)
    && (forall a :: a in t.audit ==>
        exists q :: q in t.requests && q.correlationId == a.correlationId && q.subject == a.subject)
    && (forall q, p :: q in t.requests && p in t.requests && (q.id == p.id || q.correlationId == p.correlationId) ==>
        q == p)
    && |t.requests| == |t.runs|
  }

  ghost predicate LedgerOk(h: seq<Tx>) {
    && NoOrphans(h, Replay(h))
    && forall tx :: tx in h && tx.IntakeTx? ==> Accounted(h, Replay(h), tx)
  }

  /* ----- filters ----- */

  lemma RunsForFirst(a: seq<RunRow>, id: nat)
    requires a != []
    ensures RunsFor(a, id) == (if a[0].requestId == id then [a[0]] else []) + RunsFor(a[1..], id)
  {}

  lemma {:induction false} RunsForAppend(a: seq<RunRow>, b: seq<RunRow>, id: nat)
    ensures RunsFor(a + b, id) == RunsFor(a, id) + RunsFor(b, id)
  {
    if a == [] {
      assert a + b == b;
    } else {
      hide RunsFor;
      assert (a + b)[0] == a[0] && (a + b)[1..] == a[1..] + b;
      RunsForFirst(a, id);
      RunsForFirst(a + b, id);
      RunsForAppend(a[1..], b, id);
    }
  }

  lemma EventsForFirst(a: seq<AuditRow>, correlationId: string)
    requires a != []
    ensures EventsFor(a, correlationId)
         == (if a[0].correlationId == correlationId then [a[0]] else []) + EventsFor(a[1..], correlationId)
  {}

  lemma {:induction false} EventsForAppend(a: seq<AuditRow>, b: seq<AuditRow>, correlationId: string)
    ensures EventsFor(a + b, correlationId) == EventsFor(a, correlationId) + EventsFor(b, correlationId)
  {
    if a == [] {
      assert a + b == b;
    } else {
      hide EventsFor;
      assert (a + b)[0] == a[0] && (a + b)[1..] == a[1..] + b;
      EventsForFirst(a, correlationId);
      EventsForFirst(a + b, correlationId);
      EventsForAppend(a[1..], b, correlationId);
    }
  }

  lemma {:induction false} EventsForNone(a: seq<AuditRow>, correlationId: string)
    requires forall e :: e in a ==> e.correlationId != correlationId
    ensures EventsFor(a, correlationId) == []
  {
    if a != [] {
      EventsForNone(a[1..], correlationId);
    }
  }

  lemma {:induction false} EventsForAll(a: seq<AuditRow>, correlationId: string)
    requires forall e :: e in a ==> e.correlationId == correlationId
    ensures EventsFor(a, correlationId) == a
  {
    if a != [] {
      EventsForAll(a[1..], correlationId);
    }
  }

  lemma {:induction false} RunsForNone(a: seq<RunRow>, id: nat)
    requires forall r :: r in a ==> r.requestId != id
    ensures RunsFor(a, id) == []
  {
    if a != [] {
      RunsForNone(a[1..], id);
    }
  }

  /* ----- histories only grow ----- */

  predicate Extends(t: Tables, u: Tables) {
    t.requests <= u.requests && t.runs <= u.runs && t.audit <= u.audit
  }

  lemma {:induction false} StoreOnlyGrows(h: seq<Tx>, k: nat)
    requires k <= |h|
    ensures Extends(Replay(h[..k]), Replay(h))
    decreases |h|
  {
    if k == |h| {
      assert h[..k] == h;
    } else {
      var init := h[..|h| - 1];
      StoreOnlyGrows(init, k);
      assert init[..k] == h[..k];
    }
  }

  lemma {:induction false} ValidPrefix(h: seq<Tx>, k: nat)
    requires ValidHistory(h) && k <= |h|
    ensures ValidHistory(h[..k])
    decreases |h|
  {
    if k == |h| {
      assert h[..k] == h;
    } else {
      ValidPrefix(h[..|h| - 1], k);
      assert h[..|h| - 1][..k] == h[..k];
    }
  }

  /* ----- the invariant ----- */

  lemma {:induction false} LedgerInvariant(h: seq<Tx>)
    requires ValidHistory(h)
    ensures LedgerOk(h)
    decreases |h|
  {
    hide LedgerOk, Possible, Replay;
    if h == [] {
      NothingIsOk();
    } else {
      var init, tx := h[..|h| - 1], h[|h| - 1];
      LedgerInvariant(init);
      assert h == init + [tx];
      if tx.IntakeTx? {
        IntakeKeeps(init, tx);
      } else {
        SeenEarlier(init, tx);
        ValidPrefix(init, tx.seen);
        LedgerInvariant(init[..tx.seen]);
        EscalationKeeps(init, tx);
      }
    }
  }

  lemma NothingIsOk()
    ensures LedgerOk([])
  {}

  lemma SeenEarlier(init: seq<Tx>, tx: Tx)
    requires Possible(init, tx) && tx.EscalateTx?
    ensures tx.seen <= |init|
  {}

  lemma ReplayStep(init: seq<Tx>, tx: Tx)
    ensures Replay(init + [tx]) == Append(Replay(init), Added(init, tx))
    ensures tx.IntakeTx? ==> Added(init, tx) == IntakeRows(tx.row, tx.result, tx.startedAt)
    ensures tx.EscalateTx? && tx.seen <= |init| ==>
                Added(init, tx) == EscalationRows(Replay(init[..tx.seen]), tx.id, tx.user, tx.note)
  {
    var h := init + [tx];
    assert h[..|h| - 1] == init;
  }

  lemma UserEventsStep(init: seq<Tx>, tx: Tx, row: RequestRow, run: RunRow)
    ensures UserEvents(init + [tx], row, run) == UserEvents(init, row, run)
            + (if tx.EscalateTx? && tx.id == row.id then [EscalationEvent(row, Some(run), tx.user, tx.note)] else [])
  {
    var h := init + [tx];
    assert h[..|h| - 1] == init;
  }

  lemma {:induction false} NoUserEventsBefore(h: seq<Tx>, row: RequestRow, run: RunRow)
    requires ValidHistory(h) && GetRequest(Replay(h).requests, row.id).None?
    ensures UserEvents(h, row, run) == []
    decreases |h|
  {
    hide Replay, Added, GetRequest, EscalationEvent, Fresh, RunOf;
    if h != [] {
      var init, tx := h[..|h| - 1], h[|h| - 1];
      assert h == init + [tx];
      ReplayStep(init, tx);
      StoreOnlyGrows(h, |init|);
      GetRequestPrefix(Replay(init).requests, Replay(h).requests, row.id);
      NoUserEventsBefore(init, row, run);
      if tx.EscalateTx? {
        StoreOnlyGrows(init, tx.seen);
        GetRequestPrefix(Replay(init[..tx.seen]).requests, Replay(init).requests, row.id);
      }
    }
  }

  lemma GetRequestPrefix(a: seq<RequestRow>, b: seq<RequestRow>, id: nat)
    requires a <= b
    ensures GetRequest(a, id).Some? ==> GetRequest(b, id) == GetRequest(a, id)
  {
    assert b == a + b[|a|..];
    GetRequestAppend(a, b[|a|..], id);
  }

  lemma RunHasItsReference(row: RequestRow, result: RunResult)
    requires exists conn :: result == RunOf(row.correlationId, STEP_NAMES, conn, RequestOf(row))
    ensures result.correlationId == row.correlationId && result.verdicts != []
  {
    var conn :| result == RunOf(row.correlationId, STEP_NAMES, conn, RequestOf(row));
    WalkIsNotEmpty(STEP_NAMES, conn, RequestOf(row));
  }

  lemma IntakeRowsAreOfTheRequest(row: RequestRow, result: RunResult, startedAt: int)
    requires result.correlationId == row.correlationId
    ensures var rows := IntakeRows(row, result, startedAt);
            && rows == Tables([row], [RunRowOf(row, result, startedAt)], [ReceivedEvent(row)] + RunEvents(row, result))
            && RunRowOf(row, result, startedAt).requestId == row.id
            && RunRowOf(row, result, startedAt).correlationId == row.correlationId
            && forall a :: a in rows.audit ==> a.correlationId == row.correlationId && a.subject == row.subject
  {}

  // An intake that was already there keeps its account when another one commits.
  lemma OtherIntakeKeepsAccount(init: seq<Tx>, tx: Tx, old': Tx)
    requires LedgerOk(init) && tx.IntakeTx? && Possible(init, tx)
    requires old' in init && old'.IntakeTx?
    ensures Accounted(init + [tx], Replay(init + [tx]), old')
  {
    hide RunOf, IntakeRows, RunEvents, RunRowOf, ReceivedEvent, EscalationEvent, EventsFor, RunsFor, GetRequest,
         Replay, Added, UserEvents;
    var t := Replay(init);
    ReplayStep(init, tx);
    RunHasItsReference(tx.row, tx.result);
    var rows := IntakeRows(tx.row, tx.result, tx.startedAt);
    IntakeRowsAreOfTheRequest(tx.row, tx.result, tx.startedAt);
    assert Accounted(init, t, old');
    GetRequestFinds(t.requests, old'.row.id);
    GetRequestFinds(t.requests, tx.row.id);
    GetRequestAppend(t.requests, rows.requests, old'.row.id);
    RunsForAppend(t.runs, rows.runs, old'.row.id);
    RunsForNone(rows.runs, old'.row.id);
    EventsForAppend(t.audit, rows.audit, old'.row.correlationId);
    EventsForNone(rows.audit, old'.row.correlationId);
    UserEventsStep(init, tx, old'.row, RunRowOf(old'.row, old'.result, old'.startedAt));
  }

  // Nothing in the store mentions a request that is not there.
  lemma NothingBefore(h: seq<Tx>, row: RequestRow)
    requires NoOrphans(h, Replay(h)) && Fresh(Replay(h), row)
    ensures RunsFor(Replay(h).runs, row.id) == []
    ensures EventsFor(Replay(h).audit, row.correlationId) == []
  {
    hide Replay, GetRequest, RunsFor, EventsFor;
    var t := Replay(h);
    GetRequestFinds(t.requests, row.id);
    forall r | r in t.runs ensures r.requestId != row.id {
      var q :| q in t.requests && q.id == r.requestId && q.correlationId == r.correlationId;
    }
    RunsForNone(t.runs, row.id);
    forall a | a in t.audit ensures a.correlationId != row.correlationId {
      var q :| q in t.requests && q.correlationId == a.correlationId && q.subject == a.subject;
    }
    EventsForNone(t.audit, row.correlationId);
  }

  lemma SingleRun(run: RunRow)
    ensures RunsFor([run], run.requestId) == [run]
  {}

  lemma SingleRequest(row: RequestRow)
    ensures GetRequest([row], row.id) == Some(row)
  {}

  lemma NewIntakeIsAccounted(init: seq<Tx>, tx: Tx)
    requires ValidHistory(init) && LedgerOk(init) && tx.IntakeTx? && Possible(init, tx)
    ensures Accounted(init + [tx], Replay(init + [tx]), tx)
  {
    hide RunOf, IntakeRows, RunEvents, RunRowOf, ReceivedEvent, EscalationEvent, EventsFor, RunsFor, GetRequest,
         Replay, Added, UserEvents, ValidHistory, NoOrphans;
    var t := Replay(init);
    ReplayStep(init, tx);
    RunHasItsReference(tx.row, tx.result);
    var rows, run := IntakeRows(tx.row, tx.result, tx.startedAt), RunRowOf(tx.row, tx.result, tx.startedAt);
    IntakeRowsAreOfTheRequest(tx.row, tx.result, tx.startedAt);
    NothingBefore(init, tx.row);
    GetRequestAppend(t.requests, rows.requests, tx.row.id);
    SingleRequest(tx.row);
    RunsForAppend(t.runs, rows.runs, tx.row.id);
    SingleRun(run);
    EventsForAppend(t.audit, rows.audit, tx.row.correlationId);
    EventsForAll(rows.audit, tx.row.correlationId);
    UserEventsStep(init, tx, tx.row, run);
    NoUserEventsBefore(init, tx.row, run);
  }

  lemma IntakeLeavesNoOrphans(init: seq<Tx>, tx: Tx)
    requires LedgerOk(init) && tx.IntakeTx? && Possible(init, tx)
    ensures NoOrphans(init + [tx], Replay(init + [tx]))
  {
    hide RunOf, IntakeRows, RunEvents, RunRowOf, ReceivedEvent, GetRequest, Replay, Added, Accounted;
    var t, u := Replay(init), Replay(init + [tx]);
    ReplayStep(init, tx);
    RunHasItsReference(tx.row, tx.result);
    IntakeRowsAreOfTheRequest(tx.row, tx.result, tx.startedAt);
    GetRequestFinds(t.requests, tx.row.id);
    assert u.requests[|t.requests|] == tx.row;
    OldRowsHaveRequests(init, t, u);
    forall q | q in u.requests ensures exists x :: x in init + [tx] && x.IntakeTx? && x.row == q {
      if q in t.requests {
        var x :| x in init && x.IntakeTx? && x.row == q;
        assert x in init + [tx];
      } else {
        assert tx in init + [tx] && q == tx.row;
      }
    }
    forall r | r in u.runs
      ensures exists q :: q in u.requests && q.id == r.requestId && q.correlationId == r.correlationId
    {
      assert r in t.runs || r == RunRowOf(tx.row, tx.result, tx.startedAt);
    }
    forall a | a in u.audit
      ensures exists q :: q in u.requests && q.correlationId == a.correlationId && q.subject == a.subject
    {
      assert a in t.audit || a in IntakeRows(tx.row, tx.result, tx.startedAt).audit;
    }
  }

  // Rows that had a request still have it when more requests come.
  lemma OldRowsHaveRequests(h: seq<Tx>, t: Tables, u: Tables)
    requires NoOrphans(h, t) && t.requests <= u.requests
    ensures forall r :: r in t.runs ==>
                exists q :: q in u.requests && q.id == r.requestId && q.correlationId == r.correlationId
    ensures forall a :: a in t.audit ==>
                exists q :: q in u.requests && q.correlationId == a.correlationId && q.subject == a.subject
  {
    forall r | r in t.runs
      ensures exists q :: q in u.requests && q.id == r.requestId && q.correlationId == r.correlationId
    {
      var q :| q in t.requests && q.id == r.requestId && q.correlationId == r.correlationId;
      assert q in u.requests;
    }
    forall a | a in t.audit
      ensures exists q :: q in u.requests && q.correlationId == a.correlationId && q.subject == a.subject
    {
      var q :| q in t.requests && q.correlationId == a.correlationId && q.subject == a.subject;
      assert q in u.requests;
    }
  }

  lemma IntakeKeeps(init: seq<Tx>, tx: Tx)
    requires ValidHistory(init) && LedgerOk(init) && tx.IntakeTx? && Possible(init, tx)
    ensures LedgerOk(init + [tx])
  {
    IntakeLeavesNoOrphans(init, tx);
    NewIntakeIsAccounted(init, tx);
    forall x | x in init + [tx] && x.IntakeTx? ensures Accounted(init + [tx], Replay(init + [tx]), x) {
      if x != tx {
        OtherIntakeKeepsAccount(init, tx, x);
      }
    }
  }

  // Whatever an escalation read, it read the request and the one run that are there now.
  lemma EscalationReadsTheRun(init: seq<Tx>, tx: Tx) returns (x: Tx)
    requires LedgerOk(init) && tx.EscalateTx? && Possible(init, tx) && LedgerOk(init[..tx.seen])
    ensures x in init && x.IntakeTx? && x.row.id == tx.id
    ensures EscalationRows(Replay(init[..tx.seen]), tx.id, tx.user, tx.note)
         == Tables([], [], [EscalationEvent(x.row, Some(RunRowOf(x.row, x.result, x.startedAt)), tx.user, tx.note)])
  {
    hide EventsFor, RunsFor, GetRequest, Replay, EscalationEvent, RunRowOf, RunEvents, ReceivedEvent, UserEvents;
    var past := init[..tx.seen];
    var t := Replay(past);
    GetRequestFinds(t.requests, tx.id);
    var row := GetRequest(t.requests, tx.id).value;
    x :| x in past && x.IntakeTx? && x.row == row;
    assert Accounted(past, t, x);
    assert x in init;
    LatestOfOne(RunRowOf(x.row, x.result, x.startedAt));
  }

  lemma LatestOfOne(run: RunRow)
    ensures LatestRun([run]) == Some(run)
  {}

  lemma EventIsOfItsRequest(row: RequestRow, latest: Option<RunRow>, user: string, note: Option<string>)
    ensures EscalationEvent(row, latest, user, note).correlationId == row.correlationId
  {}

  lemma EscalationAccounts(init: seq<Tx>, tx: Tx, x: Tx, y: Tx)
    requires LedgerOk(init) && tx.EscalateTx? && Possible(init, tx)
    requires x in init && x.IntakeTx? && x.row.id == tx.id && y in init && y.IntakeTx?
    requires Replay(init + [tx]) == Append(Replay(init),
               Tables([], [], [EscalationEvent(x.row, Some(RunRowOf(x.row, x.result, x.startedAt)), tx.user, tx.note)]))
    ensures Accounted(init + [tx], Replay(init + [tx]), y)
  {
    hide EventsFor, RunsFor, GetRequest, Replay, EscalationEvent, RunRowOf, RunEvents, ReceivedEvent, UserEvents,
         Possible;
    var event := EscalationEvent(x.row, Some(RunRowOf(x.row, x.result, x.startedAt)), tx.user, tx.note);
    EventIsOfItsRequest(x.row, Some(RunRowOf(x.row, x.result, x.startedAt)), tx.user, tx.note);
    var t, u := Replay(init), Replay(init + [tx]);
    var run := RunRowOf(y.row, y.result, y.startedAt);
    assert Accounted(init, t, x) && Accounted(init, t, y);
    GetRequestFinds(t.requests, x.row.id);
    GetRequestFinds(t.requests, y.row.id);
    assert u.requests == t.requests && u.runs == t.runs;
    EventsForAppend(t.audit, [event], y.row.correlationId);
    UserEventsStep(init, tx, y.row, run);
    if y.row.id == tx.id {
      assert y.row == x.row && [run] == [RunRowOf(x.row, x.result, x.startedAt)];
      assert run == [run][0];
      EventsForAll([event], y.row.correlationId);
    } else {
      EventsForNone([event], y.row.correlationId);
    }
  }

  lemma EscalationKeeps(init: seq<Tx>, tx: Tx)
    requires LedgerOk(init) && tx.EscalateTx? && Possible(init, tx) && LedgerOk(init[..tx.seen])
    ensures LedgerOk(init + [tx])
  {
    hide EventsFor, RunsFor, GetRequest, Replay, RunRowOf, RunEvents, ReceivedEvent, UserEvents, LastStep;
    var x := EscalationReadsTheRun(init, tx);
    ReplayStep(init, tx);
    var t, u := Replay(init), Replay(init + [tx]);
    forall y | y in init + [tx] && y.IntakeTx? ensures Accounted(init + [tx], u, y) {
      EscalationAccounts(init, tx, x, y);
    }
    assert u.requests == t.requests && u.runs == t.runs;
    assert Accounted(init, t, x);
    GetRequestFinds(t.requests, x.row.id);
    forall a | a in u.audit
      ensures exists q :: q in u.requests && q.correlationId == a.correlationId && q.subject == a.subject
    {
      if a !in t.audit {
        assert x.row in u.requests;
      }
    }
    forall q | q in u.requests ensures exists z :: z in init + [tx] && z.IntakeTx? && z.row == q {
      var z :| z in init && z.IntakeTx? && z.row == q;
      assert z in init + [tx];
    }
  }

  /* ----- the record of one request, in plain terms ----- */

  function Kinds(events: seq<AuditRow>): seq<AuditKind> {
    seq(|events|, i requires 0 <= i < |events| => events[i].kind)
  }

  function Times(n: nat, kind: AuditKind): seq<AuditKind> { seq(n, i => kind) }

  // How many committed escalations concern this request.
  function Escalations(h: seq<Tx>, id: nat): nat
    decreases |h|
  {
    if h == [] then 0
    else Escalations(h[..|h| - 1], id) + (if h[|h| - 1].EscalateTx? && h[|h| - 1].id == id then 1 else 0)
  }

  lemma KindsAppend(a: seq<AuditRow>, b: seq<AuditRow>)
    ensures Kinds(a + b) == Kinds(a) + Kinds(b)
  {}

  lemma TimesAppend(m: nat, n: nat, kind: AuditKind)
    ensures Times(m + n, kind) == Times(m, kind) + Times(n, kind)
  {}

  lemma {:induction false} UserEventKinds(h: seq<Tx>, row: RequestRow, run: RunRow)
    ensures Kinds(UserEvents(h, row, run)) == Times(Escalations(h, row.id), EscalationCreated)
    decreases |h|
  {
    if h != [] {
      var init, tx := h[..|h| - 1], h[|h| - 1];
      UserEventKinds(init, row, run);
      if tx.EscalateTx? && tx.id == row.id {
        var event := EscalationEvent(row, Some(run), tx.user, tx.note);
        KindsAppend(UserEvents(init, row, run), [event]);
        TimesAppend(Escalations(init, row.id), 1, EscalationCreated);
        assert Kinds([event]) == Times(1, EscalationCreated);
      } else {
        assert UserEvents(h, row, run) == UserEvents(init, row, run) + [];
      }
    }
  }

  lemma RunEventKinds(row: RequestRow, result: RunResult)
    ensures Kinds([ReceivedEvent(row)] + RunEvents(row, result))
         == [RequestReceived, RunCompleted] + Times(if result.escalated then 1 else 0, EscalationCreated)
  {}

  // After any history: a committed request has exactly one run, which stores the result it was
  // answered with, and its events are received, completed, one escalation if that run was
  // escalated, and one per user escalation since.
  lemma RecordOfARequest(h: seq<Tx>, tx: Tx)
    requires ValidHistory(h) && tx in h && tx.IntakeTx?
    ensures var t := Replay(h);
            var runs := RunsFor(t.runs, tx.row.id);
            && |runs| == 1
            && runs[0].verdicts == tx.result.verdicts && runs[0].outcome == tx.result.outcome
            && runs[0].escalated == tx.result.escalated && runs[0].resetUrl == tx.result.resetUrl
            && runs[0].correlationId == tx.row.correlationId
            && Kinds(EventsFor(t.audit, tx.row.correlationId))
               == [RequestReceived, RunCompleted]
                  + Times((if tx.result.escalated then 1 else 0) + Escalations(h, tx.row.id), EscalationCreated)
  {
    hide EventsFor, RunsFor, GetRequest, Replay, UserEvents, ValidHistory, NoOrphans, EscalationEvent, RunEvents,
         ReceivedEvent, Kinds, Times, Escalations;
    LedgerInvariant(h);
    assert Accounted(h, Replay(h), tx);
    IntakeHasResult(h, tx);
    var run := RunRowOf(tx.row, tx.result, tx.startedAt);
    UserEventKinds(h, tx.row, run);
    RunEventKinds(tx.row, tx.result);
    KindsAppend([ReceivedEvent(tx.row)] + RunEvents(tx.row, tx.result), UserEvents(h, tx.row, run));
    TimesAppend(if tx.result.escalated then 1 else 0, Escalations(h, tx.row.id), EscalationCreated);
    var mine := RunsFor(Replay(h).runs, tx.row.id);
    assert mine == [run] && mine[0] == run;
  }

  /* ----- what a later escalation says ----- */

  // At any time after an intake committed, an escalation of its request answers from that
  // intake's own result: its last step, its cause, its link, its reference.
  lemma EscalationAnswersFromTheResult(h: seq<Tx>, tx: Tx)
    requires ValidHistory(h) && tx in h && tx.IntakeTx?
    ensures var t := Replay(h);
            var found := GetRequest(t.requests, tx.row.id);
            var last := tx.result.verdicts;
            && found == Some(tx.row) && last != []
            && EscalationMessageFor(tx.row, LatestRun(RunsFor(t.runs, tx.row.id)))
               == BuildEscalationMessage(Some(last[|last| - 1].step), last[|last| - 1].cause, tx.result.resetUrl,
                   tx.row.correlationId)
  {
    hide EventsFor, RunsFor, GetRequest, Replay, RunEvents, ReceivedEvent, UserEvents, BuildEscalationMessage,
         ValidHistory, NoOrphans;
    LedgerInvariant(h);
    assert Accounted(h, Replay(h), tx);
    IntakeHasResult(h, tx);
    LatestOfOne(RunRowOf(tx.row, tx.result, tx.startedAt));
  }

  lemma {:induction false} IntakeHasResult(h: seq<Tx>, tx: Tx)
    requires ValidHistory(h) && tx in h && tx.IntakeTx?
    ensures tx.result.verdicts != [] && tx.result.correlationId == tx.row.correlationId
    decreases |h|
  {
    var init, last := h[..|h| - 1], h[|h| - 1];
    assert h == init + [last];
    if tx == last {
      RunHasItsReference(tx.row, tx.result);
    } else {
      IntakeHasResult(init, tx);
    }
  }

  /* ----- the reset link, from the first answer to the last ----- */

  // The run this intake stored walked the funnel over conn, whose status check met q.
  ghost predicate RanOver(tx: Tx, conn: Connector, q: StatusQuery) {
    && tx.IntakeTx? && tx.result == RunOf(tx.row.correlationId, STEP_NAMES, conn, RequestOf(tx.row))
    && AnswersStatus(conn, RequestOf(tx.row), q)
  }

  // One and the same condition decides the link everywhere and for ever: in the answer to the
  // intake, in the stored run, and in the answer to every later escalation.
  lemma LinkIsTheSameEverywhere(h: seq<Tx>, tx: Tx, conn: Connector, q: StatusQuery, link: string)
    requires ValidHistory(h) && tx in h && RanOver(tx, conn, q)
    ensures var offers := OffersReset(conn, RequestOf(tx.row), q, link);
            var runs := RunsFor(Replay(h).runs, tx.row.id);
            var answer, escalation := BuildVerdictMessage(tx.result), EscalationMessageFor(tx.row, LatestRun(runs));
            && answer.Some? && (answer.value.link == Some(link) <==> offers)
            && |runs| == 1 && (runs[0].resetUrl == Some(link) <==> offers)
            && escalation.Some? && (escalation.value.link == Some(link) <==> offers)
  {
    hide EventsFor, RunsFor, GetRequest, Replay, RunEvents, ReceivedEvent, UserEvents, ValidHistory, NoOrphans, RunOf,
         BuildVerdictMessage, BuildEscalationMessage, EscalationMessageFor, LatestRun, OffersReset, AnswersStatus,
         RequestOf;
    LedgerInvariant(h);
    assert Accounted(h, Replay(h), tx);
    IntakeHasResult(h, tx);
    EscalationAnswersFromTheResult(h, tx);
    MessagesShowLinkIff(tx.row.correlationId, conn, RequestOf(tx.row), q, link);
    ResultCarriesLinkIff(tx.row.correlationId, conn, RequestOf(tx.row), q, link);
    var runs := RunsFor(Replay(h).runs, tx.row.id);
    assert runs == [RunRowOf(tx.row, tx.result, tx.startedAt)] && runs[0] == RunRowOf(tx.row, tx.result, tx.startedAt);
  }

  /* ----- the service, call by call ----- */

  // The committed call that answered this complaint.
  ghost function IntakeOf(c: Complaint, w: World): Tx
    requires Resolved(c, w).Answer? && Resolved(c, w).value.Some? && w.parse.Answer?
  {
    IntakeTx(NewRow(c, w), ResultOf(w, NewRow(c, w)), w.startedAt)
  }

  // The API over one database, with the history of its committed calls.
  class Service {
    const db: Database
    const llm: LlmClient
    ghost var history: seq<Tx>

    ghost predicate Valid()
      reads this, db
    {
      ValidHistory(history) && db.committed == Replay(history)
    }

    constructor ()
      ensures Valid() && history == [] && fresh(db) && fresh(llm)
    {
      db := new Database();
      llm := new LlmClient();
      history := [];
    }

    // Generated correlation ids are assumed not to repeat; the database itself refuses a
    // repeated key. The answer shows a link exactly when a reset is what helps.
    method Intake(systems: map<string, bool>, c: Complaint, w: World) returns (r: Result<IntakeResponse>)
      requires Valid() && forall q :: q in db.committed.requests ==> q.correlationId != w.correlationId
      modifies this, db, llm
      ensures Valid() && LedgerOk(history)
      ensures r == IntakeAnswer(old(db.committed.requests), systems, c, w)
      ensures r.Err? ==> history == old(history)
      ensures r.Ok? ==> Resolved(c, w).Answer? && Resolved(c, w).value.Some? && w.parse.Answer?
      ensures r.Ok? ==> history == old(history) + [IntakeOf(c, w)]
      ensures r.Ok? ==> forall q, link :: RanOver(IntakeOf(c, w), w.connector(SystemOf(c)), q) ==>
                (r.value.message.link == Some(link) <==>
                  OffersReset(w.connector(SystemOf(c)), RequestOf(NewRow(c, w)), q, link))
    {
      hide RunOf, OffersReset, BuildVerdictMessage, BuildEscalationMessage, AnswersStatus, LedgerOk;
      ghost var before := db.committed;
      r := SubmitIntake(db, llm, systems, c, w);
      if r.Ok? {
        ghost var tx := IntakeOf(c, w);
        ReplayStep(history, tx);
        assert Fresh(before, tx.row);
        assert (history + [tx])[..|history|] == history;
        history := history + [tx];
        forall q, link | RanOver(tx, w.connector(SystemOf(c)), q)
          ensures r.value.message.link == Some(link)
                  <==> OffersReset(w.connector(SystemOf(c)), RequestOf(tx.row), q, link)
        {
          LinkIsTheSameEverywhere(history, tx, w.connector(SystemOf(c)), q, link);
        }
      }
      LedgerInvariant(history);
    }

    // Whenever it comes, an escalation shows the link that the answer to its intake showed.
    method Escalate(killed: bool, id: nat, user: string, note: Option<string>, flushed: bool, committed: bool)
      returns (r: Result<Message>)
      requires Valid()
      modifies this, db
      ensures Valid() && LedgerOk(history)
      ensures r.Err? ==> history == old(history)
      ensures r.Ok? <==> !killed && GetRequest(old(db.committed.requests), id).Some? && flushed && committed
      ensures r.Ok? ==> history == old(history) + [EscalateTx(id, user, note, |old(history)|)]
      ensures r.Ok? ==> forall tx, conn, q, link :: tx in old(history) && RanOver(tx, conn, q) && tx.row.id == id ==>
                (r.value.link == Some(link) <==> OffersReset(conn, RequestOf(tx.row), q, link))
    {
      hide RunOf, OffersReset, BuildVerdictMessage, BuildEscalationMessage, EscalationMessageFor, LedgerOk;
      ghost var before, t := history, db.committed;
      r := EscalateIntake(db, killed, id, user, note, flushed, committed);
      if r.Ok? {
        ghost var tx := EscalateTx(id, user, note, |history|);
        ReplayStep(history, tx);
        assert history[..|history|] == history;
        assert (history + [tx])[..|history|] == history;
        history := history + [tx];
        forall x, conn, q, link | x in before && RanOver(x, conn, q) && x.row.id == id
          ensures r.value.link == Some(link) <==> OffersReset(conn, RequestOf(x.row), q, link)
        {
          LinkIsTheSameEverywhere(before, x, conn, q, link);
          EscalationAnswersFromTheResult(before, x);
        }
      }
      LedgerInvariant(history);
    }
  }
}
