/**
 The request / run / audit store and the API calls that write it. Each call opens one
 session; what it adds becomes visible to others only if the call ends without an
 exception, and then all at once.
 */
module Ledger {
  import opened Common
  import opened Verdicts
  import opened Funnel
  import opened VerdictMessages

  /* ----- rows ----- */

  datatype Draft = Draft(category: string, summary: string, mentionedSubject: Option<string>)

  datatype RequestRow = RequestRow(
    id: nat, correlationId: string, requester: string, subject: string,
    systemId: string, text: string, draft: Draft)

  datatype RunRow = RunRow(
    requestId: nat, correlationId: string, verdicts: seq<Verdict>,
    outcome: Outcome, escalated: bool, resetUrl: Option<string>, startedAt: int)

  datatype AuditKind = RequestReceived | RunCompleted | EscalationCreated

  datatype Payload =
    | Intake(systemId: string, category: string)
    | Diagnosis(result: RunResult)
    | UserRequest(note: Option<string>, scenario: Option<FunnelStep>, bundle: Option<(seq<Verdict>, Outcome)>)

  datatype AuditRow = AuditRow(correlationId: string, requester: string, subject: string, kind: AuditKind,
                               payload: Payload)

  datatype Tables = Tables(requests: seq<RequestRow>, runs: seq<RunRow>, audit: seq<AuditRow>)

  const EMPTY := Tables([], [], [])

  function Append(t: Tables, more: Tables): Tables {
    Tables(t.requests + more.requests, t.runs + more.runs, t.audit + more.audit)
  }

  /* ----- reading ----- */

  // The row with this primary key.
  function GetRequest(requests: seq<RequestRow>, id: nat): Option<RequestRow> {
    if requests == [] then None
    else if requests[0].id == id then Some(requests[0])
    else GetRequest(requests[1..], id)
  }

  function RunsFor(runs: seq<RunRow>, id: nat): seq<RunRow> {
    if runs == [] then []
    else if runs[0].requestId == id then [runs[0]] + RunsFor(runs[1..], id)
    else RunsFor(runs[1..], id)
  }

  function EventsFor(audit: seq<AuditRow>, correlationId: string): seq<AuditRow> {
    if audit == [] then []
    else if audit[0].correlationId == correlationId then [audit[0]] + EventsFor(audit[1..], correlationId)
    else EventsFor(audit[1..], correlationId)
  }

  // The run that started last, the first such one.
  function LatestRun(runs: seq<RunRow>): Option<RunRow> {
    if runs == [] then None
    else
      var rest := LatestRun(runs[1..]);
      if rest.Some? && rest.value.startedAt > runs[0].startedAt then rest else Some(runs[0])
  }

  /* ----- what a call commits ----- */

  function RunRowOf(row: RequestRow, result: RunResult, startedAt: int): RunRow {
    RunRow(row.id, result.correlationId, result.verdicts, result.outcome, result.escalated, result.resetUrl, startedAt)
  }

  // What run_diagnostic rebuilds from a stored request: everything but the text and the
  // subject the draft mentions.
  function RequestOf(row: RequestRow): DiagnosticRequest {
    DiagnosticRequest(row.correlationId, row.requester, row.subject, row.systemId, row.draft.category,
                      row.draft.summary)
  }

  function ReceivedEvent(row: RequestRow): AuditRow {
    AuditRow(row.correlationId, row.subject, row.subject, RequestReceived, Intake(row.systemId, row.draft.category))
  }

  function RunEvents(row: RequestRow, result: RunResult): seq<AuditRow> {
    [AuditRow(result.correlationId, row.subject, row.subject, RunCompleted, Diagnosis(result))]
    + (if result.escalated
       then [AuditRow(result.correlationId, row.subject, row.subject, EscalationCreated, Diagnosis(result))]
       else [])
  }

  function IntakeRows(row: RequestRow, result: RunResult, startedAt: int): Tables {
    Tables([row], [RunRowOf(row, result, startedAt)], [ReceivedEvent(row)] + RunEvents(row, result))
  }

  // The event of a user's escalation, made of what the stored run says.
  function EscalationEvent(row: RequestRow, latest: Option<RunRow>, user: string, note: Option<string>): AuditRow {
    AuditRow(row.correlationId, user, row.subject, EscalationCreated,
             UserRequest(note, LastStep(latest),
                         if latest.None? then None else Some((latest.value.verdicts, latest.value.outcome))))
  }

  function LastStep(latest: Option<RunRow>): Option<FunnelStep> {
    if latest.None? || latest.value.verdicts == [] then None
    else Some(latest.value.verdicts[|latest.value.verdicts| - 1].step)
  }

  function LastCause(latest: Option<RunRow>): Option<string> {
    if latest.None? || latest.value.verdicts == [] then None
    else latest.value.verdicts[|latest.value.verdicts| - 1].cause
  }

  function EscalationMessageFor(row: RequestRow, latest: Option<RunRow>): Option<Message> {
    BuildEscalationMessage(LastStep(latest), LastCause(latest),
                           if latest.None? then None else latest.value.resetUrl, row.correlationId)
  }

  /* ----- session and database ----- */

  datatype Error = KillSwitchEngaged | NotFound | ConnectorNotRegistered | LoginNotFound | Failure

  datatype Result<+T> = Ok(value: T) | Err(error: Error)

  class Database {
    var committed: Tables

    constructor ()
      ensures committed == EMPTY
    {
      committed := EMPTY;
    }
  }

  class Session {
    const db: Database
    var pending: Tables

    constructor (db: Database)
      ensures this.db == db && pending == EMPTY
    {
      this.db := db;
      pending := EMPTY;
    }

    // What a query in this session sees: the committed rows and its own.
    function View(): Tables
      reads this, db
    {
      Append(db.committed, pending)
    }

    // add and flush; the database refuses a second row with the same key.
    method CreateRequest(row: RequestRow, flushed: bool) returns (ok: bool)
      modifies this`pending
      ensures ok <==> flushed && GetRequest(old(View()).requests, row.id).None?
      ensures pending == if ok then Append(old(pending), Tables([row], [], [])) else old(pending)
    {
      ok := flushed && GetRequest(View().requests, row.id).None?;
      if ok { pending := Append(pending, Tables([row], [], [])); }
    }

    // add and flush; the database refuses a run without its request.
    method CreateRun(row: RunRow, flushed: bool) returns (ok: bool)
      modifies this`pending
      ensures ok <==> flushed && GetRequest(old(View()).requests, row.requestId).Some?
      ensures pending == if ok then Append(old(pending), Tables([], [row], [])) else old(pending)
    {
      ok := flushed && GetRequest(View().requests, row.requestId).Some?;
      if ok { pending := Append(pending, Tables([], [row], [])); }
    }

    method AppendEvent(row: AuditRow, flushed: bool) returns (ok: bool)
      modifies this`pending
      ensures ok == flushed
      ensures pending == if ok then Append(old(pending), Tables([], [], [row])) else old(pending)
    {
      ok := flushed;
      if ok { pending := Append(pending, Tables([], [], [row])); }
    }

    method Commit(done: bool) returns (ok: bool)
      modifies this`pending, db
      ensures ok == done && pending == EMPTY
      ensures db.committed == if done then old(View()) else old(db.committed)
    {
      ok := done;
      if done { db.committed := View(); }
      pending := EMPTY;
    }

    method Rollback()
      modifies this`pending
      ensures pending == EMPTY
    {
      pending := EMPTY;
    }
  }

  class LlmClient {
    var calls: nat

    constructor ()
      ensures calls == 0
    {
      calls := 0;
    }

    method Parse(reply: Reply<Draft>) returns (r: Reply<Draft>)
      modifies this
      ensures r == reply && calls == old(calls) + 1
    {
      calls := calls + 1;
      r := reply;
    }
  }

  /* ----- POST /intake ----- */

  const DEFAULT_SYSTEM_ID := "openiam"

  datatype Complaint = Complaint(login: string, text: string, systemId: Option<string>)

  // What the world does during one intake call: the generated identifiers, the connector of
  // each system, the language model's reply, and whether each write and the commit go through.
  datatype World = World(
    killed: bool, id: nat, correlationId: string,
    connector: string -> Connector, parse: Reply<Draft>, startedAt: int,
    requestFlushed: bool, receivedFlushed: bool,
    runFlushed: bool, completedFlushed: bool, escalationFlushed: bool, committed: bool)

  function SystemOf(c: Complaint): string {
    if c.systemId.GetOr("") == "" then DEFAULT_SYSTEM_ID else c.systemId.value
  }

  function RowOf(c: Complaint, w: World, subject: string, draft: Draft): RequestRow {
    RequestRow(w.id, w.correlationId, subject, subject, SystemOf(c), c.text, draft)
  }

  // What the connector of the system makes of the login.
  function Resolved(c: Complaint, w: World): Reply<Option<string>> { w.connector(SystemOf(c)).resolve(c.login) }

  // The row an intake stores once its login is resolved and its text parsed.
  function NewRow(c: Complaint, w: World): RequestRow
    requires Resolved(c, w).Answer? && Resolved(c, w).value.Some? && w.parse.Answer?
  {
    RowOf(c, w, Resolved(c, w).value.value, w.parse.value)
  }

  // The funnel over a stored request.
  ghost function ResultOf(w: World, row: RequestRow): RunResult {
    RunOf(row.correlationId, STEP_NAMES, w.connector(row.systemId), RequestOf(row))
  }

  // The exception of a submission that does not go through.
  function SubmitError(systems: map<string, bool>, c: Complaint, w: World): Error {
    if SystemOf(c) !in systems then Error.NotFound
    else if !systems[SystemOf(c)] then ConnectorNotRegistered
    else if Resolved(c, w) == Answer(None) then LoginNotFound
    else Failure
  }

  // The language model is asked only for a login that resolved.
  predicate Parses(systems: map<string, bool>, c: Complaint, w: World) {
    && SystemOf(c) in systems && systems[SystemOf(c)]
    && Resolved(c, w).Answer? && Resolved(c, w).value.Some?
  }

  // submit(): resolve the login, then parse, then write.
  method Submit(session: Session, llm: LlmClient, systems: map<string, bool>, c: Complaint, w: World)
    returns (r: Result<RequestRow>)
    requires session.pending == EMPTY
    modifies session`pending, llm
    ensures r.Ok? <==> Parses(systems, c, w) && w.parse.Answer?
                       && w.requestFlushed && GetRequest(session.db.committed.requests, w.id).None? && w.receivedFlushed
    ensures r.Ok? ==> r.value == NewRow(c, w)
                      && session.pending == Tables([r.value], [], [ReceivedEvent(r.value)])
    ensures r.Ok? ==>
              var resolved := w.connector(SystemOf(c)).resolve(c.login);
              && resolved.Answer? && resolved.value.Some?
              && r.value.subject == r.value.requester == resolved.value.value
              && r.value.id == w.id && r.value.correlationId == w.correlationId && r.value.text == c.text
              && (c.systemId == None || c.systemId == Some("") ==> r.value.systemId == "openiam")
              && (c.systemId != None && c.systemId != Some("") ==> Some(r.value.systemId) == c.systemId)
              && w.parse == Answer(r.value.draft)
    ensures r.Err? ==> r.error == SubmitError(systems, c, w)
    ensures llm.calls == old(llm.calls) + if Parses(systems, c, w) then 1 else 0
    ensures !Parses(systems, c, w) ==> session.pending == EMPTY
  {
    var system := SystemOf(c);
    if system !in systems { return Err(Error.NotFound); }
    if !systems[system] { return Err(ConnectorNotRegistered); }
    var resolved := w.connector(system).resolve(c.login);
    if resolved.Raise? { return Err(Failure); }
    if resolved.value.None? { return Err(LoginNotFound); }
    var subject := resolved.value.value;
    var draft := llm.Parse(w.parse);
    if draft.Raise? { return Err(Failure); }
    var row := RowOf(c, w, subject, draft.value);
    assert session.View().requests == session.db.committed.requests;
    var ok := session.CreateRequest(row, w.requestFlushed);
    if !ok { return Err(Failure); }
    ok := session.AppendEvent(ReceivedEvent(row), w.receivedFlushed);
    if !ok { return Err(Failure); }
    r := Ok(row);
  }

  // run_diagnostic(): read the request back, walk the funnel, write the run and its events.
  method RunDiagnostic(session: Session, id: nat, systems: map<string, bool>, w: World) returns (r: Result<RunResult>)
    modifies session`pending
    ensures var found := GetRequest(old(session.View()).requests, id);
            && (found.None? ==> r == Err(Error.NotFound) && session.pending == old(session.pending))
            && (found.Some? && r.Ok? ==>
                  var row := found.value;
                  r.value == ResultOf(w, row)
                  && session.pending == Append(old(session.pending),
                      Tables([], [RunRowOf(row, r.value, w.startedAt)], RunEvents(row, r.value))))
            && (found.Some? && r.Err? ==>
                  r.error == if found.value.systemId !in systems then Error.NotFound
                             else if !systems[found.value.systemId] then ConnectorNotRegistered else Failure)
            && (found.Some? ==> (r.Ok? <==>
                  found.value.systemId in systems && systems[found.value.systemId] && w.runFlushed && w.completedFlushed
                  && (ResultOf(w, found.value).escalated ==> w.escalationFlushed)))
  {
    hide RunOf, GetRequest;
    var found := GetRequest(session.View().requests, id);
    if found.None? { return Err(Error.NotFound); }
    var row := found.value;
    GetRequestFinds(session.View().requests, id);
    if row.systemId !in systems { return Err(Error.NotFound); }
    if !systems[row.systemId] { return Err(ConnectorNotRegistered); }
    var draft := row.draft;
    var request := DiagnosticRequest(row.correlationId, row.requester, row.subject, row.systemId, draft.category,
                                     draft.summary);
    var ctx := new DiagnosticContext(request, w.connector(row.systemId), request.correlationId);
    var result := Run(ctx, STEP_NAMES);
    var ok := session.CreateRun(RunRowOf(row, result, w.startedAt), w.runFlushed);
    if !ok { return Err(Failure); }
    ok := session.AppendEvent(RunEvents(row, result)[0], w.completedFlushed);
    if !ok { return Err(Failure); }
    if result.escalated {
      ok := session.AppendEvent(RunEvents(row, result)[1], w.escalationFlushed);
      if !ok { return Err(Failure); }
    }
    r := Ok(result);
  }

  lemma {:induction false} GetRequestFinds(requests: seq<RequestRow>, id: nat)
    ensures var found := GetRequest(requests, id);
            if found.Some? then found.value in requests && found.value.id == id
            else forall q :: q in requests ==> q.id != id
  {
    if requests != [] {
      GetRequestFinds(requests[1..], id);
      assert requests == [requests[0]] + requests[1..];
    }
  }

  lemma {:induction false} GetRequestAppend(a: seq<RequestRow>, b: seq<RequestRow>, id: nat)
    ensures GetRequest(a + b, id) == if GetRequest(a, id).Some? then GetRequest(a, id) else GetRequest(b, id)
  {
    if a == [] {
      assert a + b == b;
    } else {
      assert (a + b)[1..] == a[1..] + b;
      GetRequestAppend(a[1..], b, id);
    }
  }

  datatype IntakeResponse = IntakeResponse(requestId: nat, correlationId: string, message: Message, run: RunResult)

  // The conditions under which an intake call gets to its commit without an exception.
  ghost predicate IntakeCompletes(requests: seq<RequestRow>, systems: map<string, bool>, c: Complaint, w: World) {
    && !w.killed && Parses(systems, c, w) && w.parse.Answer?
    && w.requestFlushed && GetRequest(requests, w.id).None? && w.receivedFlushed
    && w.runFlushed && w.completedFlushed && (ResultOf(w, NewRow(c, w)).escalated ==> w.escalationFlushed)
  }

  ghost predicate IntakeSucceeds(requests: seq<RequestRow>, systems: map<string, bool>, c: Complaint, w: World) {
    IntakeCompletes(requests, systems, c, w) && w.committed
  }

  // What the caller of submit_intake is answered.
  ghost function IntakeAnswer(requests: seq<RequestRow>, systems: map<string, bool>, c: Complaint,
                              w: World): Result<IntakeResponse> {
    if w.killed then Err(KillSwitchEngaged)
    else if !IntakeSucceeds(requests, systems, c, w) then Err(SubmitError(systems, c, w))
    else
      var result := ResultOf(w, NewRow(c, w));
      EveryHoleIsSupplied(result);
      Ok(IntakeResponse(w.id, w.correlationId, BuildVerdictMessage(result).value, result))
  }

  // What it leaves in the store.
  ghost function IntakeTables(t: Tables, systems: map<string, bool>, c: Complaint, w: World): Tables {
    if IntakeSucceeds(t.requests, systems, c, w)
    then Append(t, IntakeRows(NewRow(c, w), ResultOf(w, NewRow(c, w)), w.startedAt))
    else t
  }

  // One intake on record: a request of the user the login resolved to, at the system it names;
  // a run of the four steps over that system's connector and that user; and its events.
  ghost predicate RecordsIntake(before: Tables, after: Tables, c: Complaint, w: World, run: RunResult) {
    var system := if c.systemId == None || c.systemId == Some("") then "openiam" else c.systemId.value;
    var resolved := w.connector(system).resolve(c.login);
    && resolved.Answer? && resolved.value.Some? && w.parse.Answer?
    && var user, draft := resolved.value.value, w.parse.value;
       var steps := [SystemAvailability, AccountStatus, AuthEvents, Authorization];
       var event := (kind, payload) => AuditRow(w.correlationId, user, user, kind, payload);
    && after.requests == before.requests + [RequestRow(w.id, w.correlationId, user, user, system, c.text, draft)]
    && run == RunOf(w.correlationId, steps, w.connector(system),
                    DiagnosticRequest(w.correlationId, user, user, system, draft.category, draft.summary))
    && after.runs == before.runs + [RunRow(w.id, w.correlationId, run.verdicts, run.outcome, run.escalated,
                                           run.resetUrl, w.startedAt)]
    && after.audit == before.audit
                      + [event(RequestReceived, Intake(system, draft.category)), event(RunCompleted, Diagnosis(run))]
                      + (if run.escalated then [event(EscalationCreated, Diagnosis(run))] else [])
  }

  lemma IntakeIsRecorded(t: Tables, systems: map<string, bool>, c: Complaint, w: World)
    requires IntakeSucceeds(t.requests, systems, c, w)
    ensures RecordsIntake(t, IntakeTables(t, systems, c, w), c, w, ResultOf(w, NewRow(c, w)))
  {
    hide RunOf;
    var row := NewRow(c, w);
    var after, run := IntakeTables(t, systems, c, w), ResultOf(w, row);
    assert STEP_NAMES == [SystemAvailability, AccountStatus, AuthEvents, Authorization];
    assert run.correlationId == w.correlationId by { ResultReference(w, row); }
    assert after.audit == t.audit + ([ReceivedEvent(row)] + RunEvents(row, run));
    assert [ReceivedEvent(row)] + RunEvents(row, run)
        == [ReceivedEvent(row), RunEvents(row, run)[0]] + RunEvents(row, run)[1..];
  }

  lemma ResultReference(w: World, row: RequestRow)
    ensures ResultOf(w, row).correlationId == row.correlationId
  {}

  // submit_intake inside get_db's session: all rows of the call, or none.
  method SubmitIntake(db: Database, llm: LlmClient, systems: map<string, bool>, c: Complaint, w: World)
    returns (r: Result<IntakeResponse>)
    modifies db, llm
    ensures r == IntakeAnswer(old(db.committed.requests), systems, c, w)
    ensures r.Ok? <==> IntakeSucceeds(old(db.committed.requests), systems, c, w)
    ensures db.committed == IntakeTables(old(db.committed), systems, c, w)
    ensures r.Ok? ==> RecordsIntake(old(db.committed), db.committed, c, w, r.value.run)
                      && r.value.requestId == w.id && r.value.correlationId == w.correlationId
                      && BuildVerdictMessage(r.value.run) == Some(r.value.message)
    ensures r.Err? ==> db.committed == old(db.committed)
    ensures w.killed ==> r == Err(KillSwitchEngaged)
    ensures llm.calls == old(llm.calls) + if !w.killed && Parses(systems, c, w) then 1 else 0
  {
    hide RecordsIntake, BuildVerdictMessage;
    if w.killed { return Err(KillSwitchEngaged); }
    var session := new Session(db);
    r := HandleIntake(session, llm, systems, c, w);
    if r.Err? {
      session.Rollback();
      return;
    }
    var ok := session.Commit(w.committed);
    if !ok { r := Err(Failure); }
    if ok {
      IntakeIsRecorded(old(db.committed), systems, c, w);
    }
  }

  method HandleIntake(session: Session, llm: LlmClient, systems: map<string, bool>, c: Complaint, w: World)
    returns (r: Result<IntakeResponse>)
    requires session.pending == EMPTY && !w.killed
    modifies session`pending, llm
    ensures r.Ok? <==> IntakeCompletes(session.db.committed.requests, systems, c, w)
    ensures r.Err? ==> r.error == SubmitError(systems, c, w)
    ensures r.Ok? ==>
              var row := NewRow(c, w);
              var result := ResultOf(w, row);
              && session.pending == IntakeRows(row, result, w.startedAt)
              && BuildVerdictMessage(result) == Some(r.value.message)
              && r.value == IntakeResponse(w.id, w.correlationId, r.value.message, result)
    ensures llm.calls == old(llm.calls) + if Parses(systems, c, w) then 1 else 0
  {
    hide RunOf, BuildVerdictMessage;
    var submitted := Submit(session, llm, systems, c, w);
    if submitted.Err? { return Err(submitted.error); }
    var row := submitted.value;
    GetRequestAppend(session.db.committed.requests, [row], row.id);
    var run := RunDiagnostic(session, row.id, systems, w);
    if run.Err? { return Err(run.error); }
    EveryHoleIsSupplied(run.value);
    var message := BuildVerdictMessage(run.value).value;
    r := Ok(IntakeResponse(row.id, w.correlationId, message, run.value));
  }

  /* ----- POST /intake/{id}/escalate ----- */

  // One user escalation on record: who asked, about whom, with which note; and what the run, if
  // there is one, found and stopped at.
  predicate RecordsEscalation(a: AuditRow, row: RequestRow, latest: Option<RunRow>, user: string,
                              note: Option<string>) {
    && a.correlationId == row.correlationId && a.requester == user && a.subject == row.subject
    && a.kind == EscalationCreated
    && a.payload.UserRequest? && a.payload.note == note
    && (latest.None? ==> a.payload.scenario == None && a.payload.bundle == None)
    && (latest.Some? ==> a.payload.bundle == Some((latest.value.verdicts, latest.value.outcome)))
    && (latest.Some? && latest.value.verdicts == [] ==> a.payload.scenario == None)
    && (latest.Some? && latest.value.verdicts != [] ==>
          a.payload.scenario == Some(latest.value.verdicts[|latest.value.verdicts| - 1].step))
  }

  lemma RunsForMembers(runs: seq<RunRow>, id: nat, r: RunRow)
    ensures r in RunsFor(runs, id) <==> r in runs && r.requestId == id
  {
    if runs != [] {
      RunsForMembers(runs[1..], id, r);
      assert runs == [runs[0]] + runs[1..];
    }
  }

  // The latest run is one of them, none exactly if there are none, and no other started later.
  lemma {:induction false} LatestRunIsLatest(runs: seq<RunRow>)
    ensures LatestRun(runs).None? <==> runs == []
    ensures LatestRun(runs).Some? ==>
              LatestRun(runs).value in runs && forall r :: r in runs ==> r.startedAt <= LatestRun(runs).value.startedAt
  {
    if runs != [] {
      LatestRunIsLatest(runs[1..]);
      assert runs == [runs[0]] + runs[1..];
    }
  }

  // escalate_request: hand the stored diagnosis on, without running anything again.
  method EscalateRequest(session: Session, id: nat, user: string, note: Option<string>, flushed: bool)
    returns (r: Result<Message>)
    requires session.pending == EMPTY
    modifies session`pending
    ensures var t := session.db.committed;
            var found := GetRequest(t.requests, id);
            && (found.None? ==> r == Err(Error.NotFound))
            && (r.Ok? <==> found.Some? && flushed)
            && (r.Ok? ==>
                  var latest := LatestRun(RunsFor(t.runs, id));
                  && session.pending == Tables([], [], [EscalationEvent(found.value, latest, user, note)])
                  && RecordsEscalation(session.pending.audit[0], found.value, latest, user, note)
                  && EscalationMessageFor(found.value, latest) == Some(r.value))
  {
    assert session.View() == session.db.committed;
    var found := GetRequest(session.View().requests, id);
    if found.None? { return Err(Error.NotFound); }
    var row := found.value;
    var runs := RunsFor(session.View().runs, id);
    var latest := LatestRun(runs);
    var ok := session.AppendEvent(EscalationEvent(row, latest, user, note), flushed);
    if !ok { return Err(Failure); }
    EscalationAlwaysReferences(LastStep(latest), LastCause(latest),
                               if latest.None? then None else latest.value.resetUrl, row.correlationId);
    r := Ok(EscalationMessageFor(row, latest).value);
  }

  // escalate_intake inside get_db's session.
  method EscalateIntake(db: Database, killed: bool, id: nat, user: string, note: Option<string>, flushed: bool,
                        committed: bool)
    returns (r: Result<Message>)
    modifies db
    ensures r.Err? ==> db.committed == old(db.committed)
    ensures r.Ok? <==> !killed && GetRequest(old(db.committed.requests), id).Some? && flushed && committed
    ensures r.Ok? ==>
              var t := old(db.committed);
              var row, latest := GetRequest(t.requests, id).value, LatestRun(RunsFor(t.runs, id));
              && db.committed == Append(t, Tables([], [], [EscalationEvent(row, latest, user, note)]))
              && RecordsEscalation(EscalationEvent(row, latest, user, note), row, latest, user, note)
              && EscalationMessageFor(row, latest) == Some(r.value)
  {
    if killed { return Err(KillSwitchEngaged); }
    var session := new Session(db);
    r := EscalateRequest(session, id, user, note, flushed);
    if r.Err? {
      session.Rollback();
      return;
    }
    var ok := session.Commit(committed);
    if !ok { r := Err(Failure); }
  }

  /* ----- the language model has no say ----- */

  // The rows with everything the model produced blanked out.
  function Blank(t: Tables): Tables {
    Tables(seq(|t.requests|, i requires 0 <= i < |t.requests| => t.requests[i].(draft := Draft("", "", None))),
           t.runs,
           seq(|t.audit|, i requires 0 <= i < |t.audit| =>
             if t.audit[i].payload.Intake?
             then t.audit[i].(payload := Intake(t.audit[i].payload.systemId, ""))
             else t.audit[i]))
  }

  // The case the steps are handed is the same for any draft, up to what the model said of it.
  lemma RowsSameCase(c: Complaint, w: World, subject: string, d: Draft, e: Draft)
    ensures var row, other := RowOf(c, w, subject, d), RowOf(c, w, subject, e);
            SameCase(RequestOf(row), RequestOf(other)) && ResultOf(w, row) == ResultOf(w, other)
  {
    var row, other := RowOf(c, w, subject, d), RowOf(c, w, subject, e);
    RunIgnoresDraft(w.correlationId, STEP_NAMES, w.connector(SystemOf(c)), RequestOf(row), RequestOf(other));
  }

  // The two calls of submit_intake that differ in the draft alone.
  function Parsed(w: World, d: Draft): World { w.(parse := Answer(d)) }

  // Whatever two drafts the parser could return, the same intake gets the same answer: error
  // or request id, verdicts, outcome, link and message.
  lemma DraftsDoNotInterfere(requests: seq<RequestRow>, systems: map<string, bool>, c: Complaint, w: World,
                             d: Draft, e: Draft)
    ensures IntakeAnswer(requests, systems, c, Parsed(w, d)) == IntakeAnswer(requests, systems, c, Parsed(w, e))
  {
    hide RunOf, BuildVerdictMessage, IntakeRows;
    var v, u := Parsed(w, d), Parsed(w, e);
    if Parses(systems, c, w) {
      RowsSameCase(c, w, Resolved(c, w).value.value, d, e);
      assert ResultOf(v, NewRow(c, v)) == ResultOf(u, NewRow(c, u));
    }
  }

  // And it leaves the same tables, except for the stored draft and the category in the first event.
  lemma DraftsLeaveSameTables(t: Tables, systems: map<string, bool>, c: Complaint, w: World, d: Draft, e: Draft)
    ensures Blank(IntakeTables(t, systems, c, Parsed(w, d))) == Blank(IntakeTables(t, systems, c, Parsed(w, e)))
  {
    hide RunOf, BuildVerdictMessage, Blank, IntakeRows;
    var v, u := Parsed(w, d), Parsed(w, e);
    if Parses(systems, c, w) {
      RowsSameCase(c, w, Resolved(c, w).value.value, d, e);
      assert ResultOf(v, NewRow(c, v)) == ResultOf(u, NewRow(c, u));
      BlankRows(t, NewRow(c, v), NewRow(c, u), ResultOf(v, NewRow(c, v)), w.startedAt);
    }
  }

  lemma BlankRows(t: Tables, row: RequestRow, other: RequestRow, result: RunResult, startedAt: int)
    requires other == row.(draft := other.draft)
    ensures Blank(Append(t, IntakeRows(row, result, startedAt)))
            == Blank(Append(t, IntakeRows(other, result, startedAt)))
  {
    var a := Blank(Append(t, IntakeRows(row, result, startedAt)));
    var b := Blank(Append(t, IntakeRows(other, result, startedAt)));
    assert a.requests == b.requests && a.runs == b.runs && a.audit == b.audit;
  }
}
