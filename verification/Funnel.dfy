/**
 The diagnostic funnel: fixed-order steps over an arbitrary connector, stopping at the first
 verdict that is not PASS, with every exception turned into INCONCLUSIVE.
 */
module Funnel {
  import opened Common
  import opened Verdicts
  import Step4Authorization

  // What the connector answers during one run, whatever it is asked, and what the clock says
  // when step 4 reads it.
  datatype Connector = Connector(
    resolve: string -> Reply<Option<string>>,
    availability: string -> Reply<AvailabilityStatus>,
    userStatus: string -> Reply<UserStatus>,
    logins: string -> Reply<seq<LoginEvent>>,
    required: string -> Reply<seq<string>>,
    effective: (string, string) -> Reply<seq<Grant>>,
    audit: string -> Reply<seq<PermissionEvent>>,
    now: int)

  // The one resource of a system that step 4 asks about.
  function Resource(req: DiagnosticRequest): string { req.systemId + ":default" }

  // The order of state_machine.py; step 5 is not walked.
  const STEP_NAMES := [SystemAvailability, AccountStatus, AuthEvents, Authorization]

  /* ----- the steps ----- */

  function Availability(status: AvailabilityStatus): Verdict {
    match status
    case Up => Verdict(SystemAvailability, Pass, None, Text("availability"))
    case Down => Verdict(SystemAvailability, Fail, Some("system_down"), Text("availability"))
    case Degraded => Verdict(SystemAvailability, Fail, Some("system_degraded"), Text("availability"))
  }

  function CauseCode(state: AccountState): string {
    match state
    case Active => "active"
    case Locked => "locked"
    case Disabled => "disabled"
    case PasswordExpired => "password_expired"
    case Deprovisioned => "deprovisioned"
    case NotFound => "not_found"
  }

  function Account(status: UserStatus): Verdict {
    if status.state == Active
    then Verdict(AccountStatus, Pass, None, status.detail)
    else Verdict(AccountStatus, Fail, Some(CauseCode(status.state)), status.detail)
  }

  // The event with the greatest timestamp, the first such one.
  function LatestLogin(events: seq<LoginEvent>): LoginEvent
    requires events != []
  {
    if |events| == 1 then events[0]
    else
      var e, earlier := events[|events| - 1], LatestLogin(events[..|events| - 1]);
      if e.timestamp > earlier.timestamp then e else earlier
  }

  function Logins(events: seq<LoginEvent>): Verdict {
    if events == [] then Verdict(AuthEvents, Pass, None, NoDetail)
    else
      var latest := LatestLogin(events);
      var reason := latest.failureReason.GetOr("");
      var detail := if latest.failureReason.Some? then Text(latest.failureReason.value) else NoDetail;
      if latest.success then Verdict(AuthEvents, Pass, None, detail)
      else Verdict(AuthEvents, Fail, Some(if reason == "" then "auth_failed" else reason), detail)
  }

  // The verdict a step returns, or that it raises.
  ghost function Attempt(step: FunnelStep, conn: Connector, req: DiagnosticRequest): Reply<Verdict> {
    match step
    case SystemAvailability =>
      var status := conn.availability(req.subject);
      if status.Raise? then Raise else Answer(Availability(status.value))
    case AccountStatus =>
      var status := conn.userStatus(req.subject);
      if status.Raise? then Raise else Answer(Account(status.value))
    case AuthEvents =>
      var events := conn.logins(req.subject);
      if events.Raise? then Raise else Answer(Logins(events.value))
    case Authorization =>
      var required := conn.required(Resource(req));
      var effective, audit := conn.effective(req.subject, Resource(req)), conn.audit(req.subject);
      if required.Raise? then Raise
      else if required.value == [] then Answer(Verdict(Authorization, Pass, None, NoDetail))
      else if effective.Raise? || audit.Raise? then Raise
      else Answer(Step4Authorization.Authorize(required.value, effective.value, audit.value, conn.now))
    case PathInfrastructure => Raise
  }

  // Fail closed: an exception is an INCONCLUSIVE verdict of the step it hit.
  ghost function StepVerdict(step: FunnelStep, conn: Connector, req: DiagnosticRequest): Verdict {
    var r := Attempt(step, conn, req);
    if r.Answer? then r.value else Verdict(step, Inconclusive, Some("step_error"), NoDetail)
  }

  // The link the context carries after this step.
  function LinkAfter(step: FunnelStep, conn: Connector, req: DiagnosticRequest, link: Option<string>): Option<string> {
    var status := conn.userStatus(req.subject);
    if step == AccountStatus && status.Answer? then status.value.resetUrl else link
  }

  /* ----- a run ----- */

  ghost function Walk(names: seq<FunnelStep>, conn: Connector, req: DiagnosticRequest): seq<Verdict> {
    if names == [] then []
    else
      var v := StepVerdict(names[0], conn, req);
      if v.status == Pass then [v] + Walk(names[1..], conn, req) else [v]
  }

  ghost function LinkOf(names: seq<FunnelStep>, conn: Connector, req: DiagnosticRequest,
                        link: Option<string>): Option<string> {
    if names == [] then link
    else
      var next := LinkAfter(names[0], conn, req, link);
      if StepVerdict(names[0], conn, req).status == Pass then LinkOf(names[1..], conn, req, next) else next
  }

  function AccountOutcome(cause: string): Outcome {
    if cause == "locked" || cause == "password_expired" then SelfServiceFix
    else if cause == "deprovisioned" || cause == "not_found" then AccessGap
    else Escalation
  }

  function FailOutcome(v: Verdict): Outcome {
    match v.step
    case SystemAvailability => Escalation
    case AccountStatus => AccountOutcome(v.cause.GetOr(""))
    case AuthEvents => SelfServiceFix
    case Authorization => if v.cause == Some("access_revoked") then Escalation else AccessGap
    case PathInfrastructure => Escalation
  }

  function OutcomeOf(last: Verdict): Outcome {
    match last.status
    case Inconclusive => Escalation
    case Fail => FailOutcome(last)
    case Pass => Escalation
  }

  function Finalize(correlationId: string, verdicts: seq<Verdict>, link: Option<string>): RunResult
    requires verdicts != []
  {
    var last := verdicts[|verdicts| - 1];
    var outcome := OutcomeOf(last);
    RunResult(correlationId, verdicts, outcome, outcome == Escalation,
              if ResetEligible(last.step, last.cause) then link else None)
  }

  // The result of a run that walks these steps, in a fresh context.
  ghost function RunOf(correlationId: string, names: seq<FunnelStep>, conn: Connector,
                       req: DiagnosticRequest): RunResult
    requires names != []
  {
    Finalize(correlationId, Walk(names, conn, req), LinkOf(names, conn, req, None))
  }

  /* ----- the program ----- */

  class DiagnosticContext {
    const request: DiagnosticRequest
    const connector: Connector
    const correlationId: string
    var verdicts: seq<Verdict>
    var subjectPasswordResetUrl: Option<string>

    constructor (request: DiagnosticRequest, connector: Connector, correlationId: string)
      ensures this.request == request && this.connector == connector && this.correlationId == correlationId
      ensures verdicts == [] && subjectPasswordResetUrl == None
    {
      this.request, this.connector, this.correlationId := request, connector, correlationId;
      verdicts, subjectPasswordResetUrl := [], None;
    }
  }

  method RunAccountStatus(ctx: DiagnosticContext) returns (r: Reply<Verdict>)
    modifies ctx`subjectPasswordResetUrl
    ensures r == Attempt(AccountStatus, ctx.connector, ctx.request)
    ensures ctx.subjectPasswordResetUrl
         == LinkAfter(AccountStatus, ctx.connector, ctx.request, old(ctx.subjectPasswordResetUrl))
  {
    var reply := ctx.connector.userStatus(ctx.request.subject);
    if reply.Raise? { return Raise; }
    var result := reply.value;
    ctx.subjectPasswordResetUrl := result.resetUrl;
    var passed := result.state == Active;
    r := Answer(Verdict(AccountStatus, if passed then Pass else Fail,
                        if passed then None else Some(CauseCode(result.state)), result.detail));
  }

  method RunAuthorization(ctx: DiagnosticContext) returns (r: Reply<Verdict>)
    ensures r == Attempt(Authorization, ctx.connector, ctx.request)
  {
    var conn, req := ctx.connector, ctx.request;
    var resource := req.systemId + ":default";
    var required := conn.required(resource);
    if required.Raise? { return Raise; }
    if required.value == [] { return Answer(Verdict(Authorization, Pass, None, NoDetail)); }
    var effective := conn.effective(req.subject, resource);
    if effective.Raise? { return Raise; }
    var audit := conn.audit(req.subject);
    if audit.Raise? { return Raise; }
    var v := Step4Authorization.Run(required.value, effective.value, audit.value, conn.now);
    r := Answer(v);
  }

  method RunStepFailClosed(ctx: DiagnosticContext, step: FunnelStep) returns (v: Verdict)
    modifies ctx`subjectPasswordResetUrl
    ensures v == StepVerdict(step, ctx.connector, ctx.request)
    ensures ctx.subjectPasswordResetUrl
         == LinkAfter(step, ctx.connector, ctx.request, old(ctx.subjectPasswordResetUrl))
  {
    var r: Reply<Verdict> := Raise;
    match step {
      case SystemAvailability =>
        var status := ctx.connector.availability(ctx.request.subject);
        if status.Answer? { r := Answer(Availability(status.value)); }
      case AccountStatus => r := RunAccountStatus(ctx);
      case AuthEvents =>
        var events := ctx.connector.logins(ctx.request.subject);
        if events.Answer? { r := Answer(Logins(events.value)); }
      case Authorization => r := RunAuthorization(ctx);
      case PathInfrastructure =>
    }
    v := if r.Answer? then r.value else Verdict(step, Inconclusive, Some("step_error"), NoDetail);
  }

  lemma WalkStep(names: seq<FunnelStep>, i: nat, conn: Connector, req: DiagnosticRequest, link: Option<string>)
    requires i < |names|
    ensures var v, next := StepVerdict(names[i], conn, req), LinkAfter(names[i], conn, req, link);
            && Walk(names[i..], conn, req) == [v] + (if v.status == Pass then Walk(names[i + 1..], conn, req) else [])
            && LinkOf(names[i..], conn, req, link)
               == if v.status == Pass then LinkOf(names[i + 1..], conn, req, next) else next
  {
    hide StepVerdict, LinkAfter;
    assert names[i..][0] == names[i] && names[i..][1..] == names[i + 1..];
  }

  lemma WalkEnds(conn: Connector, req: DiagnosticRequest, link: Option<string>)
    ensures Walk([], conn, req) == [] && LinkOf([], conn, req, link) == link
  {}

  // The loop of lines 85-93, over any list of steps; it always returns a result.
  method Run(ctx: DiagnosticContext, names: seq<FunnelStep>) returns (r: RunResult)
    requires names != [] && ctx.verdicts == [] && ctx.subjectPasswordResetUrl == None
    modifies ctx
    ensures r == RunOf(ctx.correlationId, names, ctx.connector, ctx.request) && ctx.verdicts == r.verdicts
  {
    hide StepVerdict, Attempt, LinkAfter, Walk, LinkOf, OutcomeOf, ResetEligible;
    ghost var conn, req := ctx.connector, ctx.request;
    ghost var all, link := Walk(names, conn, req), LinkOf(names, conn, req, None);
    assert names[0..] == names;
    var i := 0;
    var stopped := false;
    while i < |names| && !stopped
      invariant i <= |names|
      invariant !stopped ==> all == ctx.verdicts + Walk(names[i..], conn, req)
                             && link == LinkOf(names[i..], conn, req, ctx.subjectPasswordResetUrl)
      invariant stopped ==> all == ctx.verdicts && link == ctx.subjectPasswordResetUrl
      invariant i > 0 ==> ctx.verdicts != []
      decreases |names| - i, !stopped
    {
      WalkStep(names, i, conn, req, ctx.subjectPasswordResetUrl);
      var verdict := RunStepFailClosed(ctx, names[i]);
      ctx.verdicts := ctx.verdicts + [verdict];
      if verdict.status != Pass {
        stopped := true;
      } else {
        i := i + 1;
      }
    }
    WalkEnds(conn, req, ctx.subjectPasswordResetUrl);
    assert !stopped ==> names[i..] == [];
    assert ctx.verdicts == all;
    WalkIsNotEmpty(names, conn, req);
    r := Finalize(ctx.correlationId, ctx.verdicts, ctx.subjectPasswordResetUrl);
  }

  lemma WalkIsNotEmpty(names: seq<FunnelStep>, conn: Connector, req: DiagnosticRequest)
    requires names != []
    ensures Walk(names, conn, req) != []
  {}

  // No event is later than the one at k, and every event before it is earlier.
  predicate FirstLatest(events: seq<LoginEvent>, k: int) {
    && 0 <= k < |events|
    && (forall i :: 0 <= i < |events| ==> events[i].timestamp <= events[k].timestamp)
    && (forall i :: 0 <= i < k ==> events[i].timestamp < events[k].timestamp)
  }

  // Step 3 judges by an event no later one follows, and by the first of those at its instant.
  lemma {:induction false} LatestLoginIsLatest(events: seq<LoginEvent>) returns (k: nat)
    requires events != []
    ensures FirstLatest(events, k) && events[k] == LatestLogin(events)
    decreases |events|
  {
    if |events| == 1 {
      k := 0;
    } else {
      var init := events[..|events| - 1];
      k := LatestLoginIsLatest(init);
      if events[|events| - 1].timestamp > init[k].timestamp {
        k := |events| - 1;
      }
    }
  }

  lemma FirstLatestIsUnique(events: seq<LoginEvent>, j: int, k: int)
    requires FirstLatest(events, j) && FirstLatest(events, k)
    ensures j == k
  {
    assert events[j].timestamp == events[k].timestamp;
  }

  // So step 3 fails exactly when that event is a failed login.
  lemma LoginStepFailsIff(conn: Connector, req: DiagnosticRequest)
    requires conn.logins(req.subject).Answer?
    ensures var v, events := StepVerdict(AuthEvents, conn, req), conn.logins(req.subject).value;
            v.status != Inconclusive && (v.status == Fail <==> exists k :: FirstLatest(events, k) && !events[k].success)
  {
    var events := conn.logins(req.subject).value;
    if events != [] {
      var k := LatestLoginIsLatest(events);
      assert FirstLatest(events, k);
      forall j | FirstLatest(events, j) ensures j == k {
        FirstLatestIsUnique(events, j, k);
      }
    }
  }

  /* ----- the shape of every run ----- */

  lemma StepVerdictNamesItsStep(step: FunnelStep, conn: Connector, req: DiagnosticRequest)
    ensures StepVerdict(step, conn, req).step == step
  {}

  // The verdicts are a non-empty prefix of the fixed order, one per step; all but the last
  // are PASS, and a run stops early only on something else.
  lemma {:induction false} FunnelShape(names: seq<FunnelStep>, conn: Connector, req: DiagnosticRequest)
    requires names != []
    ensures var vs := Walk(names, conn, req);
            && 1 <= |vs| <= |names|
            && (forall i :: 0 <= i < |vs| ==> vs[i] == StepVerdict(names[i], conn, req) && vs[i].step == names[i])
            && (forall i :: 0 <= i < |vs| - 1 ==> vs[i].status == Pass)
            && (|vs| < |names| ==> vs[|vs| - 1].status != Pass)
  {
    var v := StepVerdict(names[0], conn, req);
    StepVerdictNamesItsStep(names[0], conn, req);
    if v.status == Pass && |names| > 1 {
      FunnelShape(names[1..], conn, req);
    }
  }

  // The run gets as far as step k exactly when every step before it passes.
  lemma {:induction false} ReachesStep(names: seq<FunnelStep>, conn: Connector, req: DiagnosticRequest, k: nat)
    requires k < |names|
    ensures k < |Walk(names, conn, req)| <==> forall i :: 0 <= i < k ==> StepVerdict(names[i], conn, req).status == Pass
  {
    if k > 0 && StepVerdict(names[0], conn, req).status == Pass {
      ReachesStep(names[1..], conn, req, k - 1);
      assert forall i :: 0 <= i < k - 1 ==> names[1..][i] == names[i + 1];
    }
  }

  // An exception in a step the run reaches ends it there: INCONCLUSIVE, and escalated.
  lemma ExceptionEscalates(correlationId: string, names: seq<FunnelStep>, conn: Connector, req: DiagnosticRequest,
                           k: nat)
    requires k < |names| && Attempt(names[k], conn, req).Raise?
    requires forall i :: 0 <= i < k ==> StepVerdict(names[i], conn, req).status == Pass
    ensures var r := RunOf(correlationId, names, conn, req);
            && |r.verdicts| == k + 1
            && r.verdicts[k] == Verdict(names[k], Inconclusive, Some("step_error"), NoDetail)
            && r.escalated && r.resetUrl == None
  {
    ReachesStep(names, conn, req, k);
    FunnelShape(names, conn, req);
    var vs := Walk(names, conn, req);
    assert vs[k].status == Inconclusive;
    assert |vs| == k + 1;
  }

  // If nothing is found wrong, the run escalates rather than reassure.
  lemma AllClearEscalates(correlationId: string, names: seq<FunnelStep>, conn: Connector, req: DiagnosticRequest)
    requires names != [] && forall i :: 0 <= i < |names| ==> StepVerdict(names[i], conn, req).status == Pass
    ensures var r := RunOf(correlationId, names, conn, req); |r.verdicts| == |names| && r.escalated
  {
    ReachesStep(names, conn, req, |names| - 1);
    FunnelShape(names, conn, req);
  }

  // Which last verdicts hand the case to a human, for any cause string.
  predicate NeedsHuman(last: Verdict) {
    || last.status != Fail
    || last.step == SystemAvailability || last.step == PathInfrastructure
    || (last.step == AccountStatus
        && last.cause != Some("locked") && last.cause != Some("password_expired")
        && last.cause != Some("deprovisioned") && last.cause != Some("not_found"))
    || (last.step == Authorization && last.cause == Some("access_revoked"))
  }

  // Which failures the user can resolve alone; the remaining ones are gaps in access.
  predicate UserCanFix(last: Verdict) {
    && last.status == Fail
    && (last.step == AuthEvents
        || (last.step == AccountStatus && (last.cause == Some("locked") || last.cause == Some("password_expired"))))
  }

  lemma EscalatedIffNeedsHuman(correlationId: string, names: seq<FunnelStep>, conn: Connector, req: DiagnosticRequest)
    requires names != []
    ensures var r := RunOf(correlationId, names, conn, req);
            && r.verdicts != [] && (r.escalated <==> NeedsHuman(r.verdicts[|r.verdicts| - 1]))
            && (r.escalated <==> r.outcome == Escalation)
            && (r.outcome == SelfServiceFix <==> UserCanFix(r.verdicts[|r.verdicts| - 1]))
            && r.outcome != RemediationPending
  {
    WalkIsNotEmpty(names, conn, req);
  }

  /* ----- the language model has no say ----- */

  // Two requests about the same subject and system, whatever else they say.
  predicate SameCase(req: DiagnosticRequest, other: DiagnosticRequest) {
    req.subject == other.subject && req.systemId == other.systemId
  }

  // Every step is handed the whole request. None lets the category or the summary of the
  // complaint influence its verdict or the link it leaves.
  lemma StepIgnoresDraft(step: FunnelStep, conn: Connector, req: DiagnosticRequest, other: DiagnosticRequest,
                         link: Option<string>)
    requires SameCase(req, other)
    ensures StepVerdict(step, conn, req) == StepVerdict(step, conn, other)
    ensures LinkAfter(step, conn, req, link) == LinkAfter(step, conn, other, link)
  {}

  lemma {:induction false} WalkIgnoresDraft(names: seq<FunnelStep>, conn: Connector, req: DiagnosticRequest,
                                            other: DiagnosticRequest, link: Option<string>)
    requires SameCase(req, other)
    ensures Walk(names, conn, req) == Walk(names, conn, other)
    ensures LinkOf(names, conn, req, link) == LinkOf(names, conn, other, link)
  {
    if names != [] {
      StepIgnoresDraft(names[0], conn, req, other, link);
      WalkIgnoresDraft(names[1..], conn, req, other, LinkAfter(names[0], conn, req, link));
    }
  }

  lemma RunIgnoresDraft(correlationId: string, names: seq<FunnelStep>, conn: Connector,
                        req: DiagnosticRequest, other: DiagnosticRequest)
    requires names != [] && SameCase(req, other)
    ensures RunOf(correlationId, names, conn, req) == RunOf(correlationId, names, conn, other)
  {
    WalkIgnoresDraft(names, conn, req, other, None);
  }

  /* ----- what each step answers ----- */

  ghost predicate StepError(v: Verdict, step: FunnelStep) {
    v == Verdict(step, Inconclusive, Some("step_error"), NoDetail)
  }

  // Step 1 passes a system that is up, and fails one that is down or degraded.
  lemma AvailabilityMeans(conn: Connector, req: DiagnosticRequest)
    ensures var v, reply := StepVerdict(SystemAvailability, conn, req), conn.availability(req.subject);
            && v.step == SystemAvailability
            && (v.status == Inconclusive <==> reply == Raise) && (reply == Raise ==> StepError(v, SystemAvailability))
            && (v.status == Pass <==> reply == Answer(Up))
            && (reply == Answer(Up) ==> v.cause == None)
            && (reply == Answer(Down) ==> v.cause == Some("system_down"))
            && (reply == Answer(Degraded) ==> v.cause == Some("system_degraded"))
  {}

  // Step 2 passes an active account, and fails any other with the name of its state.
  lemma AccountStatusMeans(conn: Connector, req: DiagnosticRequest)
    ensures var v, reply := StepVerdict(AccountStatus, conn, req), conn.userStatus(req.subject);
            && v.step == AccountStatus
            && (v.status == Inconclusive <==> reply == Raise) && (reply == Raise ==> StepError(v, AccountStatus))
            && (v.status == Pass <==> reply.Answer? && reply.value.state == Active)
            && (reply.Answer? ==> v.detail == reply.value.detail)
            && (v.status == Pass ==> v.cause == None)
            && (v.status == Fail ==> match reply.value.state
                                     case Active => false
                                     case Locked => v.cause == Some("locked")
                                     case Disabled => v.cause == Some("disabled")
                                     case PasswordExpired => v.cause == Some("password_expired")
                                     case Deprovisioned => v.cause == Some("deprovisioned")
                                     case NotFound => v.cause == Some("not_found"))
  {}

  // Step 3 passes if there was no attempt or the latest one succeeded. A failure carries the
  // reason of that attempt, or a stock cause if it has none.
  lemma AuthEventsMeans(conn: Connector, req: DiagnosticRequest)
    ensures var v, reply := StepVerdict(AuthEvents, conn, req), conn.logins(req.subject);
            && v.step == AuthEvents
            && (v.status == Inconclusive <==> reply == Raise) && (reply == Raise ==> StepError(v, AuthEvents))
            && (v.status == Pass <==> reply.Answer? && LastLoginFine(reply.value))
            && (v.status == Pass ==> v.cause == None)
            && (v.status == Fail ==> exists k :: FirstLatest(reply.value, k) && ReasonFits(reply.value[k], v.cause))
  {
    var reply := conn.logins(req.subject);
    if reply.Answer? && reply.value != [] {
      var k := LatestLoginIsLatest(reply.value);
      assert FirstLatest(reply.value, k);
      forall j | FirstLatest(reply.value, j) ensures j == k {
        FirstLatestIsUnique(reply.value, j, k);
      }
    }
  }

  ghost predicate LastLoginFine(events: seq<LoginEvent>) {
    events == [] || exists k :: FirstLatest(events, k) && events[k].success
  }

  predicate ReasonFits(e: LoginEvent, cause: Option<string>) {
    && !e.success
    && if e.failureReason == None || e.failureReason == Some("")
       then cause == Some("auth_failed")
       else cause == e.failureReason
  }

  // A reply that step 4 consults raised. Without a requirement it consults no other.
  ghost predicate AuthorizationRaises(conn: Connector, req: DiagnosticRequest) {
    var resource := req.systemId + ":default";
    var required := conn.required(resource);
    required == Raise
    || (required.value != [] && (conn.effective(req.subject, resource) == Raise || conn.audit(req.subject) == Raise))
  }

  // Something is required, and some required name is lacking.
  ghost predicate AccessLacks(conn: Connector, req: DiagnosticRequest) {
    var resource := req.systemId + ":default";
    var required, effective := conn.required(resource), conn.effective(req.subject, resource);
    && required.Answer? && effective.Answer?
    && exists name :: Step4Authorization.Lacks(required.value, effective.value, conn.now, name)
  }

  // The cause that fits what the connector said of requirement, grants and audit events.
  ghost predicate AccessCause(conn: Connector, req: DiagnosticRequest, cause: string) {
    var resource := req.systemId + ":default";
    var required, effective := conn.required(resource), conn.effective(req.subject, resource);
    var audit := conn.audit(req.subject);
    && required.Answer? && effective.Answer? && audit.Answer?
    && Step4Authorization.CauseFits(required.value, effective.value, audit.value, conn.now, cause)
  }

  lemma AuthorizationMeans(conn: Connector, req: DiagnosticRequest)
    ensures var v := StepVerdict(Authorization, conn, req);
            && v.step == Authorization
            && (v.status == Inconclusive <==> AuthorizationRaises(conn, req))
            && (AuthorizationRaises(conn, req) ==> StepError(v, Authorization))
            && (v.status == Fail <==> !AuthorizationRaises(conn, req) && AccessLacks(conn, req))
            && (v.status == Pass ==> v.cause == None)
            && (v.status == Fail ==> v.cause.Some? && AccessCause(conn, req, v.cause.value))
  {
    hide Step4Authorization.Lacks, Step4Authorization.CauseFits, Step4Authorization.Authorize;
    var required, effective := conn.required(Resource(req)), conn.effective(req.subject, Resource(req));
    var audit := conn.audit(req.subject);
    if required.Answer? && required.value == [] && effective.Answer? {
      NothingLacks(effective.value, conn.now);
    }
    if required.Answer? && effective.Answer? && audit.Answer? {
      Step4Authorization.VerdictMeans(required.value, effective.value, audit.value, conn.now);
    }
  }

  lemma NothingLacks(grants: seq<Grant>, now: int)
    ensures forall name :: !Step4Authorization.Lacks([], grants, now, name)
  {}

  /* ----- the four steps, in their order ----- */

  ghost predicate SystemUp(conn: Connector, req: DiagnosticRequest) { conn.availability(req.subject) == Answer(Up) }

  ghost predicate AccountFine(conn: Connector, req: DiagnosticRequest) {
    conn.userStatus(req.subject).Answer? && conn.userStatus(req.subject).value.state == Active
  }

  ghost predicate LoginFine(conn: Connector, req: DiagnosticRequest) {
    conn.logins(req.subject).Answer? && LastLoginFine(conn.logins(req.subject).value)
  }

  // A diagnosis asks about the system, then the account, then the logins, then access, and
  // stops at the first that is not fine. It is inconclusive exactly if a reply consulted by the
  // step it stops at raised, and then it says no more and escalates.
  lemma RunMeans(correlationId: string, conn: Connector, req: DiagnosticRequest)
    ensures var r := RunOf(correlationId, STEP_NAMES, conn, req);
            var vs := r.verdicts;
            && r.correlationId == correlationId
            && |vs| == (if !SystemUp(conn, req) then 1 else if !AccountFine(conn, req) then 2
                        else if !LoginFine(conn, req) then 3 else 4)
            && vs[0].step == SystemAvailability && (|vs| > 1 ==> vs[1].step == AccountStatus)
            && (|vs| > 2 ==> vs[2].step == AuthEvents) && (|vs| > 3 ==> vs[3].step == Authorization)
            && (forall i :: 0 <= i < |vs| - 1 ==> vs[i].status == Pass && vs[i].cause == None)
            && (vs[|vs| - 1].status == Inconclusive <==> RaisedAt(conn, req, |vs|))
            && (vs[|vs| - 1].status == Pass <==> |vs| == 4 && !RaisedAt(conn, req, 4) && !AccessLacks(conn, req))
            && (RaisedAt(conn, req, |vs|) ==>
                StepError(vs[|vs| - 1], vs[|vs| - 1].step) && r.outcome == Escalation && r.escalated)
  {
    hide StepVerdict, SystemUp, AccountFine, LoginFine, AuthorizationRaises, AccessLacks;
    FunnelShape(STEP_NAMES, conn, req);
    ReachesStep(STEP_NAMES, conn, req, 1);
    ReachesStep(STEP_NAMES, conn, req, 2);
    ReachesStep(STEP_NAMES, conn, req, 3);
    StepsMean(conn, req);
  }

  // The reply, or one of the replies, that the n-th step consults raised.
  ghost predicate RaisedAt(conn: Connector, req: DiagnosticRequest, n: nat) {
    if n == 1 then conn.availability(req.subject) == Raise
    else if n == 2 then conn.userStatus(req.subject) == Raise
    else if n == 3 then conn.logins(req.subject) == Raise
    else AuthorizationRaises(conn, req)
  }

  lemma StepsMean(conn: Connector, req: DiagnosticRequest)
    ensures forall i :: 0 <= i < 4 ==>
              var v := StepVerdict(STEP_NAMES[i], conn, req);
              && v.step == STEP_NAMES[i]
              && (v.status == Inconclusive <==> RaisedAt(conn, req, i + 1))
              && (RaisedAt(conn, req, i + 1) ==> StepError(v, STEP_NAMES[i]))
              && (v.status == Pass ==> v.cause == None)
    ensures StepVerdict(STEP_NAMES[0], conn, req).status == Pass <==> SystemUp(conn, req)
    ensures StepVerdict(STEP_NAMES[1], conn, req).status == Pass <==> AccountFine(conn, req)
    ensures StepVerdict(STEP_NAMES[2], conn, req).status == Pass <==> LoginFine(conn, req)
    ensures StepVerdict(STEP_NAMES[3], conn, req).status == Fail <==> !RaisedAt(conn, req, 4) && AccessLacks(conn, req)
    ensures STEP_NAMES == [SystemAvailability, AccountStatus, AuthEvents, Authorization]
  {
    AvailabilityMeans(conn, req);
    AccountStatusMeans(conn, req);
    AuthEventsMeans(conn, req);
    AuthorizationMeans(conn, req);
    hide StepVerdict, AuthorizationRaises, AccessLacks, LastLoginFine;
  }

  /* ----- the link on the result ----- */

  // With the fixed order, the result carries a link exactly when availability was confirmed
  // and the status check reported an expired password with a link.
  lemma ResultLink(correlationId: string, conn: Connector, req: DiagnosticRequest, link: string)
    ensures RunOf(correlationId, STEP_NAMES, conn, req).resetUrl == Some(link)
       <==> conn.availability(req.subject) == Answer(Up) && conn.userStatus(req.subject).Answer?
            && conn.userStatus(req.subject).value.state == PasswordExpired
                && conn.userStatus(req.subject).value.resetUrl == Some(link)
  {
    FunnelShape(STEP_NAMES, conn, req);
    var vs := Walk(STEP_NAMES, conn, req);
    var last := vs[|vs| - 1];
    ReachesStep(STEP_NAMES, conn, req, 1);
    if ResetEligible(last.step, last.cause) {
      assert |vs| == 2 && vs[0].status == Pass;
      ResetCauseIsExpired(conn, req);
      LinkAtStepTwo(conn, req);
    }
    if conn.availability(req.subject) == Answer(Up) && conn.userStatus(req.subject).Answer?
        && conn.userStatus(req.subject).value.state == PasswordExpired {
      assert StepVerdict(STEP_NAMES[0], conn, req).status == Pass;
      assert vs[1] == StepVerdict(AccountStatus, conn, req) && vs[1].status == Fail;
      assert |vs| == 2;
    }
  }

  lemma ResetCauseIsExpired(conn: Connector, req: DiagnosticRequest)
    requires var v := StepVerdict(AccountStatus, conn, req); ResetEligible(v.step, v.cause)
    ensures conn.userStatus(req.subject).Answer? && conn.userStatus(req.subject).value.state == PasswordExpired
  {}

  lemma LinkAtStepTwo(conn: Connector, req: DiagnosticRequest)
    requires StepVerdict(SystemAvailability, conn, req).status == Pass
    requires conn.userStatus(req.subject).Answer? && conn.userStatus(req.subject).value.state == PasswordExpired
    ensures LinkOf(STEP_NAMES, conn, req, None) == conn.userStatus(req.subject).value.resetUrl
  {
    var rest := STEP_NAMES[1..];
    assert rest[0] == AccountStatus;
    assert LinkOf(rest, conn, req, None) == conn.userStatus(req.subject).value.resetUrl;
  }
}
