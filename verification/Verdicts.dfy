/** The vocabulary of a diagnosis: steps, verdicts, outcomes, and what connectors report. */
module Verdicts {
  import opened Common

  datatype VerdictStatus = Pass | Fail | Inconclusive

  datatype FunnelStep = SystemAvailability | AccountStatus | AuthEvents | Authorization | PathInfrastructure

  datatype Outcome = SelfServiceFix | RemediationPending | AccessGap | Escalation

  // A grant as the connector reports it; an absent or unparseable end date is None.
  // Instants are integers.
  datatype Grant = Grant(name: string, endDate: Option<int>)

  // One audit-log entry about a grant, its removal, or its provisioning.
  datatype PermissionEvent = PermissionEvent(action: string, result: Option<string>, targets: seq<string>,
      occurredAt: int)

  // A required name that is not held, why, and the date given for it.
  datatype MissingAccess = MissingAccess(name: string, cause: string, date: Option<int>)

  // What a verdict's detail says, without its wording.
  datatype Detail =
    | NoDetail
    | Text(text: string)
    | Expired(logins: seq<(string, int)>)
    | Missing(missing: seq<MissingAccess>, note: Option<PermissionEvent>)
    | SyncNote(event: PermissionEvent)

  datatype Verdict = Verdict(step: FunnelStep, status: VerdictStatus, cause: Option<string>, detail: Detail)

  datatype RunResult = RunResult(
    correlationId: string,
    verdicts: seq<Verdict>,
    outcome: Outcome,
    escalated: bool,
    resetUrl: Option<string>)

  datatype AvailabilityStatus = Up | Down | Degraded

  datatype AccountState = Active | Locked | Disabled | PasswordExpired | Deprovisioned | NotFound

  datatype UserStatus = UserStatus(state: AccountState, detail: Detail, resetUrl: Option<string>)

  datatype LoginEvent = LoginEvent(timestamp: int, success: bool, failureReason: Option<string>)

  // The orchestrator's input, rebuilt from the stored request; category and summary are what
  // the language model made of the complaint.
  datatype DiagnosticRequest = DiagnosticRequest(
    correlationId: string, requester: string, subject: string, systemId: string,
    category: string, summary: string)

  // A policy's requirement for one resource.
  datatype RoleMapping = RoleMapping(resource: string, requiredRoles: seq<string>)

  // The one cause for which a password reset link is relevant.
  predicate ResetEligible(step: FunnelStep, cause: Option<string>) {
    step == AccountStatus && cause.GetOr("") == "password_expired"
  }
}
