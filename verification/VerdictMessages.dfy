/**
 The templated messages: which template a result gets, that every hole of it can be filled,
 and how the references and links in it agree with the outcome. A template is a sequence of
 literals and holes; its literals stand for the wording by a short name.
 */
module VerdictMessages {
  import opened Common
  import opened Verdicts
  import opened Funnel
  import opened OpenIamConnector
  import opened ResetUrl

  datatype Piece = Lit(name: string) | CorrelationHole | DetailHole

  type Template' = seq<Piece>

  const REFERENCE: Template' := [Lit("reference"), CorrelationHole]

  const ALL_CLEAR_ESCALATION := [Lit("all-clear")] + REFERENCE
  const INCONCLUSIVE := [Lit("inconclusive")] + REFERENCE

  function StepFallback(step: FunnelStep): Template' {
    match step
    case SystemAvailability => [Lit("openiam-issue")] + REFERENCE
    case AccountStatus => [Lit("account-problem")] + REFERENCE
    case AuthEvents => [Lit("login-failed")]
    case Authorization => [Lit("access-missing")]
    case PathInfrastructure => [Lit("network-issue")] + REFERENCE
  }

  // The overrides for known causes.
  function CauseMessage(step: FunnelStep, cause: string): Option<Template'> {
    match step
    case AccountStatus =>
      if cause == "locked" then Some([Lit("locked")])
      else if cause == "password_expired" then Some([Lit("password-expired-for"), DetailHole, Lit("please-reset")])
      else if cause == "disabled" then Some([Lit("disabled")] + REFERENCE)
      else if cause == "not_found" then Some([Lit("not-found")])
      else if cause == "deprovisioned" then Some([Lit("deprovisioned")])
      else None
    case Authorization =>
      if cause == "missing_role" then Some([Lit("access-missing")])
      else if cause == "access_expired" then Some([Lit("access-expired")])
      else if cause == "access_revoked" then Some([Lit("access-revoked")] + REFERENCE)
      else None
    case _ => None
  }

  // A formatted piece: wording, a reference, or a detail (None where the verdict has none).
  datatype Out = Say(name: string) | Ref(correlationId: string) | Show(detail: Detail)

  datatype Message = Message(parts: seq<Out>, link: Option<string>)

  // str.format: None is the KeyError for a hole no value was supplied for.
  function Format(t: Template', correlationId: string, detail: Option<Detail>): Option<seq<Out>> {
    if t == [] then Some([])
    else
      var rest := Format(t[1..], correlationId, detail);
      match t[0]
      case Lit(name) => if rest.None? then None else Some([Say(name)] + rest.value)
      case CorrelationHole => if rest.None? then None else Some([Ref(correlationId)] + rest.value)
      case DetailHole => if rest.None? || detail.None? then None else Some([Show(detail.value)] + rest.value)
  }

  function FailTemplate(last: Verdict): Template' {
    var specific := CauseMessage(last.step, last.cause.GetOr(""));
    if specific.Some? then specific.value else StepFallback(last.step)
  }

  predicate NonEmpty(link: Option<string>) { link.GetOr("") != "" }

  // build_verdict_message. None would be an exception.
  function BuildVerdictMessage(result: RunResult): Option<Message> {
    if result.verdicts == [] then Finish(Format(INCONCLUSIVE, result.correlationId, None), None)
    else
      var last := result.verdicts[|result.verdicts| - 1];
      match last.status
      case Inconclusive => Finish(Format(INCONCLUSIVE, result.correlationId, None), None)
      case Pass => Finish(Format(ALL_CLEAR_ESCALATION, result.correlationId, None), None)
      case Fail =>
        var offered := ResetEligible(last.step, last.cause) && NonEmpty(result.resetUrl);
        Finish(Format(FailTemplate(last), result.correlationId, Some(last.detail)),
               if offered then result.resetUrl else None)
  }

  function Finish(parts: Option<seq<Out>>, link: Option<string>): Option<Message> {
    if parts.None? then None else Some(Message(parts.value, link))
  }

  /* ----- every message can be built ----- */

  lemma {:induction false} FormatSucceeds(t: Template', correlationId: string, detail: Option<Detail>)
    ensures Format(t, correlationId, detail).Some? <==> (DetailHole in t ==> detail.Some?)
    ensures var r := Format(t, correlationId, detail);
            r.Some? ==> |r.value| == |t| && forall i :: 0 <= i < |t| ==>
              match t[i]
              case Lit(name) => r.value[i] == Say(name)
              case CorrelationHole => r.value[i] == Ref(correlationId)
              case DetailHole => r.value[i] == Show(detail.value)
  {
    if t != [] {
      FormatSucceeds(t[1..], correlationId, detail);
      assert t == [t[0]] + t[1..];
    }
  }

  // No result, whatever its verdicts and cause strings, fails to produce a message.
  lemma EveryHoleIsSupplied(result: RunResult)
    ensures BuildVerdictMessage(result).Some?
  {
    FormatSucceeds(INCONCLUSIVE, result.correlationId, None);
    FormatSucceeds(ALL_CLEAR_ESCALATION, result.correlationId, None);
    if result.verdicts != [] {
      var last := result.verdicts[|result.verdicts| - 1];
      FormatSucceeds(FailTemplate(last), result.correlationId, Some(last.detail));
    }
  }

  ghost predicate HasReference(m: Message, correlationId: string) {
    exists i :: 0 <= i < |m.parts| && m.parts[i] == Ref(correlationId)
  }

  lemma ReferenceIffHole(t: Template', correlationId: string, detail: Option<Detail>, link: Option<string>)
    requires Format(t, correlationId, detail).Some?
    ensures HasReference(Message(Format(t, correlationId, detail).value, link), correlationId) <==> CorrelationHole in t
  {
    FormatSucceeds(t, correlationId, detail);
  }

  // The template of a FAIL refers to a case number exactly when its outcome is an escalation,
  // for any cause string, known or not.
  lemma FailTemplateAgreesWithOutcome(last: Verdict)
    requires last.status == Fail
    ensures CorrelationHole in FailTemplate(last) <==> FailOutcome(last) == Escalation
  {}

  // The user is given a case reference exactly when there is a case.
  lemma ReferenceIffEscalated(correlationId: string, names: seq<FunnelStep>, conn: Connector, req: DiagnosticRequest)
    requires names != []
    ensures var r := RunOf(correlationId, names, conn, req);
            && BuildVerdictMessage(r).Some?
            && (HasReference(BuildVerdictMessage(r).value, correlationId) <==> r.escalated)
  {
    var r := RunOf(correlationId, names, conn, req);
    WalkIsNotEmpty(names, conn, req);
    EveryHoleIsSupplied(r);
    var last := r.verdicts[|r.verdicts| - 1];
    var link := BuildVerdictMessage(r).value.link;
    match last.status
    case Inconclusive => ReferenceIffHole(INCONCLUSIVE, correlationId, None, link);
    case Pass => ReferenceIffHole(ALL_CLEAR_ESCALATION, correlationId, None, link);
    case Fail =>
      ReferenceIffHole(FailTemplate(last), correlationId, Some(last.detail), link);
      FailTemplateAgreesWithOutcome(last);
  }

  // The wording a verdict message opens with.
  predicate OpensWith(m: Option<Message>, wording: string) {
    m.Some? && m.value.parts != [] && m.value.parts[0] == Say(wording)
  }

  lemma OpeningOf(t: Template', correlationId: string, detail: Option<Detail>, link: Option<string>)
    requires t != [] && t[0].Lit? && Format(t, correlationId, detail).Some?
    ensures OpensWith(Finish(Format(t, correlationId, detail), link), t[0].name)
  {
    FormatSucceeds(t, correlationId, detail);
  }

  // Which message is chosen, step by step and cause by cause; an unknown cause falls back to its
  // step. Missing access and a failed login have one wording whatever the cause.
  lemma MessageSays(result: RunResult)
    requires result.verdicts != []
    ensures var last := result.verdicts[|result.verdicts| - 1];
            var m := BuildVerdictMessage(result);
            match last.status
            case Inconclusive => OpensWith(m, "inconclusive")
            case Pass => OpensWith(m, "all-clear")
            case Fail =>
              match last.step
              case SystemAvailability => OpensWith(m, "openiam-issue")
              case AccountStatus =>
                if last.cause == Some("locked") then OpensWith(m, "locked")
                else if last.cause == Some("password_expired") then OpensWith(m, "password-expired-for")
                else if last.cause == Some("disabled") then OpensWith(m, "disabled")
                else if last.cause == Some("not_found") then OpensWith(m, "not-found")
                else if last.cause == Some("deprovisioned") then OpensWith(m, "deprovisioned")
                else OpensWith(m, "account-problem")
              case AuthEvents => OpensWith(m, "login-failed")
              case Authorization =>
                if last.cause == Some("access_expired") then OpensWith(m, "access-expired")
                else if last.cause == Some("access_revoked") then OpensWith(m, "access-revoked")
                else OpensWith(m, "access-missing")
              case PathInfrastructure => OpensWith(m, "network-issue")
  {
    hide Format, OpensWith, ResetEligible;
    EveryHoleIsSupplied(result);
    var last := result.verdicts[|result.verdicts| - 1];
    var link := BuildVerdictMessage(result).value.link;
    match last.status
    case Inconclusive => OpeningOf(INCONCLUSIVE, result.correlationId, None, link);
    case Pass => OpeningOf(ALL_CLEAR_ESCALATION, result.correlationId, None, link);
    case Fail => OpeningOf(FailTemplate(last), result.correlationId, Some(last.detail), link);
  }

  // An expired password is reported with its detail; no other message shows any.
  lemma DetailShownIff(last: Verdict)
    requires last.status == Fail
    ensures DetailHole in FailTemplate(last) <==> last.step == AccountStatus && last.cause == Some("password_expired")
  {}

  /* ----- escalation on request ----- */

  function EscalationTemplate(step: Option<FunnelStep>): Template' {
    if step.None? then [Lit("escalated-to-support")] + REFERENCE
    else match step.value
         case SystemAvailability => [Lit("escalated-outage")] + REFERENCE
         case AccountStatus => [Lit("escalated-account")] + REFERENCE
         case AuthEvents => [Lit("escalated-login")] + REFERENCE
         case Authorization => [Lit("escalated-access")] + REFERENCE
         case PathInfrastructure => [Lit("escalated-network")] + REFERENCE
  }

  // build_escalation_message.
  function BuildEscalationMessage(step: Option<FunnelStep>, cause: Option<string>, resetUrl: Option<string>,
                                  correlationId: string): Option<Message> {
    var offered := step.Some? && ResetEligible(step.value, cause) && NonEmpty(resetUrl);
    Finish(Format(EscalationTemplate(step), correlationId, None), if offered then resetUrl else None)
  }

  // The confirmation goes by the step the diagnosis stopped at.
  lemma EscalationSays(step: Option<FunnelStep>, cause: Option<string>, resetUrl: Option<string>, correlationId: string)
    ensures var m := BuildEscalationMessage(step, cause, resetUrl, correlationId);
            && (step == None ==> OpensWith(m, "escalated-to-support"))
            && (step == Some(SystemAvailability) ==> OpensWith(m, "escalated-outage"))
            && (step == Some(AccountStatus) ==> OpensWith(m, "escalated-account"))
            && (step == Some(AuthEvents) ==> OpensWith(m, "escalated-login"))
            && (step == Some(Authorization) ==> OpensWith(m, "escalated-access"))
            && (step == Some(PathInfrastructure) ==> OpensWith(m, "escalated-network"))
  {
    hide Format, OpensWith, ResetEligible;
    EscalationAlwaysReferences(step, cause, resetUrl, correlationId);
    var link := BuildEscalationMessage(step, cause, resetUrl, correlationId).value.link;
    OpeningOf(EscalationTemplate(step), correlationId, None, link);
  }

  lemma EscalationAlwaysReferences(step: Option<FunnelStep>, cause: Option<string>, resetUrl: Option<string>,
                                   correlationId: string)
    ensures var m := BuildEscalationMessage(step, cause, resetUrl, correlationId);
            m.Some? && HasReference(m.value, correlationId)
  {
    var m := BuildEscalationMessage(step, cause, resetUrl, correlationId);
    FormatSucceeds(EscalationTemplate(step), correlationId, None);
    ReferenceIffHole(EscalationTemplate(step), correlationId, None, m.value.link);
  }

  /* ----- the reset link, end to end ----- */

  // Everything that has to hold for the user to be offered the link to reset this login.
  ghost predicate OffersReset(conn: Connector, req: DiagnosticRequest, q: StatusQuery, link: string) {
    && conn.availability(req.subject) == Answer(Up) && q.reply.Answer? && q.reply.value.Body?
    && exists login :: ResetHelps(q.reply.value.body, login, q.now, q.later)
                       && link == BuildPasswordResetUrl(q.cfg.template, q.cfg.baseUrl, login)
  }

  lemma ResultCarriesLinkIff(correlationId: string, conn: Connector, req: DiagnosticRequest, q: StatusQuery,
                             link: string)
    requires AnswersStatus(conn, req, q)
    ensures RunOf(correlationId, STEP_NAMES, conn, req).resetUrl == Some(link) <==> OffersReset(conn, req, q, link)
  {
    ResultLink(correlationId, conn, req, link);
    if q.reply.Answer? {
      LinkComesWithExpiredPassword(q.reply.value, q.cfg, q.now, q.later, link);
    }
  }

  lemma LinksAreNotEmpty(t: Template, baseUrl: string, login: Bytes)
    ensures BuildPasswordResetUrl(t, baseUrl, login) != ""
  {}

  lemma AResultLinkIsEligible(correlationId: string, conn: Connector, req: DiagnosticRequest)
    ensures var r := RunOf(correlationId, STEP_NAMES, conn, req);
            r.resetUrl.Some? ==> var last := r.verdicts[|r.verdicts| - 1];
                                 last.status == Fail && ResetEligible(last.step, last.cause)
  {
    var r := RunOf(correlationId, STEP_NAMES, conn, req);
    WalkIsNotEmpty(STEP_NAMES, conn, req);
    if r.resetUrl.Some? {
      ResultLink(correlationId, conn, req, r.resetUrl.value);
      FunnelShape(STEP_NAMES, conn, req);
      ReachesStep(STEP_NAMES, conn, req, 1);
      var vs := Walk(STEP_NAMES, conn, req);
      assert StepVerdict(STEP_NAMES[0], conn, req).status == Pass;
      assert vs[1] == StepVerdict(AccountStatus, conn, req);
      assert |vs| == 2;
    }
  }

  // Both messages show the link of a result whose cause is the eligible one, and none otherwise.
  lemma MessageLinks(result: RunResult)
    requires result.verdicts != []
    requires result.resetUrl.Some? ==> var last := result.verdicts[|result.verdicts| - 1];
                                       last.status == Fail && ResetEligible(last.step, last.cause)
                                       && NonEmpty(result.resetUrl)
    ensures var last := result.verdicts[|result.verdicts| - 1];
            var message, escalation := BuildVerdictMessage(result),
                                       BuildEscalationMessage(Some(last.step), last.cause, result.resetUrl,
                                           result.correlationId);
            && message.Some? && escalation.Some?
            && message.value.link == result.resetUrl && escalation.value.link == result.resetUrl
  {
    hide Format, ResetEligible, FailTemplate, EscalationTemplate;
    EveryHoleIsSupplied(result);
    var last := result.verdicts[|result.verdicts| - 1];
    EscalationAlwaysReferences(Some(last.step), last.cause, result.resetUrl, result.correlationId);
  }

  // The message shows the link exactly when the result carries it, and a later escalation of
  // the stored run shows the very same one: both exactly when a reset is what helps.
  lemma MessagesShowLinkIff(correlationId: string, conn: Connector, req: DiagnosticRequest, q: StatusQuery,
                            link: string)
    requires AnswersStatus(conn, req, q)
    ensures var r := RunOf(correlationId, STEP_NAMES, conn, req);
            && r.verdicts != []
            && var last := r.verdicts[|r.verdicts| - 1];
               var message, escalation := BuildVerdictMessage(r),
                                          BuildEscalationMessage(Some(last.step), last.cause, r.resetUrl,
                                              correlationId);
            && message.Some? && escalation.Some?
            && (message.value.link == Some(link) <==> OffersReset(conn, req, q, link))
            && (escalation.value.link == Some(link) <==> OffersReset(conn, req, q, link))
  {
    hide RunOf, BuildVerdictMessage, BuildEscalationMessage, OffersReset, AnswersStatus, ResetEligible;
    var r := RunOf(correlationId, STEP_NAMES, conn, req);
    RunHasVerdicts(correlationId, conn, req);
    ResultCarriesLinkIff(correlationId, conn, req, q, link);
    if r.resetUrl.Some? {
      AResultLinkIsEligible(correlationId, conn, req);
      ResultCarriesLinkIff(correlationId, conn, req, q, r.resetUrl.value);
      OfferedIsNotEmpty(conn, req, q, r.resetUrl.value);
    }
    MessageLinks(r);
  }

  lemma RunHasVerdicts(correlationId: string, conn: Connector, req: DiagnosticRequest)
    ensures var r := RunOf(correlationId, STEP_NAMES, conn, req); r.verdicts != [] && r.correlationId == correlationId
  {
    WalkIsNotEmpty(STEP_NAMES, conn, req);
  }

  lemma OfferedIsNotEmpty(conn: Connector, req: DiagnosticRequest, q: StatusQuery, link: string)
    requires OffersReset(conn, req, q, link)
    ensures link != ""
  {
    var login :| link == BuildPasswordResetUrl(q.cfg.template, q.cfg.baseUrl, login);
    LinksAreNotEmpty(q.cfg.template, q.cfg.baseUrl, login);
  }
}
