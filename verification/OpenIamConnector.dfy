/**
 The decisions OpenIAMConnector takes over OpenIAM's replies: account status, the reset
 link, availability, and how deprovisioning agrees with what step 4 counts as held.
 A request answers with a status of 400 or more, answers with a body, or raises.
 */
module OpenIamConnector {
  import opened Common
  import opened Verdicts
  import Funnel
  import Step4Authorization
  import opened ResetUrl

  datatype HttpReply<+T> = Refused(code: int) | Body(body: T)

  // principalList: one login per managed system. Dates are None when absent or unparseable.
  datatype LoginBean = LoginBean(
    managedSys: Option<string>,
    login: Option<Bytes>,
    status: Option<string>,
    active: Option<bool>,
    pwdExp: Option<int>)

  datatype User = User(
    status: Option<string>,
    secondaryStatus: Option<string>,
    principals: seq<LoginBean>,
    roles: seq<Grant>,
    groups: seq<Grant>)

  const LOCKED_SECONDARY_STATUSES := {"LOCKED", "LOCKED_ADMIN"}

  /* ----- account status ----- */

  predicate DeletedLogin(entry: LoginBean) { entry.status == Some("DELETE") || entry.active == Some(false) }

  // A non-empty list of grants, all of them end-dated before now.
  predicate AllEnded(grants: seq<Grant>, now: int) {
    grants != [] && forall i :: 0 <= i < |grants| ==> grants[i].endDate.Some? && grants[i].endDate.value < now
  }

  predicate IsDeprovisioned(user: User, now: int) {
    (exists i :: 0 <= i < |user.principals| && DeletedLogin(user.principals[i]))
        || AllEnded(user.roles + user.groups, now)
  }

  predicate PasswordExpiredAt(entry: LoginBean, now: int) { entry.pwdExp.Some? && entry.pwdExp.value < now }

  function SystemName(entry: LoginBean): string {
    if entry.managedSys.GetOr("") == "" then "unknown system" else entry.managedSys.value
  }

  function ExpiredLogins(principals: seq<LoginBean>, now: int): seq<(string, int)> {
    if principals == [] then []
    else
      var e, earlier := principals[|principals| - 1], ExpiredLogins(principals[..|principals| - 1], now);
      if PasswordExpiredAt(e, now) then earlier + [(SystemName(e), e.pwdExp.value)] else earlier
  }

  // The loop of lines 81-87.
  method ExpiredPasswordLogins(principals: seq<LoginBean>, now: int) returns (expired: seq<(string, int)>)
    ensures expired == ExpiredLogins(principals, now)
  {
    expired := [];
    for i := 0 to |principals|
      invariant expired == ExpiredLogins(principals[..i], now)
    {
      assert principals[..i + 1][..i] == principals[..i];
      var exp := principals[i].pwdExp;
      if exp.Some? && exp.value < now {
        expired := expired + [(SystemName(principals[i]), exp.value)];
      }
    }
    assert principals[..|principals|] == principals;
  }

  // The list names exactly the logins whose password has expired.
  lemma {:induction false} ExpiredLoginsMembers(principals: seq<LoginBean>, now: int, name: string, at: int)
    ensures (name, at) in ExpiredLogins(principals, now)
       <==> exists e :: e in principals && SystemName(e) == name && e.pwdExp == Some(at) && at < now
    decreases |principals|
  {
    if principals != [] {
      var init, last := principals[..|principals| - 1], principals[|principals| - 1];
      ExpiredLoginsMembers(init, now, name, at);
      assert principals == init + [last];
      assert forall e :: e in principals <==> e in init || e == last;
    }
  }

  predicate IsOpenIam(entry: LoginBean) { entry.managedSys == Some("OPENIAM") }

  function SelectLogin(principals: seq<LoginBean>): Option<Bytes> {
    FirstOpenIamLogin(principals, if principals == [] then None else principals[0].login)
  }

  function FirstOpenIamLogin(principals: seq<LoginBean>, fallback: Option<Bytes>): Option<Bytes> {
    if principals == [] then fallback
    else if IsOpenIam(principals[0]) then principals[0].login
    else FirstOpenIamLogin(principals[1..], fallback)
  }

  // The login of the first entry for OpenIAM itself.
  lemma {:induction false} SelectsFirstOpenIam(principals: seq<LoginBean>, fallback: Option<Bytes>, i: nat)
    requires i < |principals| && IsOpenIam(principals[i])
    requires forall k :: 0 <= k < i ==> !IsOpenIam(principals[k])
    ensures FirstOpenIamLogin(principals, fallback) == principals[i].login
  {
    if i > 0 {
      SelectsFirstOpenIam(principals[1..], fallback, i - 1);
    }
  }

  predicate LockedOut(user: User) {
    user.secondaryStatus.Some? && user.secondaryStatus.value in LOCKED_SECONDARY_STATUSES
  }

  function StateOf(user: User, expired: seq<(string, int)>, now: int): AccountState {
    if LockedOut(user) then Locked
    else if IsDeprovisioned(user, now) then Deprovisioned
    else if user.status != Some("ACTIVE") then Disabled
    else if expired != [] then PasswordExpired
    else Active
  }

  datatype Config = Config(template: Template, baseUrl: string)

  function LinkFor(cfg: Config, login: Option<Bytes>): Option<string> {
    if login.GetOr([]) == [] then None else Some(BuildPasswordResetUrl(cfg.template, cfg.baseUrl, login.value))
  }

  // get_user_status once the reply is known. The clock is read twice: for the password
  // expiries, and later for the grants.
  function UserStatusOf(reply: HttpReply<User>, cfg: Config, now: int, later: int): UserStatus {
    match reply
    case Refused(code) => UserStatus(NotFound, Text("user lookup refused"), None)
    case Body(user) =>
      var expired := ExpiredLogins(user.principals, now);
      var state := StateOf(user, expired, later);
      var link := LinkFor(cfg, SelectLogin(user.principals));
      if state != PasswordExpired then UserStatus(state, Text("raw status"), link)
      else UserStatus(state, Expired(expired), if exists p :: p in expired && p.0 == "OPENIAM" then link else None)
  }

  /* ----- what the status check answers ----- */

  predicate IsLockedOut(user: User) {
    user.secondaryStatus == Some("LOCKED") || user.secondaryStatus == Some("LOCKED_ADMIN")
  }

  // A login was deleted or deactivated, or all roles and groups ever granted have ended.
  predicate IsRemoved(user: User, now: int) {
    || (exists e :: e in user.principals && (e.status == Some("DELETE") || e.active == Some(false)))
    || ((user.roles != [] || user.groups != [])
        && (forall g :: g in user.roles ==> g.endDate.Some? && g.endDate.value < now)
        && (forall g :: g in user.groups ==> g.endDate.Some? && g.endDate.value < now))
  }

  predicate SomePasswordExpired(user: User, now: int) {
    exists e :: e in user.principals && e.pwdExp.Some? && e.pwdExp.value < now
  }

  // The state of an account, by the first of these that holds; the second reading of the clock
  // decides about grants, the first about passwords.
  predicate StateFits(reply: HttpReply<User>, now: int, later: int, state: AccountState) {
    if reply.Refused? then state == NotFound
    else if IsLockedOut(reply.body) then state == Locked
    else if IsRemoved(reply.body, later) then state == Deprovisioned
    else if reply.body.status != Some("ACTIVE") then state == Disabled
    else if SomePasswordExpired(reply.body, now) then state == PasswordExpired
    else state == Active
  }

  lemma LockedOutMeans(user: User)
    ensures LockedOut(user) <==> IsLockedOut(user)
  {}

  lemma RemovedMeans(user: User, now: int)
    ensures IsDeprovisioned(user, now) <==> IsRemoved(user, now)
  {
    var grants := user.roles + user.groups;
    assert forall g :: g in grants <==> g in user.roles || g in user.groups;
    assert AllEnded(grants, now)
        <==> grants != [] && forall g :: g in grants ==> g.endDate.Some? && g.endDate.value < now;
    assert grants == [] <==> user.roles == [] && user.groups == [];
    if i :| 0 <= i < |user.principals| && DeletedLogin(user.principals[i]) {
      assert user.principals[i] in user.principals;
    }
  }

  lemma SomeExpiredMeans(user: User, now: int)
    ensures ExpiredLogins(user.principals, now) != [] <==> SomePasswordExpired(user, now)
  {
    var expired := ExpiredLogins(user.principals, now);
    if expired != [] {
      ExpiredLoginsMembers(user.principals, now, expired[0].0, expired[0].1);
      assert expired[0] in expired;
    }
    if e :| e in user.principals && e.pwdExp.Some? && e.pwdExp.value < now {
      ExpiredLoginsMembers(user.principals, now, SystemName(e), e.pwdExp.value);
    }
  }

  lemma StateMeans(reply: HttpReply<User>, cfg: Config, now: int, later: int)
    ensures StateFits(reply, now, later, UserStatusOf(reply, cfg, now, later).state)
  {
    hide LinkFor, ExpiredLogins, IsRemoved, IsLockedOut, LockedOut, IsDeprovisioned, SomePasswordExpired, SelectLogin;
    if reply.Body? {
      LockedOutMeans(reply.body);
      RemovedMeans(reply.body, later);
      SomeExpiredMeans(reply.body, now);
    }
  }

  // One call of get_user_status: the reply to its lookup, and its two readings of the clock.
  datatype StatusQuery = StatusQuery(reply: Reply<HttpReply<User>>, cfg: Config, now: int, later: int)

  // The connector is OpenIAM's: its status answer is what get_user_status makes of this reply.
  ghost predicate AnswersStatus(conn: Funnel.Connector, req: DiagnosticRequest, q: StatusQuery) {
    conn.userStatus(req.subject)
    == if q.reply.Raise? then Raise else Answer(UserStatusOf(q.reply.value, q.cfg, q.now, q.later))
  }

  // The detail of an expired password names exactly the logins concerned, with their dates.
  lemma ExpiredDetailMeans(reply: HttpReply<User>, cfg: Config, now: int, later: int, name: string, at: int)
    requires UserStatusOf(reply, cfg, now, later).state == PasswordExpired
    ensures var d := UserStatusOf(reply, cfg, now, later).detail;
            && reply.Body? && d.Expired?
            && ((name, at) in d.logins <==>
                  exists e :: e in reply.body.principals && SystemName(e) == name && e.pwdExp == Some(at) && at < now)
  {
    ExpiredLoginsMembers(reply.body.principals, now, name, at);
  }

  // Step 2 passes an account exactly if nothing of this is the matter with it, and otherwise
  // fails it with what is.
  lemma StepTwoMeans(conn: Funnel.Connector, req: DiagnosticRequest, q: StatusQuery)
    requires AnswersStatus(conn, req, q) && q.reply.Answer?
    ensures var v := Funnel.StepVerdict(AccountStatus, conn, req);
            exists state :: StateFits(q.reply.value, q.now, q.later, state) && VerdictFits(v, state)
  {
    hide StateFits, UserStatusOf;
    StateMeans(q.reply.value, q.cfg, q.now, q.later);
    Funnel.AccountStatusMeans(conn, req);
    assert VerdictFits(Funnel.StepVerdict(AccountStatus, conn, req),
        UserStatusOf(q.reply.value, q.cfg, q.now, q.later).state);
  }

  predicate VerdictFits(v: Verdict, state: AccountState) {
    match state
    case Active => v.status == Pass
    case Locked => v.status == Fail && v.cause == Some("locked")
    case Disabled => v.status == Fail && v.cause == Some("disabled")
    case PasswordExpired => v.status == Fail && v.cause == Some("password_expired")
    case Deprovisioned => v.status == Fail && v.cause == Some("deprovisioned")
    case NotFound => v.status == Fail && v.cause == Some("not_found")
  }

  method GetUserStatus(reply: HttpReply<User>, cfg: Config, now: int, later: int) returns (r: UserStatus)
    ensures r == UserStatusOf(reply, cfg, now, later)
    ensures StateFits(reply, now, later, r.state)
  {
    hide StateFits;
    StateMeans(reply, cfg, now, later);
    if reply.Refused? { return UserStatus(NotFound, Text("user lookup refused"), None); }
    var user := reply.body;
    var expired := ExpiredPasswordLogins(user.principals, now);
    var state := StateOf(user, expired, later);
    var login := SelectLogin(user.principals);
    var link := None;
    if login.Some? && login.value != [] {
      link := Some(BuildPasswordResetUrl(cfg.template, cfg.baseUrl, login.value));
    }
    if state == PasswordExpired {
      if !exists i :: 0 <= i < |expired| && expired[i].0 == "OPENIAM" {
        link := None;
      }
      return UserStatus(state, Expired(expired), link);
    }
    return UserStatus(state, Text("raw status"), link);
  }

  /* ----- when a reset link comes with an expired password ----- */

  // The first entry for OpenIAM itself has this login.
  predicate PrimaryLogin(user: User, login: Bytes) {
    exists i :: 0 <= i < |user.principals| && IsOpenIam(user.principals[i]) && user.principals[i].login == Some(login)
                && forall k :: 0 <= k < i ==> !IsOpenIam(user.principals[k])
  }

  // The account can be reset by its user, and a reset is what it needs.
  ghost predicate ResetHelps(user: User, login: Bytes, now: int, later: int) {
    && !LockedOut(user) && !IsDeprovisioned(user, later) && user.status == Some("ACTIVE")
    && (exists e :: e in user.principals && IsOpenIam(e) && PasswordExpiredAt(e, now))
    && PrimaryLogin(user, login) && login != []
  }

  lemma FirstOpenIam(principals: seq<LoginBean>, e: LoginBean) returns (i: nat)
    requires e in principals && IsOpenIam(e)
    ensures i < |principals| && IsOpenIam(principals[i]) && forall k :: 0 <= k < i ==> !IsOpenIam(principals[k])
  {
    i := 0;
    while !IsOpenIam(principals[i])
      invariant i < |principals|
      invariant forall k :: 0 <= k < i ==> !IsOpenIam(principals[k])
      invariant exists k :: i <= k < |principals| && principals[k] == e
      decreases |principals| - i
    {
      i := i + 1;
    }
  }

  // An expired password comes with a link exactly when the account is otherwise in order, an
  // OpenIAM login's own password has expired, and the first OpenIAM login is not empty; the
  // link is built from that login.
  lemma LinkComesWithExpiredPassword(reply: HttpReply<User>, cfg: Config, now: int, later: int, link: string)
    ensures (UserStatusOf(reply, cfg, now, later).state == PasswordExpired
                && UserStatusOf(reply, cfg, now, later).resetUrl == Some(link))
       <==> (reply.Body? && exists login :: ResetHelps(reply.body, login, now, later)
                                            && link == BuildPasswordResetUrl(cfg.template, cfg.baseUrl, login))
  {
    hide BuildPasswordResetUrl, ExpiredLogins, SelectLogin, PrimaryLogin, IsDeprovisioned, LockedOut, IsOpenIam,
         PasswordExpiredAt;
    if reply.Body? {
      var user := reply.body;
      OpenIamExpiry(user.principals, now);
      if exists e :: e in user.principals && IsOpenIam(e) && PasswordExpiredAt(e, now) {
        var e :| e in user.principals && IsOpenIam(e) && PasswordExpiredAt(e, now);
        SelectsPrimary(user, e);
      }
    }
  }

  // With an OpenIAM entry in the list, the login selected is the primary one.
  lemma SelectsPrimary(user: User, e: LoginBean)
    requires e in user.principals && IsOpenIam(e)
    ensures forall login :: PrimaryLogin(user, login) <==> SelectLogin(user.principals) == Some(login)
  {
    var i := FirstOpenIam(user.principals, e);
    SelectsFirstOpenIam(user.principals, user.principals[0].login, i);
    forall login | PrimaryLogin(user, login) ensures SelectLogin(user.principals) == Some(login) {
      var j :| 0 <= j < |user.principals| && IsOpenIam(user.principals[j]) && user.principals[j].login == Some(login)
               && forall k :: 0 <= k < j ==> !IsOpenIam(user.principals[k]);
      SelectsFirstOpenIam(user.principals, user.principals[0].login, j);
    }
  }

  lemma OpenIamExpiry(principals: seq<LoginBean>, now: int)
    ensures (exists p :: p in ExpiredLogins(principals, now) && p.0 == "OPENIAM")
       <==> exists e :: e in principals && IsOpenIam(e) && PasswordExpiredAt(e, now)
  {
    var expired := ExpiredLogins(principals, now);
    if e :| e in principals && IsOpenIam(e) && PasswordExpiredAt(e, now) {
      ExpiredLoginsMembers(principals, now, "OPENIAM", e.pwdExp.value);
      assert ("OPENIAM", e.pwdExp.value) in expired;
    }
    if p :| p in expired && p.0 == "OPENIAM" {
      ExpiredLoginsMembers(principals, now, p.0, p.1);
      var e :| e in principals && SystemName(e) == p.0 && e.pwdExp == Some(p.1) && p.1 < now;
      assert IsOpenIam(e);
    }
  }

  /* ----- permissions ----- */

  // get_effective_permissions: roles first, then groups; a refused lookup holds nothing.
  function EffectivePermissions(reply: HttpReply<User>): seq<Grant> {
    if reply.Refused? then [] else reply.body.roles + reply.body.groups
  }

  // These are the names that the policy requires for the resource: those of its first mapping.
  predicate IsRequired(mapping: seq<RoleMapping>, resource: string, names: seq<string>) {
    if forall i :: 0 <= i < |mapping| ==> mapping[i].resource != resource
    then names == []
    else exists i :: 0 <= i < |mapping| && mapping[i].resource == resource && names == mapping[i].requiredRoles
                     && forall k :: 0 <= k < i ==> mapping[k].resource != resource
  }

  // The loop of lines 468-475.
  method GetRequiredPermissions(mapping: seq<RoleMapping>, resource: string) returns (names: seq<string>)
    ensures IsRequired(mapping, resource, names)
    ensures forall other :: IsRequired(mapping, resource, other) ==> other == names
  {
    for i := 0 to |mapping|
      invariant forall k :: 0 <= k < i ==> mapping[k].resource != resource
    {
      if mapping[i].resource == resource {
        return mapping[i].requiredRoles;
      }
    }
    names := [];
  }

  /* ----- deprovisioning and authorization see the same grants ----- */

  // The second signal of _is_deprovisioned is about the very grants that step 4 is given.
  predicate AllGrantsEnded(user: User, t: int) { AllEnded(EffectivePermissions(Body(user)), t) }

  // If the status check counts every grant as ended, step 4 sees no held name from then on.
  lemma EndedMeansNothingHeld(user: User, t: int, later: int, name: string)
    requires AllGrantsEnded(user, t) && t <= later
    ensures IsDeprovisioned(user, t)
    ensures !Step4Authorization.Holds(EffectivePermissions(Body(user)), name, later)
  {}

  // If step 4 sees none of a non-empty list held, the status check counts them all as ended,
  // and the account as deprovisioned, at every later instant.
  lemma NothingHeldMeansEnded(user: User, t: int, later: int)
    requires EffectivePermissions(Body(user)) != [] && t < later
    requires forall name :: !Step4Authorization.Holds(EffectivePermissions(Body(user)), name, t)
    ensures AllGrantsEnded(user, later) && IsDeprovisioned(user, later)
  {
    var grants := EffectivePermissions(Body(user));
    forall i | 0 <= i < |grants| ensures grants[i].endDate.Some? && grants[i].endDate.value < later {
      assert !Step4Authorization.Holds(grants, grants[i].name, t);
      assert grants[i] in grants;
    }
  }

  // Every grant has an end date, and none is after t.
  predicate AllOverBy(grants: seq<Grant>, t: int) {
    forall g :: g in grants ==> g.endDate.Some? && g.endDate.value <= t
  }

  // At one and the same instant the two disagree exactly when the last grant ends at it.
  lemma DisagreeOnlyAtTheBoundary(user: User, t: int)
    requires EffectivePermissions(Body(user)) != []
    ensures ((forall name :: !Step4Authorization.Holds(EffectivePermissions(Body(user)), name, t))
                && !AllGrantsEnded(user, t))
       <==> (AllOverBy(EffectivePermissions(Body(user)), t)
             && exists g :: g in EffectivePermissions(Body(user)) && g.endDate == Some(t))
  {
    var grants := EffectivePermissions(Body(user));
    if forall name :: !Step4Authorization.Holds(grants, name, t) {
      NothingHeldMeansEnded(user, t, t + 1);
      assert forall g :: g in grants ==> g.endDate.Some? && g.endDate.value <= t;
    }
    if AllGrantsEnded(user, t) {
      assert forall g :: g in grants ==> g.endDate.Some? && g.endDate.value < t;
    }
  }

  // The connector answers step 4 from this policy and this user.
  ghost predicate AnswersPermissions(conn: Funnel.Connector, req: DiagnosticRequest, mapping: seq<RoleMapping>,
                                     reply: HttpReply<User>) {
    var resource := Funnel.Resource(req);
    && conn.required(resource).Answer? && IsRequired(mapping, resource, conn.required(resource).value)
    && conn.effective(req.subject, resource) == Answer(EffectivePermissions(reply))
  }

  // Step 4 passes a user whose grants have all ended, or whose lookup is refused, exactly when
  // the policy requires nothing for the resource: no mapping, or an empty first one.
  lemma EndedAccessPassesOnlyUnasked(conn: Funnel.Connector, req: DiagnosticRequest, mapping: seq<RoleMapping>,
                                     reply: HttpReply<User>, t: int)
    requires AnswersPermissions(conn, req, mapping, reply)
    requires reply.Refused? || AllGrantsEnded(reply.body, t)
    requires t <= conn.now
    ensures Funnel.StepVerdict(Authorization, conn, req).status == Pass
            <==> IsRequired(mapping, Funnel.Resource(req), [])
  {
    var required := conn.required(Funnel.Resource(req)).value;
    var grants := EffectivePermissions(reply);
    if required != [] {
      assert required[0] in required && !Step4Authorization.Holds(grants, required[0], conn.now);
    }
  }

  /* ----- availability ----- */

  // One connection test of a managed system; the date is None when it does not parse.
  datatype Test = Test(date: Option<int>, status: Option<string>)

  // The dated test with the greatest date, the first such one; failing dates, the last test.
  predicate IsLatestTest(tests: seq<Test>, r: Test) {
    if forall i :: 0 <= i < |tests| ==> tests[i].date.None?
    then tests != [] && r == tests[|tests| - 1]
    else exists k :: 0 <= k < |tests| && r == tests[k] && r.date.Some?
                     && (forall i :: 0 <= i < |tests| && tests[i].date.Some? ==> tests[i].date.value <= r.date.value)
                     && (forall i :: 0 <= i < k && tests[i].date.Some? ==> tests[i].date.value < r.date.value)
  }

  lemma LatestTestIsUnique(tests: seq<Test>, r: Test, q: Test)
    requires IsLatestTest(tests, r) && IsLatestTest(tests, q)
    ensures r == q
  {}

  // The loop and the maximum of lines 181-195.
  method LatestReply(tests: seq<Test>) returns (r: Option<Test>)
    ensures tests == [] <==> r.None?
    ensures r.Some? ==> IsLatestTest(tests, r.value)
    ensures tests != [] && (forall i :: 0 <= i < |tests| ==> tests[i].date.None?) ==> r == Some(tests[|tests| - 1])
    ensures forall i :: 0 <= i < |tests| && tests[i].date.Some? ==>
              r.Some? && r.value in tests && r.value.date.Some? && tests[i].date.value <= r.value.date.value
  {
    if tests == [] { return None; }
    var best: Option<nat> := None;
    for i := 0 to |tests|
      invariant best.None? ==> forall k :: 0 <= k < i ==> tests[k].date.None?
      invariant best.Some? ==>
        && best.value < i && tests[best.value].date.Some?
        && (forall k :: 0 <= k < i && tests[k].date.Some? ==> tests[k].date.value <= tests[best.value].date.value)
        && (forall k :: 0 <= k < best.value && tests[k].date.Some? ==>
            tests[k].date.value < tests[best.value].date.value)
    {
      if tests[i].date.Some? && (best.None? || tests[i].date.value > tests[best.value].date.value) {
        best := Some(i);
      }
    }
    r := if best.None? then Some(tests[|tests| - 1]) else Some(tests[best.value]);
  }

  // The dashboard's answer about one managed system: the connection tests of each match.
  type Lookup = Reply<HttpReply<seq<seq<Test>>>>

  // Some(false) only for a confirmed failure; None when nothing can be concluded.
  ghost predicate ConfirmedDown(lookup: Lookup) {
    && lookup.Answer? && lookup.value.Body? && lookup.value.body != [] && lookup.value.body[0] != []
    && exists r :: IsLatestTest(lookup.value.body[0], r) && r.status != Some("Ok")
  }

  method CheckManagedSystem(lookup: Lookup) returns (ok: Reply<Option<bool>>)
    ensures ok.Raise? <==> lookup.Raise?
    ensures ok.Answer? ==> (ok.value == Some(false) <==> ConfirmedDown(lookup))
  {
    if lookup.Raise? { return Raise; }
    if lookup.value.Refused? || lookup.value.body == [] { return Answer(None); }
    var latest := LatestReply(lookup.value.body[0]);
    if latest.None? { return Answer(None); }
    ok := Answer(Some(latest.value.status == Some("Ok")));
    forall r | IsLatestTest(lookup.value.body[0], r) ensures r == latest.value {
      LatestTestIsUnique(lookup.value.body[0], r, latest.value);
    }
  }

  function ManagedSystems(principals: seq<LoginBean>): set<string> {
    set e | e in principals && e.managedSys.GetOr("") != "" :: e.managedSys.value
  }

  // What check_availability answers, with no order among the systems.
  ghost function AvailabilityOf(user: Reply<HttpReply<User>>, lookups: string -> Lookup): Reply<AvailabilityStatus> {
    if user.Raise? then Raise
    else if user.value.Refused? then Answer(Degraded)
    else
      var names := ManagedSystems(user.value.body.principals);
      if exists n :: n in names && lookups(n).Raise? then Raise
      else if exists n :: n in names && ConfirmedDown(lookups(n)) then Answer(Down)
      else Answer(Up)
  }

  // A system that this user has a login on is confirmed not to work.
  ghost predicate SomeDown(user: User, lookups: string -> Lookup) {
    exists e :: e in user.principals && e.managedSys.GetOr("") != "" && ConfirmedDown(lookups(e.managedSys.value))
  }

  ghost predicate SomeRaises(user: User, lookups: string -> Lookup) {
    exists e :: e in user.principals && e.managedSys.GetOr("") != "" && lookups(e.managedSys.value) == Raise
  }

  lemma ManagedSystemsMean(user: User, lookups: string -> Lookup)
    ensures SomeDown(user, lookups) <==> exists n :: n in ManagedSystems(user.principals) && ConfirmedDown(lookups(n))
    ensures SomeRaises(user, lookups) <==> exists n :: n in ManagedSystems(user.principals) && lookups(n).Raise?
  {
    hide ConfirmedDown;
    if e :| e in user.principals && e.managedSys.GetOr("") != "" && ConfirmedDown(lookups(e.managedSys.value)) {
      assert e.managedSys.value in ManagedSystems(user.principals);
    }
    if e :| e in user.principals && e.managedSys.GetOr("") != "" && lookups(e.managedSys.value) == Raise {
      assert e.managedSys.value in ManagedSystems(user.principals);
    }
  }

  // Lines 283-325. The systems are visited in whatever order the set yields them; systems
  // about which nothing is known do not matter.
  method CheckAvailability(user: Reply<HttpReply<User>>, lookups: string -> Lookup)
    returns (r: Reply<AvailabilityStatus>)
    ensures r == AvailabilityOf(user, lookups)
    ensures r == Answer(Degraded) <==> user.Answer? && user.value.Refused?
    ensures r.Answer? && user.value.Body? ==> r.value == if SomeDown(user.value.body, lookups) then Down else Up
    ensures r == Raise <==> user.Raise? || (user.value.Body? && SomeRaises(user.value.body, lookups))
  {
    hide ConfirmedDown, SomeDown, SomeRaises;
    if user.Raise? { return Raise; }
    if user.value.Refused? { return Answer(Degraded); }
    ManagedSystemsMean(user.value.body, lookups);
    var raised, down := VisitSystems(ManagedSystems(user.value.body.principals), lookups);
    r := if raised then Raise else if down then Answer(Down) else Answer(Up);
  }

  method VisitSystems(names: set<string>, lookups: string -> Lookup) returns (raised: bool, down: bool)
    ensures raised <==> exists n :: n in names && lookups(n).Raise?
    ensures down <==> exists n :: n in names && ConfirmedDown(lookups(n))
  {
    hide ConfirmedDown;
    var pending := names;
    raised, down := false, false;
    while pending != {}
      invariant pending <= names
      invariant raised <==> exists n :: n in names - pending && lookups(n).Raise?
      invariant down <==> exists n :: n in names - pending && ConfirmedDown(lookups(n))
      decreases |pending|
    {
      var name :| name in pending;
      var ok := CheckManagedSystem(lookups(name));
      ghost var done := names - pending;
      pending := pending - {name};
      assert names - pending == done + {name};
      raised := raised || ok.Raise?;
      down := down || ok == Answer(Some(false));
      if ConfirmedDown(lookups(name)) { RaisedIsNotDown(lookups(name)); }
    }
    assert names - pending == names;
  }

  lemma RaisedIsNotDown(lookup: Lookup)
    requires ConfirmedDown(lookup)
    ensures lookup.Answer?
  {}
}
