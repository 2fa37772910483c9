/**
 Step 4 of the funnel: does the user hold what the resource requires, and if not, why?
 The first part says what the verdict is, in terms of sets of grants and events; the
 method at the end computes it with the loops and dictionaries of the program.
 */
module Step4Authorization {
  import opened Common
  import opened Verdicts

  const REVOKE_ACTIONS := {"DELETE_USER_FROM_ROLE", "DELETE_USER_FROM_GROUP"}

  const SYNC_ADVISORY_ACTIONS := {
    "PROVISIONING", "GROUP_PROVISIONING", "SEND_REPORT_OF_FAILED_PROVISION_REQUESTS", "RETRY_PROVISIONING",
    "RECONCILE_USER", "RECONCILE_IDM_WITH_TARGET", "RECONCILE_TARGET_WITH_IDM", "RECONCILIATION_RECORD_FALSE",
    "SYNCHRONIZATION_ORPHAN"}

  /* ----- meaning ----- */

  predicate Current(g: Grant, now: int) { g.endDate.None? || g.endDate.value > now }

  ghost predicate Holds(grants: seq<Grant>, name: string, now: int) {
    exists g :: g in grants && g.name == name && Current(g, now)
  }

  ghost predicate HasExpired(grants: seq<Grant>, name: string, now: int) {
    exists g :: g in grants && g.name == name && !Current(g, now)
  }

  predicate IsRevokeOf(e: PermissionEvent, name: string) { e.action in REVOKE_ACTIONS && name in e.targets }

  ghost predicate Revoked(events: seq<PermissionEvent>, name: string) {
    exists e :: e in events && IsRevokeOf(e, name)
  }

  ghost function CauseOf(name: string, grants: seq<Grant>, events: seq<PermissionEvent>, now: int): string {
    if Revoked(events, name) then "access_revoked"
    else if HasExpired(grants, name, now) then "access_expired"
    else "missing_role"
  }

  // Smaller is more specific.
  function Priority(cause: string): nat {
    if cause == "access_revoked" then 0 else if cause == "access_expired" then 1 else 2
  }

  // The instant of the latest event that revoked this name.
  function RevokedOn(events: seq<PermissionEvent>, name: string): Option<int> {
    if events == [] then None
    else
      var e, earlier := events[|events| - 1], RevokedOn(events[..|events| - 1], name);
      if !IsRevokeOf(e, name) then earlier
      else if earlier.Some? && e.occurredAt <= earlier.value then earlier
      else Some(e.occurredAt)
  }

  // The end date of the last listed grant of this name that has ended.
  function ExpiredOn(grants: seq<Grant>, name: string, now: int): Option<int> {
    if grants == [] then None
    else
      var g := grants[|grants| - 1];
      if g.name == name && !Current(g, now) then g.endDate else ExpiredOn(grants[..|grants| - 1], name, now)
  }

  ghost function Describe(name: string, grants: seq<Grant>, events: seq<PermissionEvent>, now: int): MissingAccess {
    var cause := CauseOf(name, grants, events, now);
    MissingAccess(name, cause,
      if cause == "access_revoked" then RevokedOn(events, name)
      else if cause == "access_expired" then ExpiredOn(grants, name, now)
      else None)
  }

  // The required names not held, in the order of the requirement.
  ghost function NotHeld(required: seq<string>, grants: seq<Grant>, now: int): seq<string> {
    if required == [] then []
    else
      var rest := NotHeld(required[..|required| - 1], grants, now);
      if Holds(grants, required[|required| - 1], now) then rest else rest + [required[|required| - 1]]
  }

  ghost function DescribeAll(names: seq<string>, grants: seq<Grant>, events: seq<PermissionEvent>,
                             now: int): seq<MissingAccess> {
    seq(|names|, i requires 0 <= i < |names| => Describe(names[i], grants, events, now))
  }

  ghost predicate IsMissing(required: seq<string>, grants: seq<Grant>, name: string, now: int) {
    name in required && !Holds(grants, name, now)
  }

  // The most specific reason among the missing names.
  ghost function ReportedCause(required: seq<string>, grants: seq<Grant>, events: seq<PermissionEvent>,
                               now: int): string {
    if exists name :: IsMissing(required, grants, name, now) && Revoked(events, name) then "access_revoked"
    else if exists name :: IsMissing(required, grants, name, now) && HasExpired(grants, name, now) then "access_expired"
    else "missing_role"
  }

  // The sync event with the greatest instant, the first such one in the list.
  function LatestSync(events: seq<PermissionEvent>): Option<PermissionEvent> {
    if events == [] then None
    else
      var e, earlier := events[|events| - 1], LatestSync(events[..|events| - 1]);
      if e.action !in SYNC_ADVISORY_ACTIONS then earlier
      else if earlier.Some? && e.occurredAt <= earlier.value.occurredAt then earlier
      else Some(e)
  }

  ghost function Authorize(required: seq<string>, grants: seq<Grant>, events: seq<PermissionEvent>, now: int): Verdict {
    var note := LatestSync(events);
    if forall name :: name in required ==> Holds(grants, name, now)
    then Verdict(Authorization, Pass, None, if note.Some? then SyncNote(note.value) else NoDetail)
    else Verdict(Authorization, Fail, Some(ReportedCause(required, grants, events, now)),
                 Missing(DescribeAll(NotHeld(required, grants, now), grants, events, now), note))
  }

  /* ----- what the pieces mean ----- */

  lemma {:induction false} RevokedOnIsLatest(events: seq<PermissionEvent>, name: string)
    ensures RevokedOn(events, name).Some? <==> Revoked(events, name)
    ensures var d := RevokedOn(events, name);
            d.Some? ==> (exists e :: e in events && IsRevokeOf(e, name) && e.occurredAt == d.value)
                        && (forall e :: e in events && IsRevokeOf(e, name) ==> e.occurredAt <= d.value)
    decreases |events|
  {
    if events != [] {
      var init, last := events[..|events| - 1], events[|events| - 1];
      RevokedOnIsLatest(init, name);
      assert events == init + [last];
      assert forall e :: e in events <==> e in init || e == last;
    }
  }

  lemma {:induction false} ExpiredOnIsAnEndDate(grants: seq<Grant>, name: string, now: int)
    ensures ExpiredOn(grants, name, now).Some? <==> HasExpired(grants, name, now)
    ensures var d := ExpiredOn(grants, name, now);
            d.Some? ==> d.value <= now && exists g :: g in grants && g.name == name && g.endDate == d
    decreases |grants|
  {
    if grants != [] {
      var init, last := grants[..|grants| - 1], grants[|grants| - 1];
      ExpiredOnIsAnEndDate(init, name, now);
      assert grants == init + [last];
      assert forall g :: g in grants <==> g in init || g == last;
    }
  }

  lemma {:induction false} NotHeldMembers(required: seq<string>, grants: seq<Grant>, now: int, name: string)
    ensures name in NotHeld(required, grants, now) <==> name in required && !Holds(grants, name, now)
    decreases |required|
  {
    if required != [] {
      NotHeldMembers(required[..|required| - 1], grants, now, name);
      assert required == required[..|required| - 1] + [required[|required| - 1]];
    }
  }

  /* ----- what the verdict says ----- */

  // A required name for which every grant there is has ended.
  ghost predicate Lacks(required: seq<string>, grants: seq<Grant>, now: int, name: string) {
    name in required && forall g :: g in grants && g.name == name ==> g.endDate.Some? && g.endDate.value <= now
  }

  // Some event removed this role or group from the user.
  ghost predicate TakenAway(events: seq<PermissionEvent>, name: string) {
    exists e :: e in events && name in e.targets
                && (e.action == "DELETE_USER_FROM_ROLE" || e.action == "DELETE_USER_FROM_GROUP")
  }

  // Some grant of this name has ended.
  ghost predicate RanOut(grants: seq<Grant>, now: int, name: string) {
    exists g :: g in grants && g.name == name && g.endDate.Some? && g.endDate.value <= now
  }

  // The cause a failure is reported with: removed access before expired before never granted.
  ghost predicate CauseFits(required: seq<string>, grants: seq<Grant>, events: seq<PermissionEvent>, now: int,
                            cause: string) {
    if exists name :: Lacks(required, grants, now, name) && TakenAway(events, name) then cause == "access_revoked"
    else if exists name :: Lacks(required, grants, now, name) && RanOut(grants, now, name)
    then cause == "access_expired"
    else cause == "missing_role"
  }

  lemma LacksIsMissing(required: seq<string>, grants: seq<Grant>, events: seq<PermissionEvent>, now: int, name: string)
    ensures Lacks(required, grants, now, name) <==> IsMissing(required, grants, name, now)
    ensures TakenAway(events, name) <==> Revoked(events, name)
    ensures RanOut(grants, now, name) <==> HasExpired(grants, name, now)
  {
    if TakenAway(events, name) {
      var e :| e in events && name in e.targets
          && (e.action == "DELETE_USER_FROM_ROLE" || e.action == "DELETE_USER_FROM_GROUP");
      assert IsRevokeOf(e, name);
    }
  }

  // PASS exactly if no required name is lacking; otherwise the cause is the first that fits any
  // lacking name.
  lemma VerdictMeans(required: seq<string>, grants: seq<Grant>, events: seq<PermissionEvent>, now: int)
    ensures var v := Authorize(required, grants, events, now);
            && v.step == Authorization && v.status != Inconclusive
            && (v.status == Fail <==> exists name :: Lacks(required, grants, now, name))
            && (v.status == Pass ==> v.cause == None)
            && (v.status == Fail ==> v.cause.Some? && CauseFits(required, grants, events, now, v.cause.value))
  {
    forall name
      ensures Lacks(required, grants, now, name) <==> IsMissing(required, grants, name, now)
      ensures TakenAway(events, name) <==> Revoked(events, name)
      ensures RanOut(grants, now, name) <==> HasExpired(grants, name, now)
    {
      LacksIsMissing(required, grants, events, now, name);
    }
    hide Lacks, TakenAway, RanOut, Revoked, HasExpired, Holds, LatestSync, NotHeld, DescribeAll;
    if name :| name in required && !Holds(grants, name, now) {
      assert IsMissing(required, grants, name, now);
    }
    if name :| Lacks(required, grants, now, name) {
      assert IsMissing(required, grants, name, now);
    }
  }

  // One description for a lacking name: its own cause, and the date that goes with it.
  ghost predicate DescriptionFits(grants: seq<Grant>, events: seq<PermissionEvent>, now: int, m: MissingAccess) {
    if TakenAway(events, m.name)
    then m.cause == "access_revoked" && m.date.Some? && LastRemoval(events, m.name, m.date.value)
    else if RanOut(grants, now, m.name)
    then m.cause == "access_expired" && m.date.Some? && m.date.value <= now
         && exists g :: g in grants && g.name == m.name && g.endDate == m.date
    else m.cause == "missing_role" && m.date == None
  }

  // At this instant the name was removed, and never later.
  ghost predicate LastRemoval(events: seq<PermissionEvent>, name: string, at: int) {
    && (exists e :: e in events && IsRevokeOf(e, name) && e.occurredAt == at)
    && (forall e :: e in events && IsRevokeOf(e, name) ==> e.occurredAt <= at)
  }

  predicate Names(missing: seq<MissingAccess>, name: string) {
    exists i :: 0 <= i < |missing| && missing[i].name == name
  }

  // The detail lists the lacking names in the order of the requirement, each described.
  lemma DetailMeans(required: seq<string>, grants: seq<Grant>, events: seq<PermissionEvent>, now: int)
    requires Authorize(required, grants, events, now).status == Fail
    ensures var d := Authorize(required, grants, events, now).detail;
            && d.Missing?
            && (forall name :: Lacks(required, grants, now, name) <==> Names(d.missing, name))
            && (forall i :: 0 <= i < |d.missing| ==> DescriptionFits(grants, events, now, d.missing[i]))
  {
    var names := NotHeld(required, grants, now);
    var missing := DescribeAll(names, grants, events, now);
    forall name ensures Lacks(required, grants, now, name) <==> Names(missing, name) {
      LacksIsMissing(required, grants, events, now, name);
      NotHeldMembers(required, grants, now, name);
      if name in names {
        var i :| 0 <= i < |names| && names[i] == name;
        assert missing[i].name == name;
      }
    }
    forall i | 0 <= i < |missing| ensures DescriptionFits(grants, events, now, missing[i]) {
      DescribeFits(names[i], grants, events, now);
    }
  }

  lemma DescribeFits(name: string, grants: seq<Grant>, events: seq<PermissionEvent>, now: int)
    ensures DescriptionFits(grants, events, now, Describe(name, grants, events, now))
  {
    LacksIsMissing([], grants, events, now, name);
    RevokedOnIsLatest(events, name);
    ExpiredOnIsAnEndDate(grants, name, now);
    hide TakenAway, RanOut, Revoked, HasExpired, RevokedOn, ExpiredOn, IsRevokeOf;
  }

  predicate IsSync(e: PermissionEvent) {
    || e.action == "PROVISIONING" || e.action == "GROUP_PROVISIONING"
    || e.action == "SEND_REPORT_OF_FAILED_PROVISION_REQUESTS" || e.action == "RETRY_PROVISIONING"
    || e.action == "RECONCILE_USER" || e.action == "RECONCILE_IDM_WITH_TARGET"
    || e.action == "RECONCILE_TARGET_WITH_IDM"
    || e.action == "RECONCILIATION_RECORD_FALSE" || e.action == "SYNCHRONIZATION_ORPHAN"
  }

  // No sync event is later than the one at k, and every one before it is earlier.
  predicate FirstLatestSync(events: seq<PermissionEvent>, k: int) {
    && 0 <= k < |events| && IsSync(events[k])
    && (forall i :: 0 <= i < |events| && IsSync(events[i]) ==> events[i].occurredAt <= events[k].occurredAt)
    && (forall i :: 0 <= i < k && IsSync(events[i]) ==> events[i].occurredAt < events[k].occurredAt)
  }

  // The advisory note is about the first sync event of greatest instant, if there is any.
  lemma {:induction false} NoteIsLatestSync(events: seq<PermissionEvent>) returns (k: int)
    ensures LatestSync(events).None? <==> forall e :: e in events ==> !IsSync(e)
    ensures LatestSync(events).Some? ==> FirstLatestSync(events, k) && events[k] == LatestSync(events).value
    decreases |events|
  {
    k := 0;
    if events != [] {
      var init, last := events[..|events| - 1], events[|events| - 1];
      k := NoteIsLatestSync(init);
      assert IsSync(last) <==> last.action in SYNC_ADVISORY_ACTIONS;
      hide IsSync;
      assert events == init + [last];
      assert forall e :: e in events <==> e in init || e == last;
      if LatestSync(events) != LatestSync(init) {
        k := |init|;
      }
    }
  }

  // The note changes nothing else: with a PASS it is the whole detail.
  lemma NoteIsAdvisory(required: seq<string>, grants: seq<Grant>, events: seq<PermissionEvent>, now: int)
    ensures var v := Authorize(required, grants, events, now);
            if v.status == Fail then v.detail.Missing? && v.detail.note == LatestSync(events)
            else v.detail == if LatestSync(events).Some? then SyncNote(LatestSync(events).value) else NoDetail
  {}

  // The reported cause is the most specific one among the missing names, and one of theirs.
  lemma ReportedCauseIsMinimal(required: seq<string>, grants: seq<Grant>, events: seq<PermissionEvent>, now: int)
    requires exists name :: name in required && !Holds(grants, name, now)
    ensures var c := ReportedCause(required, grants, events, now);
            && (exists name :: name in required && !Holds(grants, name, now) && CauseOf(name, grants, events, now) == c)
            && (forall name :: name in required && !Holds(grants, name, now) ==>
                  Priority(c) <= Priority(CauseOf(name, grants, events, now)))
  {
    var name :| name in required && !Holds(grants, name, now);
    if n :| n in required && !Holds(grants, n, now) && Revoked(events, n) {
      assert CauseOf(n, grants, events, now) == "access_revoked";
    } else if n :| n in required && !Holds(grants, n, now) && HasExpired(grants, n, now) {
      assert CauseOf(n, grants, events, now) == "access_expired";
    } else {
      assert CauseOf(name, grants, events, now) == "missing_role";
    }
  }

  /* ----- time only takes access away ----- */

  // A name that is missing stays missing, for the same reason and with the same date.
  lemma {:induction false} MissingNameIsStable(name: string, grants: seq<Grant>, events: seq<PermissionEvent>,
                                               now: int, later: int)
    requires now <= later && !Holds(grants, name, now)
    ensures !Holds(grants, name, later)
    ensures Describe(name, grants, events, later) == Describe(name, grants, events, now)
  {
    ExpiredOnIsStable(grants, name, now, later);
  }

  lemma {:induction false} ExpiredOnIsStable(grants: seq<Grant>, name: string, now: int, later: int)
    requires now <= later && !Holds(grants, name, now)
    ensures ExpiredOn(grants, name, later) == ExpiredOn(grants, name, now)
    decreases |grants|
  {
    if grants != [] {
      var init, last := grants[..|grants| - 1], grants[|grants| - 1];
      assert last in grants;
      assert forall g :: g in init ==> g in grants;
      assert !Holds(init, name, now);
      ExpiredOnIsStable(init, name, now, later);
    }
  }

  // Moving the clock forward never turns FAIL into PASS, and never makes the reported cause
  // less specific.
  lemma TimeNeverRestoresAccess(required: seq<string>, grants: seq<Grant>, events: seq<PermissionEvent>, now: int,
                                later: int)
    requires now <= later && Authorize(required, grants, events, now).status == Fail
    ensures var v, w := Authorize(required, grants, events, now), Authorize(required, grants, events, later);
            w.status == Fail && Priority(w.cause.value) <= Priority(v.cause.value)
  {
    ReportedCauseIsMinimal(required, grants, events, now);
    var name :| name in required && !Holds(grants, name, now)
                && CauseOf(name, grants, events, now) == ReportedCause(required, grants, events, now);
    MissingNameIsStable(name, grants, events, now, later);
    ReportedCauseIsMinimal(required, grants, events, later);
  }

  /* ----- which events matter ----- */

  ghost predicate RevokesWithin(events: seq<PermissionEvent>, more: seq<PermissionEvent>) {
    forall e :: e in events && e.action in REVOKE_ACTIONS ==> e in more
  }

  // Only the set of revoke events matters to the status, the cause, and every date given:
  // not their order, not their repetition, not any other event.
  lemma OnlyRevokeEventsMatter(required: seq<string>, grants: seq<Grant>, events: seq<PermissionEvent>,
                               others: seq<PermissionEvent>, now: int)
    requires RevokesWithin(events, others) && RevokesWithin(others, events)
    ensures var v, w := Authorize(required, grants, events, now), Authorize(required, grants, others, now);
            && v.status == w.status && v.cause == w.cause
            && (v.status == Fail ==> v.detail.missing == w.detail.missing)
  {
    forall name ensures Describe(name, grants, events, now) == Describe(name, grants, others, now)
                ensures Revoked(events, name) == Revoked(others, name)
    {
      RevokedOnIsLatest(events, name);
      RevokedOnIsLatest(others, name);
    }
    var names := NotHeld(required, grants, now);
    assert DescribeAll(names, grants, events, now) == DescribeAll(names, grants, others, now);
  }

  lemma PermutedEventsSameVerdict(required: seq<string>, grants: seq<Grant>, events: seq<PermissionEvent>,
                                  others: seq<PermissionEvent>, now: int)
    requires multiset(events) == multiset(others)
    ensures var v, w := Authorize(required, grants, events, now), Authorize(required, grants, others, now);
            && v.status == w.status && v.cause == w.cause
            && (v.status == Fail ==> v.detail.missing == w.detail.missing)
  {
    assert forall e :: e in events <==> e in multiset(events);
    assert forall e :: e in others <==> e in multiset(others);
    OnlyRevokeEventsMatter(required, grants, events, others, now);
  }

  // Learning of further revocations never changes the status or makes the cause less specific.
  lemma MoreRevocationsSharpenTheCause(required: seq<string>, grants: seq<Grant>, events: seq<PermissionEvent>,
                                       more: seq<PermissionEvent>, now: int)
    requires RevokesWithin(events, more)
    ensures var v, w := Authorize(required, grants, events, now), Authorize(required, grants, more, now);
            v.status == w.status && (v.status == Fail ==> Priority(w.cause.value) <= Priority(v.cause.value))
  {
    forall name | Revoked(events, name) ensures Revoked(more, name) {
      var e :| e in events && IsRevokeOf(e, name);
      assert e in more;
    }
    if Authorize(required, grants, events, now).status == Fail {
      ReportedCauseIsMinimal(required, grants, events, now);
      ReportedCauseIsMinimal(required, grants, more, now);
    }
  }

  /* ----- the program ----- */

  // The dictionary after one more event, as far as `name` is concerned.
  function Later(earlier: Option<int>, at: int, hit: bool): Option<int> {
    if !hit || (earlier.Some? && at <= earlier.value) then earlier else Some(at)
  }

  lemma RevokedOnStep(events: seq<PermissionEvent>, i: nat, name: string)
    requires i < |events|
    ensures RevokedOn(events[..i + 1], name)
            == Later(RevokedOn(events[..i], name), events[i].occurredAt, IsRevokeOf(events[i], name))
  {
    assert events[..i + 1][..i] == events[..i];
  }

  // The dictionary entry for `name` is a revocation of it, at the instant d.
  predicate Records(m: map<string, PermissionEvent>, name: string, d: Option<int>) {
    && (name in m <==> d.Some?)
    && (name in m ==> IsRevokeOf(m[name], name) && m[name].occurredAt == d.value)
  }

  // The nested loop of lines 117-124.
  method CollectRevocations(events: seq<PermissionEvent>) returns (m: map<string, PermissionEvent>)
    ensures forall name :: name in m <==> Revoked(events, name)
    ensures forall name :: name in m ==>
                IsRevokeOf(m[name], name) && RevokedOn(events, name) == Some(m[name].occurredAt)
    ensures forall name :: name in m ==> m[name] in events
  {
    m := map[];
    for i := 0 to |events|
      invariant forall name :: Records(m, name, RevokedOn(events[..i], name))
      invariant forall name :: name in m ==> m[name] in events
    {
      forall name ensures RevokedOn(events[..i + 1], name)
                       == Later(RevokedOn(events[..i], name), events[i].occurredAt, IsRevokeOf(events[i], name)) {
        RevokedOnStep(events, i, name);
      }
      if events[i].action in REVOKE_ACTIONS {
        m := RecordTargets(m, events[i], name => RevokedOn(events[..i], name));
      }
    }
    assert events[..|events|] == events;
    forall name ensures RevokedOn(events, name).Some? <==> Revoked(events, name) {
      RevokedOnIsLatest(events, name);
    }
  }

  method RecordTargets(m0: map<string, PermissionEvent>, e: PermissionEvent, ghost d: string -> Option<int>)
    returns (m: map<string, PermissionEvent>)
    requires e.action in REVOKE_ACTIONS && forall name :: Records(m0, name, d(name))
    ensures forall name :: Records(m, name, Later(d(name), e.occurredAt, IsRevokeOf(e, name)))
    ensures forall name :: name in m ==> m[name] == e || (name in m0 && m[name] == m0[name])
  {
    m := m0;
    for j := 0 to |e.targets|
      invariant forall name :: Records(m, name, Later(d(name), e.occurredAt, name in e.targets[..j]))
      invariant forall name :: name in m ==> m[name] == e || (name in m0 && m[name] == m0[name])
    {
      var name := e.targets[j];
      assert forall n :: n in e.targets[..j + 1] <==> n in e.targets[..j] || n == name;
      assert Records(m, name, Later(d(name), e.occurredAt, name in e.targets[..j]));
      if name !in m || e.occurredAt > m[name].occurredAt {
        m := m[name := e];
      }
    }
    assert e.targets[..|e.targets|] == e.targets;
  }

  // Lines 96-99: the set of held names and the dictionary of end dates.
  method SplitGrants(grants: seq<Grant>, now: int) returns (held: set<string>, ended: map<string, int>)
    ensures forall name :: name in held <==> Holds(grants, name, now)
    ensures forall name :: name in ended <==> HasExpired(grants, name, now)
    ensures forall name :: name in ended ==> ExpiredOn(grants, name, now) == Some(ended[name])
  {
    held, ended := {}, map[];
    for i := 0 to |grants|
      invariant forall name :: name in held <==> Holds(grants[..i], name, now)
      invariant forall name :: name in ended <==> ExpiredOn(grants[..i], name, now).Some?
      invariant forall name :: name in ended ==> ExpiredOn(grants[..i], name, now) == Some(ended[name])
    {
      var g := grants[i];
      assert grants[..i + 1][..i] == grants[..i];
      assert forall h :: h in grants[..i + 1] <==> h in grants[..i] || h == g;
      if g.endDate.None? || g.endDate.value > now {
        held := held + {g.name};
      }
      if g.endDate.Some? && g.endDate.value <= now {
        ended := ended[g.name := g.endDate.value];
      }
    }
    assert grants[..|grants|] == grants;
    forall name ensures ExpiredOn(grants, name, now).Some? <==> HasExpired(grants, name, now) {
      ExpiredOnIsAnEndDate(grants, name, now);
    }
  }

  method FindMissing(required: seq<string>, held: set<string>, ghost grants: seq<Grant>, ghost now: int)
    returns (missing: seq<string>)
    requires forall name :: name in held <==> Holds(grants, name, now)
    ensures missing == NotHeld(required, grants, now)
  {
    missing := [];
    for i := 0 to |required|
      invariant missing == NotHeld(required[..i], grants, now)
    {
      assert required[..i + 1][..i] == required[..i];
      if required[i] !in held {
        missing := missing + [required[i]];
      }
    }
    assert required[..|required|] == required;
  }

  method SyncAdvisoryNote(events: seq<PermissionEvent>) returns (latest: Option<PermissionEvent>)
    ensures latest == LatestSync(events)
  {
    latest := None;
    for i := 0 to |events|
      invariant latest == LatestSync(events[..i])
    {
      assert events[..i + 1][..i] == events[..i];
      var e := events[i];
      if e.action in SYNC_ADVISORY_ACTIONS && (latest.None? || e.occurredAt > latest.value.occurredAt) {
        latest := Some(e);
      }
    }
    assert events[..|events|] == events;
  }

  function ClassifyMissing(name: string, ended: map<string, int>, revoked: map<string, PermissionEvent>): string {
    if name in revoked then "access_revoked" else if name in ended then "access_expired" else "missing_role"
  }

  // Every lookup is defined: a name classified as revoked has an event, an expired one a date.
  function DescribeMissing(name: string, cause: string, ended: map<string, int>,
                           revoked: map<string, PermissionEvent>): MissingAccess
    requires cause == ClassifyMissing(name, ended, revoked)
  {
    MissingAccess(name, cause,
      if cause == "access_revoked" then Some(revoked[name].occurredAt)
      else if cause == "access_expired" then Some(ended[name])
      else None)
  }

  // Lines 94-148. `required` is not empty here: run() has answered that case before it asks
  // for the grants.
  method Run(required: seq<string>, grants: seq<Grant>, events: seq<PermissionEvent>, now: int) returns (v: Verdict)
    requires required != []
    ensures v == Authorize(required, grants, events, now)
    ensures v.status == if exists name :: Lacks(required, grants, now, name) then Fail else Pass
    ensures v.status == Fail ==> v.cause.Some? && CauseFits(required, grants, events, now, v.cause.value)
  {
    hide Lacks, CauseFits;
    VerdictMeans(required, grants, events, now);
    var held, ended := SplitGrants(grants, now);
    var missing := FindMissing(required, held, grants, now);
    var note := SyncAdvisoryNote(events);
    forall name ensures name in missing <==> name in required && !Holds(grants, name, now) {
      NotHeldMembers(required, grants, now, name);
    }
    if missing == [] {
      assert forall name :: name in required ==> Holds(grants, name, now);
      return Verdict(Authorization, Pass, None, if note.Some? then SyncNote(note.value) else NoDetail);
    }
    assert missing[0] in missing;
    var revoked := CollectRevocations(events);
    var cause := MostSpecificCause(missing, ended, revoked, grants, events, now);
    var descriptions := DescribeEach(missing, ended, revoked, grants, events, now);
    MinimalCauseIsReported(required, grants, events, now, missing, cause);
    v := Verdict(Authorization, Fail, Some(cause), Missing(descriptions, note));
  }

  // The two dictionaries hold what the lists of grants and events say about every name.
  ghost predicate Tables(ended: map<string, int>, revoked: map<string, PermissionEvent>,
                         grants: seq<Grant>, events: seq<PermissionEvent>, now: int) {
    && (forall name :: name in ended <==> HasExpired(grants, name, now))
    && (forall name :: name in ended ==> ExpiredOn(grants, name, now) == Some(ended[name]))
    && (forall name :: name in revoked <==> Revoked(events, name))
    && (forall name :: name in revoked ==> RevokedOn(events, name) == Some(revoked[name].occurredAt))
  }

  lemma ClassifyIsCause(name: string, ended: map<string, int>, revoked: map<string, PermissionEvent>,
                        grants: seq<Grant>, events: seq<PermissionEvent>, now: int)
    requires Tables(ended, revoked, grants, events, now)
    ensures ClassifyMissing(name, ended, revoked) == CauseOf(name, grants, events, now)
  {}

  // Lines 126-130: classify every missing name and keep the most specific cause.
  method MostSpecificCause(missing: seq<string>, ended: map<string, int>, revoked: map<string, PermissionEvent>,
                           ghost grants: seq<Grant>, ghost events: seq<PermissionEvent>, ghost now: int)
    returns (cause: string)
    requires missing != [] && Tables(ended, revoked, grants, events, now)
    ensures exists name :: name in missing && cause == CauseOf(name, grants, events, now)
    ensures forall name :: name in missing ==> Priority(cause) <= Priority(CauseOf(name, grants, events, now))
  {
    hide ClassifyMissing, CauseOf, Priority, Tables;
    cause := ClassifyMissing(missing[0], ended, revoked);
    ClassifyIsCause(missing[0], ended, revoked, grants, events, now);
    ghost var witness' := missing[0];
    for i := 0 to |missing|
      invariant witness' in missing && cause == CauseOf(witness', grants, events, now)
      invariant forall k :: 0 <= k < i ==> Priority(cause) <= Priority(CauseOf(missing[k], grants, events, now))
    {
      var c := ClassifyMissing(missing[i], ended, revoked);
      ClassifyIsCause(missing[i], ended, revoked, grants, events, now);
      if Priority(c) < Priority(cause) {
        cause, witness' := c, missing[i];
      }
    }
  }

  // Lines 132-135.
  method DescribeEach(missing: seq<string>, ended: map<string, int>, revoked: map<string, PermissionEvent>,
                      ghost grants: seq<Grant>, ghost events: seq<PermissionEvent>, ghost now: int)
    returns (descriptions: seq<MissingAccess>)
    requires Tables(ended, revoked, grants, events, now)
    ensures descriptions == DescribeAll(missing, grants, events, now)
  {
    descriptions := [];
    for i := 0 to |missing|
      invariant |descriptions| == i
      invariant forall k :: 0 <= k < i ==> descriptions[k] == Describe(missing[k], grants, events, now)
    {
      var c := ClassifyMissing(missing[i], ended, revoked);
      descriptions := descriptions + [DescribeMissing(missing[i], c, ended, revoked)];
    }
  }

  lemma MinimalCauseIsReported(required: seq<string>, grants: seq<Grant>, events: seq<PermissionEvent>, now: int,
                               missing: seq<string>, cause: string)
    requires forall name :: name in missing <==> name in required && !Holds(grants, name, now)
    requires exists name :: name in missing && cause == CauseOf(name, grants, events, now)
    requires forall name :: name in missing ==> Priority(cause) <= Priority(CauseOf(name, grants, events, now))
    ensures cause == ReportedCause(required, grants, events, now)
  {
    ReportedCauseIsMinimal(required, grants, events, now);
  }
}
