# Verified model of the access-diagnosis agent

A user who cannot reach a system files a complaint. The service resolves the login, walks a
fixed funnel of diagnostic steps against OpenIAM, stores the request, the run and an audit
trail, and answers with a templated message that may carry a password-reset link or a case
reference. Behind every OpenIAM call stands a token cache shared by coroutines and processes.
This project models that behaviour in Dafny and proves what it keeps over every input, run,
schedule and history. `dafny verify dfyconfig.toml` checks all of it.

| part | files |
|---|---|
| token cache, as a concurrent protocol | `TokenProtocol` (the transition system), `TokenInvariant`, `TokenSafety`, `TokenSoundness`, `TokenPairing`, `TokenExactness`, `TokenRuns` and `TokenLimits` (tightness and counterexamples), `TokenClient` (the object, segment by segment and call by call) |
| funnel and decisions | `Verdicts`, `Step4Authorization`, `OpenIamConnector`, `Funnel`, `VerdictMessages`, `ResetUrl`, `ResetUrlPostback` |
| store | `Ledger` (session, commit, the API calls), `LedgerHistory` (all histories of calls) |
| remediation, connectors | `Remediation`, `ConnectorRegistry` |

## How the token cache is modelled

Coroutines switch only at an `await`, so one step of `TokenProtocol.Next` is one await-free
segment of `get_access_token`, or the instant at which Redis or OpenIAM acts on a request. A
schedule is any sequence of steps: any coroutine of any process, clock ticks, failures at any
await, restarts of a process, cookies set by unrelated replies. `TokenClient` has the class with
its fields; each method is one segment and its contract says that the fields it leaves are those
of the protocol after the step of that name, so the theorems about schedules hold of the object.

Headline results: no schedule whose delays fit in the refresh margin ever returns a token past
its real expiry (`TokenSoundness.NoExpiredTokenIsEverReturned`), and for every set of bounds that
does not fit some schedule keeping to them does (`TokenLimits.BoundsAreExact`). How much of the
margin each kind of return needs is stated exactly: for returns that pass a freshness test in the
process that logged in (`TokenLimits.MarginIsExact`) or in one that adopts from Redis
(`TokenLimits.ReaderMarginIsExact`), and for the one return that passes none
(`TokenLimits.OwnReturnIsExact`).

Hypotheses, all stated in the lemmas that need them or built into the model:

- one clock, in milliseconds, that Redis and the monotonic clock of every process read alike;
  Redis keeps expiries in milliseconds and its TTL reply is rounded to the nearest second;
- a SET that raised has either taken effect before the exception or never does;
- generated correlation ids do not repeat; the database itself refuses a repeated key;
- a commit is atomic; an escalation may have read the store at any earlier point of the commit
  order, as calls overlap;
- policies are keyed by their own system id and never change while the process runs.

## Where the code and its documentation differ

The model follows the code.

- `token_client.py:124-125` says that what is cached is exactly the login's cookies. A reply to
  another request of the same client that arrives while a login is under way puts its cookie
  there too (`TokenLimits.StrayReplyEntersTheCache`); `TokenExactness.CachedCookieIsTheLastSet`
  says exactly which cookies are cached.
- The GET at `token_client.py:107` and the TTL at line 110 are not one atomic read. A SET in
  between makes a reader keep the old token for as long as the new one lives
  (`TokenLimits.RacedReadServesExpiredToken`); `TokenExactness.ReadIsPairedIff` says exactly when
  the two replies belong together.
- The two SETs at `token_client.py:143-144` are not one atomic write. A failure between them
  leaves a token without cookies, two overlapping writers a token with another login's cookies
  (`TokenLimits.AbandonedGapLosesCookies`, `TokenLimits.OverlappingWritersMixSessions`);
  `TokenExactness.PairIsIntactIff` says exactly when the pair is whole.
- The call that logged in returns its token at `token_client.py:96-98` without looking at the
  clock again. If its two SETs take longer than what is left of the lifetime, that token has
  expired, whatever the margin; `TokenLimits.OwnReturnIsExact` says exactly when.
- `max(ttl - margin, 1)` keeps a token for one second even if its lifetime is shorter than the
  margin; `TokenLimits.MarginIsExact` covers this branch too.
- `connector.py:280-282` says that no reply at all counts as down; the code treats it as
  indeterminate, as the docstring of `_check_managed_system` says.
- `verdict_messages.py:183-184` names locked accounts among those offered a reset link; only an
  expired password is.
- The default URL template encodes the login once, also where it stands inside the postback URL.
  There it reads back only for logins without `&`, `#`, `+` and escapes
  (`ResetUrlPostback.InnerLoginReadsBackIff`).
- The deprovisioning check counts a grant as ended strictly before now, step 4 at or before now;
  `OpenIamConnector.DisagreeOnlyAtTheBoundary` says exactly when the two disagree.
- `README.md:34-36` of the repository says that an expired password cannot be detected yet;
  `get_user_status` does detect it, from the login entries.
- `executor.py:17-21` promises rollback data and an audit record; the code writes neither.
- A playbook that ran to its end leaves its action pending if the status write at
  `executor.py:75` fails; `Remediation.RemediationService.Execute` says exactly when an action
  becomes executed.
- `state_machine.py:78-82` speaks of step timeouts; none is applied.

## Model

| member | source | states |
|---|---|---|
| TokenInvariant.ReachableInv | app/connectors/openiam/token_client.py:79-144 | in every state of every schedule of any number of coroutines and processes: a coroutine holds the lock exactly while inside it, the cached token and expiry are those of one login or one read, and every Redis entry was written by a login with that login's effective lifetime |
| TokenInvariant.NextInv | app/connectors/openiam/token_client.py:79-144 | every segment, tick, failure, restart and stray reply keeps that invariant |
| TokenSafety.ReturnedAge | app/connectors/openiam/token_client.py:79-138 | a token that passed a freshness test is younger than its effective lifetime plus the issue delay, one write delay and one read delay with TTL rounding, and one that passed none comes from its own login; the slack never adds up over readers and restarts |
| TokenSafety.NeverServedExpired | app/connectors/openiam/token_client.py:79-138 | with an honest lifetime above the margin and these delays within the margin, or for the untested return everything within the lifetime, a returned token is not past its real expiry |
| TokenSoundness.NoExpiredTokenIsEverReturned | app/connectors/openiam/token_client.py:79-144 | the same over whole schedules: if every step keeps the delay bounds and no SET splits a read, every token any call in any process has returned was good when it was returned |
| TokenSoundness.RunTimely | app/connectors/openiam/token_client.py:79-144 | the delay bounds on single steps give bounds on every token held, read, written or returned in every later state |
| TokenLimits.MarginIsExact | app/connectors/openiam/token_client.py:134-138 | in the process that logged in, a return that passed a freshness test can hand out an expired token if and only if issue delay plus effective lifetime exceed the stated lifetime, the one-second floor included |
| TokenLimits.OwnReturnIsExact | app/connectors/openiam/token_client.py:96-98 | the call that logged in, which returns without a freshness test, can hand out an expired token if and only if the delay from issue to caching plus that from caching to return reach the stated lifetime, whatever the margin |
| TokenLimits.BoundsAreExact | app/connectors/openiam/token_client.py:79-144 | for any bounds on the four delays and any margin: some schedule that keeps to the bounds returns a token past its expiry if and only if the bounds are not within the margin, so the soundness theorem has no hypothesis too many |
| TokenLimits.ReaderMarginIsExact | app/connectors/openiam/token_client.py:89-94 | a process that adopts from Redis can serve an expired token if and only if issue, write and read delay, half a second of rounding and the effective lifetime together exceed the stated lifetime |
| TokenLimits.RacedReadServesExpiredToken | app/connectors/openiam/token_client.py:107-114 | a run with zero delays and honest lifetimes in which a SET between GET and TTL makes a reader serve a token 41 s past its expiry |
| TokenExactness.ReadIsPairedIff | app/connectors/openiam/token_client.py:107-112 | value and time to live come from the same SET if and only if no SET of the token key took effect between the two requests |
| TokenExactness.EntryStaysIff | app/connectors/openiam/token_client.py:142-143 | the token key holds the same entry at two instants if and only if nobody wrote it in between: no login is ever published twice |
| TokenSafety.MutualExclusion | app/connectors/openiam/token_client.py:83 | two coroutines of one process are never both inside the lock |
| TokenSafety.OnlyHolderWrites | app/connectors/openiam/token_client.py:91-93 | short of a restart the token and expiry change only by the lock holder, together, from one refresh, at that instant |
| TokenSafety.FinishReturnsOwnToken | app/connectors/openiam/token_client.py:96-98 | the assertion never fails: the coroutine that logged in returns the token of its own login |
| TokenSafety.LoginOnlyAfterMiss | app/connectors/openiam/token_client.py:89-96 | a login starts only under the lock, by a coroutine whose last answer about the token key was unusable |
| TokenSafety.MissBehindLogin | app/connectors/openiam/token_client.py:89-96 | before every login, at a definite step of the schedule, the same coroutine asked Redis when it held no live token or one with less than half a second left, and has not left the lock since |
| TokenSafety.SingleFlight | app/connectors/openiam/token_client.py:79-98 | between two logins started by one process the first failed, the process restarted, or the clock reached the expiry the first one stored; and after that, before the second, Redis had nothing usable |
| TokenSafety.QueuedCallersShareRefresh | app/connectors/openiam/token_client.py:83-87 | whoever queued behind a successful refresh, or calls before its expiry, starts no login and returns that very token |
| TokenSafety.ServingUntil | app/connectors/openiam/token_client.py:79-98 | once cached, a token stays the one served until its stored expiry unless the process restarts |
| TokenPairing.LiveTokenHasItsCookies | app/connectors/openiam/token_client.py:142-144 | with one writer at a time and no failure between the SETs, outside the gap a live token key means a live cookie key of the same login that expires no earlier |
| TokenExactness.PairIsIntactIff | app/connectors/openiam/token_client.py:142-144 | for any schedule, whoever else writes or fails: after the last SET of the token key its login's cookies are beside it if and only if its writer made the last SET of the cookie key since |
| TokenLimits.OverlappingWritersMixSessions | app/connectors/openiam/token_client.py:142-144 | two processes writing at once can leave a live token of one login with live cookies of the other |
| TokenLimits.AbandonedGapLosesCookies | app/connectors/openiam/token_client.py:142-144 | one failure between the SETs can leave a live token with no cookie key |
| TokenPairing.CachedCookiesAreTheLogins | app/connectors/openiam/token_client.py:123-144 | if no unrelated reply sets a cookie during a login, the cookie key and every jar of a running login hold only cookies of that login |
| TokenExactness.CachedCookieIsTheLastSet | app/connectors/openiam/token_client.py:124-140 | a cookie is cached with a login if and only if one was set since the jar was cleared, and as it was set last, by the login's own replies or by another reply to the same client |
| TokenLimits.StrayReplyEntersTheCache | app/connectors/openiam/token_client.py:124-140 | a run in which an unrelated reply's cookie is cached as the login's |
| TokenPairing.AdoptionRestoresSession | app/connectors/openiam/token_client.py:106-121 | whatever happens between reading the cookies and adopting the token, the adopter returns that token with every cookie of the login behind it in its jar |
| TokenPairing.AdopterGetsTheTokensCookies | app/connectors/openiam/token_client.py:106-121 | a process that adopts a token still in Redis, outside the gap, restores the cookies of the login that minted it and nothing else |
| TokenClient.OpenIAMTokenClient.constructor | app/connectors/openiam/token_client.py:57-77 | a new object is a new client of the protocol |
| TokenClient.OpenIAMTokenClient.FastPath | app/connectors/openiam/token_client.py:80-81 | refines the lock-free check |
| TokenClient.OpenIAMTokenClient.Recheck | app/connectors/openiam/token_client.py:83-87 | refines taking the lock and checking again |
| TokenClient.OpenIAMTokenClient.ReadToken | app/connectors/openiam/token_client.py:107-109 | refines the GET |
| TokenClient.OpenIAMTokenClient.ReadTtl | app/connectors/openiam/token_client.py:110-112 | refines the TTL request and its test |
| TokenClient.OpenIAMTokenClient.ReadCookies | app/connectors/openiam/token_client.py:116-119 | refines the GET of the cookies |
| TokenClient.OpenIAMTokenClient.AdoptCached | app/connectors/openiam/token_client.py:91-94 | refines restoring the cookies, storing token and expiry, and leaving the lock |
| TokenClient.OpenIAMTokenClient.ClearJar | app/connectors/openiam/token_client.py:126 | refines the start of a login |
| TokenClient.OpenIAMTokenClient.ReceiveLogin | app/connectors/openiam/token_client.py:128 | refines the reply to the login request |
| TokenClient.OpenIAMTokenClient.ReceiveToken | app/connectors/openiam/token_client.py:129-132 | refines a redirect that states no lifetime |
| TokenClient.OpenIAMTokenClient.CacheToken | app/connectors/openiam/token_client.py:134-140 | refines computing the effective lifetime, storing token and expiry, and taking stock of the jar |
| TokenClient.OpenIAMTokenClient.StoreToken | app/connectors/openiam/token_client.py:143 | refines the first SET |
| TokenClient.OpenIAMTokenClient.StoreCookies | app/connectors/openiam/token_client.py:144 | refines the second SET, with the same effective lifetime |
| TokenClient.OpenIAMTokenClient.Leave | app/connectors/openiam/token_client.py:97-98 | refines leaving the lock with the cached token |
| TokenClient.OpenIAMTokenClient.Abandon | app/connectors/openiam/token_client.py:83 | refines an exception inside the lock: the lock is released |
| TokenClient.OpenIAMTokenClient.GetAccessToken | app/connectors/openiam/token_client.py:79-98 | a whole call, from the fields, the keys and the world's replies alone, whatever others do while it waits for the lock: a fresh token is returned and nothing touched; else, under the lock, a token found fresh by then; else the token live in Redis with its remaining seconds, and no login; else a login, which succeeds iff every await it reaches is answered and both SETs are stored, returns the token it minted and leaves that login in both keys; it raises iff an await it reaches raises; the lock is not kept; fields, keys and result are those of some schedule of the protocol, so from a reachable state the token is young enough |
| TokenClient.OpenIAMTokenClient.Granted | app/connectors/openiam/token_client.py:83-98 | the same from the moment the lock is granted |
| TokenClient.OpenIAMTokenClient.RefreshUnderLock | app/connectors/openiam/token_client.py:89-98 | the same when nothing fresh is cached: what Redis has, or a login |
| TokenClient.OpenIAMTokenClient.AloneArrives | app/connectors/openiam/token_client.py:80-87 | a call that finds the lock free and is not disturbed is one of these calls: it finds what it left |
| TokenClient.OpenIAMTokenClient.ReadCachedToken | app/connectors/openiam/token_client.py:100-114 | found, nothing usable or exception, decided by the key and the three replies; the token and the time to live are of one SET, and what is found is kept for the seconds Redis said it had left; otherwise the fields stay as they were |
| TokenClient.OpenIAMTokenClient.RestoreAndAdopt | app/connectors/openiam/token_client.py:116-121 | the same from the cookies on |
| TokenClient.OpenIAMTokenClient.LoginAndAuthorize | app/connectors/openiam/token_client.py:123-144 | one login: its result, fields and keys by the replies it met, the lifetime being that of the redirect, else the introspected one, else 300 seconds; a schedule of the protocol from an empty jar |
| TokenClient.OpenIAMTokenClient.Authorize | app/connectors/openiam/token_client.py:128-129 | the same from the login reply to the redirect, with the token minted in between |
| TokenClient.OpenIAMTokenClient.Obtain | app/connectors/openiam/token_client.py:129-140 | the same from the redirect on, with the lifetime it states |
| TokenClient.OpenIAMTokenClient.Introspect | app/connectors/openiam/token_client.py:131-140 | the same with the introspected lifetime or the fallback, after one more round trip |
| TokenClient.OpenIAMTokenClient.CacheAndPublish | app/connectors/openiam/token_client.py:134-144 | the token is cached for its lifetime less the margin, a second at least, and is then published |
| TokenClient.OpenIAMTokenClient.Publish | app/connectors/openiam/token_client.py:142-143 | the first SET, which may be lost, or take effect and then raise: what both keys hold after, and that the token stays cached in this process |
| TokenClient.OpenIAMTokenClient.PublishCookies | app/connectors/openiam/token_client.py:144 | the same for the second SET |
| Step4Authorization.Run | app/orchestrator/steps/step4_authorization.py:94-148 | the loops, sets and dictionaries compute the verdict: FAIL iff for some required name every grant there is has ended; then the cause is access_revoked iff some such name is targeted by a removal, else access_expired iff some such name has an ended grant, else missing_role; every lookup and the minimum are defined |
| Step4Authorization.VerdictMeans | app/orchestrator/steps/step4_authorization.py:95-130 | the same of the set-level verdict the lemmas below are about |
| Step4Authorization.DetailMeans | app/orchestrator/steps/step4_authorization.py:44-55 | the detail names exactly the lacking names, each with its own cause and the date of its last removal or of an ended grant |
| Step4Authorization.NoteIsLatestSync | app/orchestrator/steps/step4_authorization.py:58-66 | there is a note iff there is a provisioning event of the nine kinds, and it is about the first of greatest instant |
| Step4Authorization.NoteIsAdvisory | app/orchestrator/steps/step4_authorization.py:58-66 | the note is appended to the detail and is all of it on a PASS |
| Step4Authorization.CollectRevocations | app/orchestrator/steps/step4_authorization.py:117-124 | the dictionary has a name iff some revoke event targets it, and holds an event of the list that is a latest such one |
| Step4Authorization.SplitGrants | app/orchestrator/steps/step4_authorization.py:96-99 | held names are those with a current grant; the end-date dictionary has exactly the names with an ended grant, with the last listed such date |
| Step4Authorization.FindMissing | app/orchestrator/steps/step4_authorization.py:101 | the required names not held, in order and with repetitions |
| Step4Authorization.MostSpecificCause | app/orchestrator/steps/step4_authorization.py:126-130 | the cause is that of some missing name and at least as specific as every other |
| Step4Authorization.DescribeEach | app/orchestrator/steps/step4_authorization.py:132-135 | each missing name is described by its own cause and date |
| Step4Authorization.SyncAdvisoryNote | app/orchestrator/steps/step4_authorization.py:58-66 | the note is about the first sync event of greatest instant, if there is one |
| Step4Authorization.NotHeldMembers | app/orchestrator/steps/step4_authorization.py:101 | a name is listed as missing iff it is required and has no current grant |
| Step4Authorization.RevokedOnIsLatest | app/orchestrator/steps/step4_authorization.py:117-124 | a revocation date is given iff some revoke event targets the name, and it is the greatest such date |
| Step4Authorization.ExpiredOnIsAnEndDate | app/orchestrator/steps/step4_authorization.py:97-99 | an expiry date is given iff some grant of the name has ended, and it is the end date of one, not after now |
| Step4Authorization.ReportedCauseIsMinimal | app/orchestrator/steps/step4_authorization.py:126-130 | access_revoked, access_expired, missing_role in this order of preference is the minimum over the missing names |
| Step4Authorization.MissingNameIsStable | app/orchestrator/steps/step4_authorization.py:96-99 | a missing name stays missing as time passes, with the same cause and date |
| Step4Authorization.TimeNeverRestoresAccess | app/orchestrator/steps/step4_authorization.py:95-130 | moving now forward never turns FAIL into PASS and never makes the cause less specific |
| Step4Authorization.OnlyRevokeEventsMatter | app/orchestrator/steps/step4_authorization.py:103-139 | status, cause and every date depend only on the set of revoke events, not on order, repetition or any other event |
| Step4Authorization.PermutedEventsSameVerdict | app/orchestrator/steps/step4_authorization.py:103-139 | permuting the audit events changes neither status, cause nor dates |
| Step4Authorization.MoreRevocationsSharpenTheCause | app/orchestrator/steps/step4_authorization.py:117-130 | further revoke events never change the status and never make the cause less specific |
| OpenIamConnector.ExpiredPasswordLogins | app/connectors/openiam/connector.py:73-87 | the loop lists the expired logins in order |
| OpenIamConnector.ExpiredLoginsMembers | app/connectors/openiam/connector.py:73-87 | the list names a login and date iff some entry has that system name and an expiry that is past |
| OpenIamConnector.SelectsFirstOpenIam | app/connectors/openiam/connector.py:120-128 | the login selected is that of the first OPENIAM entry, even when it is absent there |
| OpenIamConnector.GetUserStatus | app/connectors/openiam/connector.py:351-403 | from the reply alone: not found iff refused; else locked iff the secondary status is LOCKED or LOCKED_ADMIN; else deprovisioned iff a login is deleted or inactive or a non-empty list of roles and groups has all ended by the later clock reading; else disabled iff the status is not ACTIVE; else password expired iff some password has expired by the earlier reading; else active |
| OpenIamConnector.ExpiredDetailMeans | app/connectors/openiam/connector.py:73-91 | the detail of an expired password names exactly the logins concerned, with their dates |
| OpenIamConnector.StepTwoMeans | app/orchestrator/steps/step2_account_status.py:8-24 | over the OpenIAM connector, step 2 passes exactly an active account in this sense, and fails any other with the name of its state |
| OpenIamConnector.LinkComesWithExpiredPassword | app/connectors/openiam/connector.py:362-403 | an expired password comes with this link iff the lookup succeeded, the account is not locked, not deprovisioned and ACTIVE, an OPENIAM login's password has expired, and the first OPENIAM login is non-empty and is the one the link is built from |
| OpenIamConnector.EndedMeansNothingHeld | app/connectors/openiam/connector.py:62-70 | if the status check counts all of a user's grants as ended at t, the user is deprovisioned then and step 4, given the same user, sees no held name from t on |
| OpenIamConnector.NothingHeldMeansEnded | app/connectors/openiam/connector.py:62-70 | if step 4 sees none of a user's grants held at t, the status check counts the user as deprovisioned at every later instant |
| OpenIamConnector.DisagreeOnlyAtTheBoundary | app/connectors/openiam/connector.py:67-70 | at one instant the two disagree about a user iff all grants have ended by it and one ends exactly at it |
| OpenIamConnector.GetRequiredPermissions | app/connectors/openiam/connector.py:464-475 | the loop returns the roles of the first mapping of the resource, nothing iff there is none, and that determines the answer |
| OpenIamConnector.EndedAccessPassesOnlyUnasked | app/connectors/openiam/connector.py:429-475 | step 4 passes a user whose grants have all ended, or who cannot be looked up, iff the policy requires nothing for the resource |
| OpenIamConnector.LatestReply | app/connectors/openiam/connector.py:175-195 | none iff there are no replies; otherwise the first reply of greatest parsed date, or the last reply when no date parses |
| OpenIamConnector.LatestTestIsUnique | app/connectors/openiam/connector.py:193-195 | that description determines the reply's date and status |
| OpenIamConnector.CheckManagedSystem | app/connectors/openiam/connector.py:327-349 | a system is reported down iff the lookup succeeded, a first bean has replies, and its selected reply is not Ok; everything else is indeterminate or up |
| OpenIamConnector.CheckAvailability | app/connectors/openiam/connector.py:274-325 | DEGRADED iff the user lookup is refused; otherwise DOWN iff some system the user has a login on is confirmed down, else UP, in whatever order the set is visited and whatever is indeterminate; raises iff the lookup or one about such a system raises |
| Funnel.Run | app/orchestrator/state_machine.py:84-93 | the loop always returns the result of walking the given steps over the context's request and connector, for any list of steps, and leaves its verdicts on the context |
| Funnel.RunStepFailClosed | app/orchestrator/state_machine.py:95-115 | the verdict of the step, or INCONCLUSIVE with step_error if it raised; the link on the context survives an exception in a later step |
| Funnel.RunAccountStatus | app/orchestrator/steps/step2_account_status.py:8-24 | PASS iff active, else FAIL with the state's code; records the connector's link, present or not, on the context |
| Funnel.RunAuthorization | app/orchestrator/steps/step4_authorization.py:85-105 | nothing required passes without asking further; otherwise any reply that raises raises |
| Funnel.LatestLoginIsLatest | app/orchestrator/steps/step3_auth_events.py:24 | the deciding event is the first of greatest timestamp |
| Funnel.LoginStepFailsIff | app/orchestrator/steps/step3_auth_events.py:14-34 | step 3 fails iff that event exists and is a failure |
| Funnel.FunnelShape | app/orchestrator/state_machine.py:84-93 | the verdicts are a non-empty prefix of the step order, one per step; all but the last are PASS; a shorter run ends in something else |
| Funnel.ReachesStep | app/orchestrator/state_machine.py:84-93 | step k is run iff every step before it passes |
| Funnel.AvailabilityMeans | app/orchestrator/steps/step1_system_availability.py:8-24 | step 1 by the connector's reply: inconclusive iff it raised, PASS iff up, else system_down or system_degraded |
| Funnel.AccountStatusMeans | app/orchestrator/steps/step2_account_status.py:8-24 | step 2 by the connector's reply: inconclusive iff it raised, PASS iff active, else the name of the state, with the connector's detail |
| Funnel.AuthEventsMeans | app/orchestrator/steps/step3_auth_events.py:8-34 | step 3 by the connector's reply: inconclusive iff it raised, PASS iff there was no attempt or the first of the latest succeeded, else that attempt's reason, or auth_failed if it has none |
| Funnel.AuthorizationMeans | app/orchestrator/steps/step4_authorization.py:83-148 | step 4 by the connector's replies: inconclusive iff the requirement raised, or with a non-empty one the grants or the audit events did; otherwise FAIL iff a required name is lacking, with the cause that fits |
| Funnel.RunMeans | app/orchestrator/state_machine.py:26-138 | a run asks about system, account, logins and access, in this order, and stops at the first that is not fine; it is inconclusive iff a reply consulted by the step it stops at raised, and then that verdict is step_error and the run escalates; it passes iff all four are fine |
| Funnel.ExceptionEscalates | app/orchestrator/state_machine.py:95-138 | for any list of steps, an exception in a step that is reached is the last verdict, INCONCLUSIVE, and the run escalates without a link |
| Funnel.AllClearEscalates | app/orchestrator/state_machine.py:124-128 | a run in which every step passes escalates |
| Funnel.RunIgnoresDraft | app/orchestrator/state_machine.py:84-93 | two requests about the same subject and system give the same run, verdict by verdict, whatever category and summary the language model put into them |
| Funnel.EscalatedIffNeedsHuman | app/orchestrator/state_machine.py:117-149 | for any cause string: escalated iff the outcome is ESCALATION iff the last verdict is one of those a human has to take; SELF_SERVICE_FIX iff the user can fix it; REMEDIATION_PENDING never |
| Funnel.ResultLink | app/orchestrator/state_machine.py:130-138 | the result carries a link iff step 1 passed and the connector reported an expired password with that link |
| VerdictMessages.FormatSucceeds | app/orchestrator/verdict_messages.py:130-137 | formatting fails iff a hole has no value, and otherwise fills each hole with its own value |
| VerdictMessages.EveryHoleIsSupplied | app/orchestrator/verdict_messages.py:110-137 | a message exists for every result, whatever its verdicts and causes |
| VerdictMessages.MessageSays | app/orchestrator/verdict_messages.py:8-137 | which wording is chosen for every status, step and cause, known or not |
| VerdictMessages.DetailShownIff | app/orchestrator/verdict_messages.py:75-107 | the detail is shown for an expired password and for nothing else |
| VerdictMessages.FailTemplateAgreesWithOutcome | app/orchestrator/verdict_messages.py:30-107 | for every step and any cause string the FAIL template has a reference iff the outcome table says ESCALATION |
| VerdictMessages.ReferenceIffEscalated | app/orchestrator/verdict_messages.py:110-137 | the message of every run contains its case reference iff the run is escalated |
| VerdictMessages.EscalationAlwaysReferences | app/orchestrator/verdict_messages.py:144-205 | every escalation message exists and contains the reference |
| VerdictMessages.EscalationSays | app/orchestrator/verdict_messages.py:144-195 | which wording is chosen for every step the diagnosis stopped at, or none |
| VerdictMessages.ResultCarriesLinkIff | app/orchestrator/state_machine.py:130-138 | with the OpenIAM connector the result carries this link iff step 1 passed and all the conditions of the status check for a helpful reset hold |
| VerdictMessages.MessagesShowLinkIff | app/orchestrator/verdict_messages.py:129-135 | the message and any later escalation message show this link iff the same conditions hold |
| ResetUrl.UnquoteQuote | app/connectors/openiam/connector.py:136 | decoding undoes encoding for every sequence of bytes |
| ResetUrl.QuoteIsClean | app/connectors/openiam/connector.py:136 | the encoding consists of unreserved characters and %XX triples (sections 2.1 and 2.3 of RFC 3986) |
| ResetUrl.QuoteByteMeans | app/connectors/openiam/connector.py:136 | a byte is left as it is iff it is a letter, a digit or one of the four marks |
| ResetUrl.DefaultTemplateIsPlain | app/core/config.py:84-88 | the default template has the shape the round trip asks for |
| ResetUrl.AddressOfResetUrl | app/connectors/openiam/connector.py:131-139 | before its query the link is the base URL without the slashes at its end, all of them, then the template's path |
| ResetUrl.QueryOfResetUrl | app/connectors/openiam/connector.py:131-139 | the query of the link is what the template puts there, for any login and any base URL without a query or fragment |
| ResetUrl.LoginReadsBack | app/connectors/openiam/connector.py:131-139 | the login parameter of the link decodes to the login, for every login |
| ResetUrlPostback.NestedPathIsEncoded | app/core/config.py:87 | the postback constant is the encoding of the form's address up to its login parameter |
| ResetUrlPostback.UnquoteFixed | app/core/config.py:87 | decoding an already decoded login changes nothing iff it has no plus sign and nothing that looks like an escape |
| ResetUrlPostback.InnerLoginReadsBackIff | app/core/config.py:87 | the copy of the login inside the postback URL reads back iff it has no ampersand, hash, plus sign or escape |
| Ledger.Session.CreateRequest | app/repositories/diagnostic_repository.py:16-19 | the row is pending iff the flush succeeds and the key is new to what the session sees |
| Ledger.Session.CreateRun | app/repositories/diagnostic_repository.py:24-27 | the row is pending iff the flush succeeds and its request exists |
| Ledger.Session.AppendEvent | app/repositories/audit_repository.py:16-19 | the log grows by this event at its end, or not at all |
| Ledger.Session.Commit | app/db/session.py:26-32 | all pending rows become visible, or none |
| Ledger.Session.Rollback | app/db/session.py:29-32 | pending rows are gone |
| Ledger.Submit | app/services/intake_service.py:41-93 | on success subject and requester are what the system's connector resolved the login to, and every other field is the one supplied; succeeds exactly under these replies, else raises this error; the LLM is called once iff the login resolved at a registered system |
| Ledger.RunDiagnostic | app/services/diagnostic_service.py:38-113 | one run row and one or two events, of the funnel's own result over the request rebuilt from the stored row, draft included; exactly when it raises, and what |
| Ledger.SubmitIntake | app/api/intake.py:37-59 | for every input the answer and the tables: on success one request of the resolved user, one run of the four steps over that system's connector and that user, and the events of both are appended, all in that user's name, and the answer is that run with its message; otherwise this error and the store as before; with the kill switch on, nothing at all |
| Ledger.EscalateRequest | app/services/diagnostic_service.py:115-164 | one event, with requester, note, last step and bundle of the latest stored run, and one message, from the same run |
| Ledger.LatestRunIsLatest | app/services/diagnostic_service.py:126-127 | the run consulted is one of the request's, none iff there are none, and no other started later |
| Ledger.EscalateIntake | app/api/intake.py:62-75 | exactly when the call succeeds; then one event is committed; otherwise the store is as before |
| Ledger.DraftsDoNotInterfere | app/services/intake_service.py:52-79 | for any two drafts the parser could return, two calls of SubmitIntake give the same answer: error, or ids, verdicts, outcome, link and message, although the steps are handed category and summary |
| Ledger.DraftsLeaveSameTables | app/services/intake_service.py:71-91 | and they leave the same tables (subject, system, run, events), up to the stored draft and the category of the first event |
| LedgerHistory.LedgerInvariant | app/services/diagnostic_service.py:73-157 | after any history of committed calls, with overlapping escalations: every request has exactly one run, its events are received, completed, one escalation iff that run escalated, one per user escalation, in this order; no row belongs to anything else |
| LedgerHistory.RecordOfARequest | app/services/diagnostic_service.py:73-157 | the same as plain kinds and counts, with the run row storing the result the caller was given |
| LedgerHistory.StoreOnlyGrows | app/repositories/audit_repository.py:8-19 | each earlier store is a prefix of each later one, table by table |
| LedgerHistory.EscalationReadsTheRun | app/services/diagnostic_service.py:122-145 | whatever earlier store an escalation read, its event is made of the one run the request has |
| LedgerHistory.EscalationAnswersFromTheResult | app/services/diagnostic_service.py:126-162 | at any later time an escalation answers from the last step, cause and link of the result the user was given |
| LedgerHistory.LinkIsTheSameEverywhere | app/services/diagnostic_service.py:75-162 | after any history: the answer to the intake, its stored run and the answer to an escalation carry this link iff step 1 passed and a reset is what helps the user OpenIAM described |
| LedgerHistory.Service.Intake | app/api/intake.py:37-59 | over any sequence of calls: an intake that succeeds extends the history by itself, one that raises leaves it, the ledger invariant holds after, and the answer shows a link iff a reset helps |
| LedgerHistory.Service.Escalate | app/api/intake.py:62-75 | the same for escalations, exactly when they succeed; the answer shows a link iff the intake's did |
| Remediation.RemediationService.RequestRemediation | app/services/remediation_service.py:20-29 | a pending action under a new key, which is returned, or nothing |
| Remediation.RemediationService.Execute | app/services/remediation_service.py:31-50 | succeeds iff the action exists, every gate is open, neither credential nor playbook raises and the status is stored; then it returns what the playbook returned and this action alone becomes executed; over the whole life of the service an action is executed iff the playbook of some execution of it returned and the status was stored |
| Remediation.RemediationService.ExecutedRanItsPlaybook | app/remediation/executor.py:74-75 | behind every executed action there is one call in which its status was written after its playbook returned, and that after every gate |
| Remediation.RemediationService.RunPlaybook | app/remediation/executor.py:47-77 | the playbook returns iff the kill switch passed, its tier is not 3, tier 2 came with an approved ticket, and credential and playbook did not raise; every effect came after all that it needs |
| Remediation.RemediationService.PassGates | app/remediation/executor.py:47-64 | exactly when the gates let a call through; nothing but checks happens before |
| Remediation.WritesAreGated | app/remediation/executor.py:47-75 | in a safe execution every credential fetch, playbook start or return and status change has the kill-switch check before it, a tier other than 3, and for tier 2 an approval of the supplied ticket before it |
| ConnectorRegistry.Registry.GetConnector | app/connectors/registry.py:32-46 | the remembered instance whatever type and config say, a new one for a known type, an error for an unknown one; nothing is remembered on error |
| ConnectorRegistry.Registry.IntakeConnector | app/services/intake_service.py:53-63 | the intake service's lookup yields a connector iff policy and type are known, and its configuration is the policy's key by key |
| ConnectorRegistry.Registry.DiagnosticConnector | app/services/diagnostic_service.py:55-65 | the same for the diagnostic service's own derivation of the configuration |
| ConnectorRegistry.ConstructionIsUnique | app/connectors/registry.py:44 | two connectors as constructed from one policy agree in id, type and every key of the configuration |
| ConnectorRegistry.Registry.ServeAll | app/connectors/registry.py:32-46 | over any sequence of lookups by either service one system always yields one and the same instance, as a fresh construction would be |

## Left out

- HTTP, TLS, JSON, the OAuth redirect and its fragment: each request returns an arbitrary value, is refused with a status of 400 or more, or raises.
- Cookies are told apart by name only; domains and paths of the cookie jar are not modelled.
- Date parsing: a date is an integer, or None when absent or unparseable; comparing naive with aware datetimes is an exception of the step.
- The order in which waiting coroutines get the lock: any waiter may, which includes the order asyncio uses.
- TokenSoundness.NoExpiredTokenIsEverReturned: assumes truthful lifetimes above the margin and no SET between a reader's GET and TTL; what happens otherwise is in TokenLimits.
- TokenPairing.LiveTokenHasItsCookies: one direction only, under its hypotheses; TokenExactness.PairIsIntactIff is the exact statement.
- TokenClient.OpenIAMTokenClient.GetAccessToken: others act while the call waits for the lock; what other processes and unrelated replies do at its later awaits is in the protocol, to which each segment method is tied, and not in this contract.
- The look-back windows passed to the audit log queries are settings and constants; a connector answers by subject and resource.
- Step timeouts: declared but never applied; a timeout is an exception raised by the connector.
- Stub connectors, step 5, log queries, Vault and approval internals, Slack, Teams, workers and self-diagnosis: they raise or only log.
- Exact wording of messages: a template is a sequence of named literals and holes.
- Ledger.DraftsDoNotInterfere: the prompt is not modelled, only the draft that comes back.
- Audit queries with their row-level scoping, listing of systems, migrations, logging, metrics, middleware, settings, SIEM shipping.
- Remediation.RemediationService.Execute: an action that was executed may be executed again, as in the code; its effects stay gated.
- Logins are sequences of bytes; characters of a URL beyond one byte do not occur in an encoded link.
