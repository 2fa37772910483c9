/**
 Remediation: the gates a playbook passes before it runs, over any sequence of requests and
 executions. Every effect of a call is recorded, in order, in a ghost log of that call.
 */
module Remediation {
  import opened Common

  datatype Tier = Informational | Reversible | AccessChanging | Privileged

  datatype ApprovalStatus = Pending | Approved | Denied | Expired

  datatype Action = Action(playbookId: string, tier: Tier, status: string)

  datatype Effect =
    | KillSwitchPassed
    | TicketReported(ticket: string, answer: ApprovalStatus)
    | CredentialFetched
    | PlaybookStarted(playbookId: string)
    | PlaybookReturned(playbookId: string)
    | StatusSet(status: string)

  // One call of execute: the action, the playbook and its tier, the ticket supplied, whether the
  // database takes the new status, and the effects.
  datatype Execution = Execution(
    action: nat, playbookId: string, tier: Option<Tier>, ticket: Option<string>, flushed: bool, effects: seq<Effect>)

  // What the gates and the outside world answer during one call.
  datatype World = World(
    killed: bool, approval: Reply<ApprovalStatus>, credential: Reply<string>,
    playbook: Reply<string>, flushed: bool)

  datatype Error = KillSwitchEngaged | NotRegistered | TierForbidden | ApprovalRequired | NotFound | Failure

  datatype Result<+T> = Ok(value: T) | Err(error: Error)

  /* ----- what is safe ----- */

  predicate Before(effects: seq<Effect>, i: nat, e: Effect) {
    exists k :: 0 <= k < i && k < |effects| && effects[k] == e
  }

  // Everything that must have happened earlier in the same call for a write to be allowed.
  predicate Cleared(x: Execution, i: nat) {
    && Before(x.effects, i, KillSwitchPassed)
    && x.tier.Some? && x.tier.value != Privileged
    && (x.tier.value == AccessChanging ==>
        x.ticket.Some? && Before(x.effects, i, TicketReported(x.ticket.value, Approved)))
  }

  // The i-th effect of the call was allowed to happen when it did.
  predicate Allowed(x: Execution, i: nat)
    requires i < |x.effects|
  {
    var e := x.effects[i];
    && (e.CredentialFetched? ==> Cleared(x, i))
    && (e.PlaybookStarted? ==> e.playbookId == x.playbookId && Cleared(x, i) && Before(x.effects, i, CredentialFetched))
    && (e.PlaybookReturned? ==> Before(x.effects, i, PlaybookStarted(e.playbookId)))
    && (e.StatusSet? ==> e.status == "executed" && Before(x.effects, i, PlaybookReturned(x.playbookId)))
  }

  predicate SafeExecution(x: Execution) { forall i :: 0 <= i < |x.effects| ==> Allowed(x, i) }

  // The playbook ran to its end, and the database took the status written after it.
  predicate Completed(x: Execution) { PlaybookReturned(x.playbookId) in x.effects && x.flushed }

  ghost predicate LogOk(actions: map<nat, Action>, log: seq<Execution>) {
    && (forall i :: 0 <= i < |log| ==> Logged(actions, log[i]))
    && (forall id :: id in actions ==> StatusOk(actions[id], id, log))
  }

  predicate Logged(actions: map<nat, Action>, x: Execution) {
    && SafeExecution(x) && (Completed(x) <==> StatusSet("executed") in x.effects)
    && x.action in actions && x.playbookId == actions[x.action].playbookId
  }

  ghost predicate StatusOk(a: Action, id: nat, log: seq<Execution>) {
    && (a.status == "pending" || a.status == "executed")
    && (a.status == "executed" <==> exists i :: 0 <= i < |log| && log[i].action == id && Completed(log[i]))
  }

  class RemediationService {
    const registry: map<string, Tier>
    var actions: map<nat, Action>
    ghost var log: seq<Execution>

    constructor (registry: map<string, Tier>)
      ensures this.registry == registry && actions == map[] && log == [] && Valid()
    {
      this.registry := registry;
      actions, log := map[], [];
    }

    // Over the whole life of the service: every execution was safe, and an action is executed
    // exactly when the playbook of some execution of it returned and the status was stored.
    ghost predicate Valid()
      reads this
    {
      LogOk(actions, log)
    }

    // Every gate lets the call through, and neither the credential nor the playbook raises.
    predicate RunsToEnd(playbookId: string, ticket: Option<string>, w: World) {
      GatesOpen(playbookId, ticket, w) && w.credential.Answer? && w.playbook.Answer?
    }

    predicate GatesOpen(playbookId: string, ticket: Option<string>, w: World) {
      && !w.killed && playbookId in registry && registry[playbookId] != Privileged
      && (registry[playbookId] == AccessChanging ==> ticket.Some? && w.approval == Answer(Approved))
    }

    // An action marked executed has, in one and the same call, its status written after its
    // playbook returned, and that after every gate.
    lemma ExecutedRanItsPlaybook(id: nat) returns (i: nat, k: nat)
      requires Valid() && id in actions && actions[id].status == "executed"
      ensures i < |log| && log[i].action == id && k < |log[i].effects| && log[i].effects[k] == StatusSet("executed")
      ensures Before(log[i].effects, k, PlaybookReturned(actions[id].playbookId))
      ensures Cleared(log[i], k)
    {
      assert StatusOk(actions[id], id, log);
      i :| i < |log| && log[i].action == id && Completed(log[i]);
      k :| k < |log[i].effects| && log[i].effects[k] == StatusSet("executed");
      assert Logged(actions, log[i]) && Allowed(log[i], k);
      WritesAreGated(log[i], k);
    }

    // request_remediation: a pending action under a new key.
    method RequestRemediation(id: nat, playbookId: string, tier: Tier, flushed: bool) returns (r: Result<nat>)
      requires Valid()
      modifies this`actions
      ensures Valid()
      ensures r == if flushed && id !in old(actions) then Ok(id) else Err(Failure)
      ensures actions == if r.Ok? then old(actions)[id := Action(playbookId, tier, "pending")] else old(actions)
    {
      if !flushed || id in actions { return Err(Failure); }
      actions := actions[id := Action(playbookId, tier, "pending")];
      r := Ok(id);
    }

    // RemediationService.execute, then RemediationExecutor.execute: the tier that counts is the
    // playbook's own.
    method Execute(id: nat, ticket: Option<string>, w: World) returns (r: Result<string>)
      requires Valid()
      modifies this
      ensures Valid()
      ensures id !in old(actions) ==> r == Err(NotFound) && log == old(log)
      ensures r.Ok? <==> id in old(actions) && RunsToEnd(old(actions)[id].playbookId, ticket, w) && w.flushed
      ensures r.Ok? ==> r.value == w.playbook.value
      ensures actions == if r.Ok? then old(actions)[id := old(actions)[id].(status := "executed")] else old(actions)
      ensures id in old(actions) ==>
                && |log| == |old(log)| + 1 && log[..|old(log)|] == old(log)
                && var x := log[|old(log)|];
                   x.action == id && x.ticket == ticket && x.flushed == w.flushed && (r.Ok? <==> Completed(x))
    {
      if id !in actions { return Err(NotFound); }
      ghost var before := log;
      ghost var x: Execution;
      r, x := RunPlaybook(id, actions[id].playbookId, ticket, w);
      if r.Ok? && !w.flushed {
        r := Err(Failure);
      }
      if r.Ok? {
        actions := actions[id := actions[id].(status := "executed")];
        x := Record(x, StatusSet("executed"));
      }
      LogGrows(old(actions), actions, before, x, id);
      log := before + [x];
    }

    // Lines 47-74: kill switch, tier, approval, credential, playbook, in that order.
    method RunPlaybook(id: nat, playbookId: string, ticket: Option<string>, w: World)
      returns (r: Result<string>, ghost x: Execution)
      ensures x.action == id && x.playbookId == playbookId && x.ticket == ticket && x.flushed == w.flushed
              && SafeExecution(x)
      ensures x.tier == if playbookId in registry then Some(registry[playbookId]) else None
      ensures StatusSet("executed") !in x.effects
      ensures r.Ok? <==> PlaybookReturned(playbookId) in x.effects
      ensures r.Ok? ==> w.playbook == Answer(r.value)
      ensures r.Ok? <==> RunsToEnd(playbookId, ticket, w)
    {
      var refused: Option<Error>;
      refused, x := PassGates(id, playbookId, ticket, w);
      if refused.Some? { return Err(refused.value), x; }
      if w.credential.Raise? { return Err(Failure), x; }
      x := Record(x, CredentialFetched);
      x := Record(x, PlaybookStarted(playbookId));
      if w.playbook.Raise? { return Err(Failure), x; }
      x := Record(x, PlaybookReturned(playbookId));
      r := Ok(w.playbook.value);
    }

    // Lines 47-64: everything before the write credential is fetched.
    method PassGates(id: nat, playbookId: string, ticket: Option<string>, w: World)
      returns (refused: Option<Error>, ghost x: Execution)
      ensures x.action == id && x.playbookId == playbookId && x.ticket == ticket && x.flushed == w.flushed
              && SafeExecution(x)
      ensures x.tier == if playbookId in registry then Some(registry[playbookId]) else None
      ensures forall e :: e in x.effects ==> e.KillSwitchPassed? || e.TicketReported?
      ensures refused.None? ==> Cleared(x, |x.effects|)
      ensures refused.None? <==> GatesOpen(playbookId, ticket, w)
    {
      var own := if playbookId in registry then Some(registry[playbookId]) else None;
      x := Execution(id, playbookId, own, ticket, w.flushed, []);
      if w.killed { return Some(KillSwitchEngaged), x; }
      x := Record(x, KillSwitchPassed);
      if playbookId !in registry { return Some(NotRegistered), x; }
      var tier := registry[playbookId];
      if tier == Privileged { return Some(TierForbidden), x; }
      if tier == AccessChanging {
        if ticket.None? { return Some(ApprovalRequired), x; }
        if w.approval.Raise? { return Some(Failure), x; }
        x := Record(x, TicketReported(ticket.value, w.approval.value));
        if w.approval.value != Approved { return Some(ApprovalRequired), x; }
      }
      refused := None;
    }
  }

  // One more execution, and its action marked executed exactly if it completed.
  lemma LogGrows(actions: map<nat, Action>, after: map<nat, Action>, log: seq<Execution>, x: Execution, id: nat)
    requires LogOk(actions, log) && id in actions && x.action == id && Logged(actions, x)
    requires after == if Completed(x) then actions[id := actions[id].(status := "executed")] else actions
    ensures LogOk(after, log + [x])
  {
    hide SafeExecution, Completed;
    var grown := log + [x];
    forall i | 0 <= i < |grown| ensures Logged(after, grown[i]) {
      assert Logged(actions, if i < |log| then log[i] else x);
    }
    forall k | k in after ensures StatusOk(after[k], k, grown) {
      assert StatusOk(actions[k], k, log);
      if i :| 0 <= i < |log| && log[i].action == k && Completed(log[i]) {
        assert grown[i].action == k && Completed(grown[i]);
      }
      assert k == id && Completed(x) ==> grown[|log|].action == k && Completed(grown[|log|]);
    }
  }

  // Appending an effect that is allowed at the end of a safe execution keeps it safe.
  lemma Record(x: Execution, e: Effect) returns (y: Execution)
    requires SafeExecution(x)
    requires var n := |x.effects|;
             && (e.CredentialFetched? ==> Cleared(x, n))
             && (e.PlaybookStarted? ==> e.playbookId == x.playbookId && Cleared(x, n) && CredentialFetched in x.effects)
             && (e.PlaybookReturned? ==> PlaybookStarted(e.playbookId) in x.effects)
             && (e.StatusSet? ==> e.status == "executed" && PlaybookReturned(x.playbookId) in x.effects)
    ensures y == x.(effects := x.effects + [e]) && SafeExecution(y)
    ensures forall i, d :: 0 <= i <= |x.effects| && Before(x.effects, i, d) ==>
                Before(y.effects, i, d) && Before(y.effects, |y.effects|, d)
    ensures Before(y.effects, |y.effects|, e)
    ensures Cleared(x, |x.effects|) ==> Cleared(y, |y.effects|)
  {
    y := x.(effects := x.effects + [e]);
    assert y.effects[|x.effects|] == e;
    assert forall i :: 0 <= i < |x.effects| ==> y.effects[i] == x.effects[i];
    forall i, d | 0 <= i <= |x.effects| && Before(x.effects, i, d)
      ensures Before(y.effects, i, d) && Before(y.effects, |y.effects|, d)
    {
      var k :| 0 <= k < i && k < |x.effects| && x.effects[k] == d;
      assert y.effects[k] == d;
    }
    forall i | 0 <= i < |y.effects| ensures Allowed(y, i) {
      if i < |x.effects| {
        assert Allowed(x, i);
      }
    }
  }

  // A write happened in a safe execution only past every gate: what the log of a valid service
  // says about any credential fetched or playbook run in it.
  lemma WritesAreGated(x: Execution, i: nat)
    requires SafeExecution(x) && i < |x.effects|
    requires x.effects[i].CredentialFetched? || x.effects[i].PlaybookStarted? || x.effects[i].PlaybookReturned?
             || x.effects[i].StatusSet?
    ensures Before(x.effects, i, KillSwitchPassed) && x.tier.Some? && x.tier.value != Privileged
    ensures x.tier.value == AccessChanging ==>
                x.ticket.Some? && Before(x.effects, i, TicketReported(x.ticket.value, Approved))
  {
    assert Allowed(x, i);
    var e := x.effects[i];
    if e.PlaybookReturned? {
      var k :| 0 <= k < i && x.effects[k] == PlaybookStarted(e.playbookId);
      WritesAreGated(x, k);
    } else if e.StatusSet? {
      var k :| 0 <= k < i && x.effects[k] == PlaybookReturned(x.playbookId);
      WritesAreGated(x, k);
    }
  }
}
