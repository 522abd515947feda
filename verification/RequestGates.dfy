/** The order of the gates an execution request passes, and the boundary that enqueues it. */
module RequestGates {
  import opened Wrappers
  import opened ExecutionPolicy

  datatype Org = Personal | SuspendedOrMissing | OverQuota | ActiveOrg

  datatype Grant = Granted | Refused | CheckFailed

  /** What the handler reads besides the payload. */
  datatype Env = Env(cancelRequested: bool, org: Org, ownerKnown: bool, grant: Grant)

  datatype Request = Request(payload: Payload, explicitManagerRequest: bool, humanApprovedExecution: bool)

  datatype End =
    | Cancelled | OrgRefused | QuotaRefused | LeakRefused | GrantRefused | GrantCheckThrew
    | PolicyRefused | ApprovalPending | LeaseAndRun

  predicate IsHighRisk(a: ActionType) {
    !a.NoTool?
  }

  /** Modes are always enforced by the worker. */
  function Enforced(p: Payload): Payload {
    p.(enforce := true)
  }

  // ----- The reference, a table over the mode and the two flags -----

  predicate Admitted(env: Env) {
    !env.cancelRequested && (env.org.Personal? || env.org.ActiveOrg?)
  }

  function Refusal(env: Env): End
    requires !Admitted(env)
  {
    if env.cancelRequested then Cancelled else if env.org.OverQuota? then QuotaRefused else OrgRefused
  }

  predicate NeedsGrant(r: Request, env: Env) {
    env.ownerKnown && IsHighRisk(r.payload.actionType)
  }

  /** The mode forbids tools: only the two flags decide. */
  function SuggestOnlyEnd(r: Request): End {
    if r.explicitManagerRequest && r.humanApprovedExecution then LeaseAndRun
    else if r.explicitManagerRequest then ApprovalPending
    else PolicyRefused
  }

  /** Any other mode: the policy decides, and an unsafe action is refused rather than put up for approval. */
  function PolicyEnd(p: Payload): End {
    match PolicyOutcome(p)
    case AutoExecute => LeaseAndRun
    case ApprovalRequired => if UnsafePayload(p) then PolicyRefused else ApprovalPending
    case Blocked => PolicyRefused
  }

  function Gate(r: Request, env: Env): End {
    if !Admitted(env) then Refusal(env)
    else if r.payload.mode.SuggestOnlyMode? && !r.explicitManagerRequest && !r.humanApprovedExecution then LeakRefused
    else if NeedsGrant(r, env) && !env.grant.Granted? then (if env.grant.Refused? then GrantRefused else GrantCheckThrew)
    else if r.payload.mode.SuggestOnlyMode? then SuggestOnlyEnd(r)
    else PolicyEnd(Enforced(r.payload))
  }

  // ----- The handler -----

  function ShouldSkipFailClosed(r: Request): bool {
    r.humanApprovedExecution || r.explicitManagerRequest
  }

  function ForceApprovalForExplicit(outcome: Outcome, modeDenied: bool, r: Request): bool {
    outcome.Blocked? && modeDenied && r.explicitManagerRequest && !r.humanApprovedExecution
  }

  function BypassAfterHumanApproval(outcome: Outcome, modeDenied: bool, r: Request): bool {
    outcome.Blocked? && modeDenied && r.humanApprovedExecution && r.explicitManagerRequest
  }

  method ProcessTaskExecutionRequested(r: Request, env: Env) returns (end: End)
    ensures end == Gate(r, env)
  {
    if env.cancelRequested {
      return Cancelled;
    }
    if !env.org.Personal? {
      if env.org.SuspendedOrMissing? {
        return OrgRefused;
      }
      if env.org.OverQuota? {
        return QuotaRefused;
      }
    }
    var d := EvaluateExecutionPolicy(Enforced(r.payload));
    if r.payload.mode.SuggestOnlyMode? && !ShouldSkipFailClosed(r) {
      return LeakRefused;
    }
    if env.ownerKnown && IsHighRisk(r.payload.actionType) {
      if env.grant.CheckFailed? {
        return GrantCheckThrew;
      }
      if env.grant.Refused? {
        return GrantRefused;
      }
    }
    var unsafe := d.risk.High? && (OutsideDomains in d.reasons || NoRecipients in d.reasons);
    var modeDenied := ModeSuggestOnly in d.reasons;
    var force := ForceApprovalForExplicit(d.outcome, modeDenied, r);
    var bypass := BypassAfterHumanApproval(d.outcome, modeDenied, r) && !unsafe;
    if (d.outcome.Blocked? || unsafe) && !force && !bypass {
      return PolicyRefused;
    }
    if d.outcome.ApprovalRequired? || force {
      return ApprovalPending;
    }
    end := LeaseAndRun;
  }

  // ----- What the gates promise -----

  /** Under suggest_only nothing runs without both flags, whatever the payload and the organisation's policy. */
  lemma SuggestOnlyRunsOnlyWithBothFlags(r: Request, env: Env)
    requires r.payload.mode.SuggestOnlyMode?
    ensures Gate(r, env).LeaseAndRun? <==>
      Admitted(env) && (!NeedsGrant(r, env) || env.grant.Granted?) && r.explicitManagerRequest && r.humanApprovedExecution
    ensures r.explicitManagerRequest && !r.humanApprovedExecution ==>
      (Gate(r, env).ApprovalPending? <==> Admitted(env) && (!NeedsGrant(r, env) || env.grant.Granted?))
      && !Gate(r, env).PolicyRefused? && !Gate(r, env).LeakRefused?
  {
  }

  /** The request passed the gates before the policy. */
  predicate ReachesPolicy(r: Request, env: Env) {
    && !env.cancelRequested && !env.org.SuspendedOrMissing? && !env.org.OverQuota?
    && (r.payload.mode.SuggestOnlyMode? ==> r.explicitManagerRequest || r.humanApprovedExecution)
    && (env.ownerKnown && !r.payload.actionType.NoTool? ==> env.grant.Granted?)
  }

  /** Where a request ends, told by the ends: each gate stops exactly what passed the gates before it. */
  lemma EndsTell(r: Request, env: Env)
    ensures var end := Gate(r, env);
            var admitted := !env.cancelRequested && !env.org.SuspendedOrMissing? && !env.org.OverQuota?;
            var leaked := r.payload.mode.SuggestOnlyMode? && !r.explicitManagerRequest && !r.humanApprovedExecution;
            var ungranted := env.ownerKnown && !r.payload.actionType.NoTool? && !env.grant.Granted?;
            && (end.Cancelled? <==> env.cancelRequested)
            && (end.OrgRefused? <==> !env.cancelRequested && env.org.SuspendedOrMissing?)
            && (end.QuotaRefused? <==> !env.cancelRequested && env.org.OverQuota?)
            && (end.LeakRefused? <==> admitted && leaked)
            && (end.GrantRefused? <==> admitted && !leaked && ungranted && env.grant.Refused?)
            && (end.GrantCheckThrew? <==> admitted && !leaked && ungranted && env.grant.CheckFailed?)
            && (end.PolicyRefused? || end.ApprovalPending? || end.LeaseAndRun? <==> ReachesPolicy(r, env))
  {
  }

  /** Outside suggest_only the policy refuses exactly the denied, the unaddressed, the guarded and the foreign e-mail; the rest waits or runs. */
  lemma PolicyEndsTell(r: Request, env: Env)
    requires ReachesPolicy(r, env) && !r.payload.mode.SuggestOnlyMode?
    ensures var p := Enforced(r.payload);
            && (Gate(r, env).PolicyRefused? <==>
                  || Denied(p) || (p.actionType.SendEmail? && (Recipients(p) == [] || Outside(p)))
                  || (Guarded(p) && GuardModeOf(p).GuardEnforce? && !GuardOk(p)))
            && (Gate(r, env).ApprovalPending? <==> !Gate(r, env).PolicyRefused? && !EveryCheckPasses(p))
  {
    BlockedExactlyWhen(Enforced(r.payload));
    AutoMeansEveryCheckPasses(Enforced(r.payload));
  }

  /**
   In the other modes a request runs exactly when it is admitted, holds the grant it needs,
   and every single check of the policy lets it pass.
   */
  lemma RunMeansEveryCheckPassed(r: Request, env: Env)
    requires !r.payload.mode.SuggestOnlyMode?
    ensures Gate(r, env).LeaseAndRun? <==>
      Admitted(env) && (NeedsGrant(r, env) ==> env.grant.Granted?) && EveryCheckPasses(Enforced(r.payload))
  {
    AutoMeansEveryCheckPasses(Enforced(r.payload));
  }

  /** The request as it would be evaluated if tools were allowed. */
  function WithTools(r: Request): Request {
    r.(payload := r.payload.(mode := AutoMode))
  }

  /** With tools allowed, the policy refuses exactly these. */
  lemma RefusedExactlyWhen(p: Payload)
    requires p.enforce && p.mode.AutoMode?
    ensures PolicyEnd(p).PolicyRefused? <==>
      Denied(p) || (p.actionType.SendEmail? && (Recipients(p) == [] || Outside(p)))
      || (Guarded(p) && GuardModeOf(p).GuardEnforce? && !GuardOk(p))
  {
  }

  /**
   What the handler does with a request that carries both flags.  No writer sends one today,
   since the flag is lost on the way (see `ApprovalLoop`); this is what keeping it brings.
   The approval is meant to lift the mode's denial only, but the evaluation stops at the
   mode, so it lifts every denial behind it: the deny list, missing recipients, foreign
   domains and the prompt guard.  It lifts the mode alone exactly when none of them applies.
   */
  lemma BothFlagsLiftMoreThanTheMode(r: Request, env: Env)
    requires r.payload.mode.SuggestOnlyMode? && r.explicitManagerRequest && r.humanApprovedExecution
    requires Admitted(env) && env.grant.Granted?
    ensures Gate(r, env).LeaseAndRun?
    ensures var p := WithTools(r).payload;
            Gate(WithTools(r), env).PolicyRefused? <==>
              Denied(p) || (p.actionType.SendEmail? && (Recipients(p) == [] || Outside(p)))
              || (Guarded(p) && GuardModeOf(p).GuardEnforce? && !GuardOk(p))
  {
    var p := WithTools(r).payload;
    RefusedExactlyWhen(Enforced(p));
    SameTool(p, Enforced(p));
    assert Recipients(Enforced(p)) == Recipients(p);
    OutsideIgnoresMode(p, Enforced(p));
  }

  lemma OutsideIgnoresMode(p: Payload, q: Payload)
    requires q.parameters == p.parameters && AllowedDomains(q) == AllowedDomains(p)
    ensures Outside(q) <==> Outside(p)
  {
    assert Recipients(q) == Recipients(p);
    forall i | 0 <= i < |Recipients(p)| ensures IsOutside(p, Recipients(p)[i]) == IsOutside(q, Recipients(q)[i]) {
    }
  }

  // ----- The enqueue boundary -----

  const ACCEPT_SOURCE := "suggestion.accept"

  datatype EnqueuedRequest = EnqueuedRequest(dedupeKey: string, explicitManagerRequest: bool)

  class ExecutionEnqueue {
    var written: seq<EnqueuedRequest>
    var acceptAttempts: nat
    var suggestOnlyAttempts: nat

    ghost predicate OnlyExplicit(from: nat)
      reads this
    {
      forall i :: from <= i < |written| ==> written[i].explicitManagerRequest
    }

    /** Exactly one of three things happens, and under suggest_only nothing is written without the explicit flag. */
    method EnqueueTaskExecutionRequested(dedupeKey: string, mode: Mode, flag: bool, payloadFlag: bool,
                                         source: Option<string>, payloadSource: Option<string>)
      returns (enqueued: bool, blocked: bool)
      modifies this
      ensures blocked == !enqueued
      ensures var from := if source.Some? then source else payloadSource;
              enqueued <==> from != Some(ACCEPT_SOURCE) && (flag || payloadFlag || !mode.SuggestOnlyMode?)
      ensures written == old(written) + (if enqueued then [EnqueuedRequest(dedupeKey, flag || payloadFlag)] else [])
      ensures acceptAttempts + suggestOnlyAttempts == old(acceptAttempts + suggestOnlyAttempts) + (if blocked then 1 else 0)
      ensures suggestOnlyAttempts > old(suggestOnlyAttempts) ==> mode.SuggestOnlyMode?
      ensures mode.SuggestOnlyMode? && old(OnlyExplicit(0)) ==> OnlyExplicit(0)
    {
      var from := if source.Some? then source else payloadSource;
      if from == Some(ACCEPT_SOURCE) {
        acceptAttempts := acceptAttempts + 1;
        return false, true;
      }
      var explicit := flag || payloadFlag;
      if !explicit && mode.SuggestOnlyMode? {
        suggestOnlyAttempts := suggestOnlyAttempts + 1;
        return false, true;
      }
      written := written + [EnqueuedRequest(dedupeKey, explicit)];
      return true, false;
    }
  }
}
