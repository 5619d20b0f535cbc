/**
What the client does with a challenged credential: which statuses count as a
challenge, which action is planned for one applied use, and how applying that
action reaches the credential slot.
*/
module AuthRejection {
  import opened Prelude
  import opened CredentialSlots

  datatype ChallengePolicy = Unauthorized | UnauthorizedOrForbidden | NeverRecover

  datatype AuthPlacement = BearerAuth | HeaderAuth(name: string) | QueryAuth(name: string) | BasicAuth

  datatype AuthRequirement = AuthRequirement(
    credential: string, placement: AuthPlacement, usage: string, step: Option<string>,
    provenance: string, challenge: ChallengePolicy)

  datatype AppliedCredential = AppliedCredential(
    credential: string, usage: string, step: Option<string>, generation: Option<nat>, provenance: string)

  datatype StepPolicy = StepPolicy(
    recoverOnUnauthorized: bool, recoverOnForbidden: bool,
    invalidateOnUnauthorized: bool, invalidateOnForbidden: bool)

  const DEFAULT_POLICY := StepPolicy(true, true, true, true)

  const UNAUTHORIZED: nat := 401
  const FORBIDDEN: nat := 403

  /** Serves both as the reason to recover and the reason to invalidate. */
  datatype RejectionReason = RejectedUnauthorized | RejectedForbidden

  datatype Decision = Decision(invalidate: Option<RejectionReason>, recover: Option<RejectionReason>)

  datatype RejectionAction =
    | Terminal(credential: string, usage: string, step: Option<string>, generation: Option<nat>,
               invalidate: Option<RejectionReason>)
    | Recover(credential: string, usage: string, step: Option<string>, generation: Option<nat>,
              reason: RejectionReason, invalidate: Option<RejectionReason>)

  /** A provider binding: the slot it serves and whether a challenge may trigger a refresh. */
  datatype Binding = Binding(slot: string, refreshOnChallenge: bool)

  function Decide(recover: bool, invalidate: bool, reason: RejectionReason): Option<Decision> {
    if recover || invalidate then
      Some(Decision(if invalidate then Some(reason) else None, if recover then Some(reason) else None))
    else None
  }

  function DecisionForStatus(status: nat, challenge: ChallengePolicy, policy: StepPolicy): Option<Decision> {
    if challenge.NeverRecover? then None
    else if status == UNAUTHORIZED then
      Decide(policy.recoverOnUnauthorized, policy.invalidateOnUnauthorized, RejectedUnauthorized)
    else if status == FORBIDDEN && challenge.UnauthorizedOrForbidden? then
      Decide(policy.recoverOnForbidden, policy.invalidateOnForbidden, RejectedForbidden)
    else None
  }

  const BINDING_MISMATCH: AuthError :=
    AuthError(InvalidConfiguration, "authentication provider binding does not match its requirement", None)
  const ACTION_MISMATCH: AuthError :=
    AuthError(InvalidConfiguration, "authentication rejection action does not match its provider binding", None)

  function PlanRejection(binding: Binding, requirement: AuthRequirement, applied: AppliedCredential, status: nat)
    : Result<RejectionAction, AuthError>
  {
    if binding.slot != requirement.credential then Err(BINDING_MISMATCH)
    else
      match DecisionForStatus(status, requirement.challenge, DEFAULT_POLICY)
      case None => Ok(Terminal(requirement.credential, applied.usage, applied.step, applied.generation, None))
      case Some(decision) =>
        if binding.refreshOnChallenge && decision.recover.Some? then
          Ok(Recover(requirement.credential, applied.usage, applied.step, applied.generation,
                     decision.recover.value, decision.invalidate))
        else
          Ok(Terminal(requirement.credential, applied.usage, applied.step, applied.generation, decision.invalidate))
  }

  predicate ActionMatches(action: RejectionAction, requirement: AuthRequirement, applied: AppliedCredential) {
    && action.credential == requirement.credential == applied.credential
    && action.usage == applied.usage
    && action.step == applied.step
    && action.generation == applied.generation
  }

  function InvalidationReason(action: RejectionAction, status: nat): Option<RejectionReason> {
    if action.invalidate.Some? then action.invalidate
    else if action.Recover? then Some(if status == FORBIDDEN then RejectedForbidden else RejectedUnauthorized)
    else None
  }

  /**
  Applying an action to the slot. The provider-capable path and the local-only
  path reach the slot in the same way; what the provider does afterwards does not
  touch it.
  */
  function ApplyRejection(inner: Inner, binding: Binding, action: RejectionAction, requirement: AuthRequirement,
                          applied: AppliedCredential, status: nat): Result<(Inner, Option<Credential>), AuthError> {
    if binding.slot != requirement.credential then Err(BINDING_MISMATCH)
    else if !ActionMatches(action, requirement, applied) then Err(ACTION_MISMATCH)
    else if InvalidationReason(action, status).None? then Ok((inner, None))
    else InvalidateSpec(inner, applied.generation)
  }

  /** A response status challenges a use of a credential. */
  predicate Challenges(status: nat, challenge: ChallengePolicy) {
    match challenge
    case Unauthorized => status == UNAUTHORIZED
    case UnauthorizedOrForbidden => status == UNAUTHORIZED || status == FORBIDDEN
    case NeverRecover => false
  }

  /**
  From status to slot: for an applied use of a bound credential, planning
  succeeds with an action that belongs to that use, and applying it invalidates
  exactly the leased generation exactly when the status is a challenge. Whether
  the binding refreshes decides only between recovery and a terminal action.
  */
  lemma ChallengeReachesSlot(inner: Inner, binding: Binding, requirement: AuthRequirement,
                             applied: AppliedCredential, status: nat)
    requires binding.slot == requirement.credential == applied.credential
    ensures var plan := PlanRejection(binding, requirement, applied, status);
            && plan.Ok?
            && ActionMatches(plan.value, requirement, applied)
            && (plan.value.Recover? <==> binding.refreshOnChallenge && Challenges(status, requirement.challenge))
            && (InvalidationReason(plan.value, status).Some? <==> Challenges(status, requirement.challenge))
            && ApplyRejection(inner, binding, plan.value, requirement, applied, status)
            == (if Challenges(status, requirement.challenge) then InvalidateSpec(inner, applied.generation)
                else Ok((inner, None)))
  {
  }

  /** A planned action says why: the reason to invalidate and to recover is the status of the challenge. */
  lemma ActionsSayWhy(binding: Binding, requirement: AuthRequirement, applied: AppliedCredential, status: nat)
    requires binding.slot == requirement.credential == applied.credential
    ensures var action := PlanRejection(binding, requirement, applied, status).value;
            var reason := if status == 403 then RejectedForbidden else RejectedUnauthorized;
            && action.invalidate == (if Challenges(status, requirement.challenge) then Some(reason) else None)
            && (action.Recover? ==> action.reason == reason)
            && InvalidationReason(action, status) == action.invalidate
  {
  }

  /**
  An action invalidates for the reason it carries. A recovery without one still
  invalidates, for the status that came back; a terminal action without one does not.
  */
  lemma RecoveryAlwaysInvalidates(action: RejectionAction, status: nat)
    ensures action.invalidate.Some? ==> InvalidationReason(action, status) == action.invalidate
    ensures action.invalidate.None? && action.Recover? ==>
              InvalidationReason(action, status)
              == Some(if status == 403 then RejectedForbidden else RejectedUnauthorized)
    ensures action.invalidate.None? && action.Terminal? ==> InvalidationReason(action, status).None?
  {
  }

  /** Under every step policy, a challenge leads to what the policy allows for its status, and nothing else does. */
  lemma DecisionFollowsPolicy(status: nat, challenge: ChallengePolicy, policy: StepPolicy)
    ensures var decision := DecisionForStatus(status, challenge, policy);
            var recovers := if status == 403 then policy.recoverOnForbidden else policy.recoverOnUnauthorized;
            var invalidates := if status == 403 then policy.invalidateOnForbidden else policy.invalidateOnUnauthorized;
            && (decision.Some? <==> Challenges(status, challenge) && (recovers || invalidates))
            && (decision.Some? ==>
                  && (decision.value.recover.Some? <==> recovers) && (decision.value.invalidate.Some? <==> invalidates))
  {
  }

  /** A binding or an action that belongs elsewhere is refused, and the slot is not touched. */
  lemma ForeignRejectionIsRefused(inner: Inner, binding: Binding, action: RejectionAction, requirement: AuthRequirement,
                                  applied: AppliedCredential, status: nat)
    requires || binding.slot != requirement.credential
             || action.credential != requirement.credential || action.credential != applied.credential
             || action.usage != applied.usage || action.step != applied.step || action.generation != applied.generation
    ensures var r := ApplyRejection(inner, binding, action, requirement, applied, status);
            r.Err? && r.error.kind == InvalidConfiguration
    ensures binding.slot != requirement.credential ==> PlanRejection(binding, requirement, applied, status).Err?
  {
  }

  // ----- the aggregate plan of one response

  predicate RequestsRecovery(actions: seq<RejectionAction>) {
    exists i :: 0 <= i < |actions| && actions[i].Recover?
  }

  class AuthRejectionPlan {
    var actions: seq<RejectionAction>

    constructor ()
      ensures actions == []
    {
      actions := [];
    }

    method AppendValidated(action: RejectionAction)
      modifies this
      ensures actions == Appended(old(actions), action)
    {
      if action.Terminal? || !RequestsRecovery(actions) {
        actions := actions + [action];
      }
    }
  }

  function Appended(actions: seq<RejectionAction>, action: RejectionAction): seq<RejectionAction> {
    if action.Recover? && RequestsRecovery(actions) then actions else actions + [action]
  }

  function AppendAll(validated: seq<RejectionAction>): seq<RejectionAction> {
    if validated == [] then []
    else Appended(AppendAll(validated[..|validated| - 1]), validated[|validated| - 1])
  }

  /** Reference reading of the aggregate: every terminal action in order, and the first recovery only. */
  function KeepFirstRecovery(validated: seq<RejectionAction>): seq<RejectionAction> {
    if validated == [] then []
    else if validated[0].Recover? then [validated[0]] + Terminals(validated[1..])
    else [validated[0]] + KeepFirstRecovery(validated[1..])
  }

  function Terminals(actions: seq<RejectionAction>): seq<RejectionAction> {
    if actions == [] then []
    else (if actions[0].Terminal? then [actions[0]] else []) + Terminals(actions[1..])
  }

  lemma {:induction false} KeepFirstRecoverySnoc(actions: seq<RejectionAction>, last: RejectionAction)
    ensures KeepFirstRecovery(actions + [last])
         == if last.Recover? && RequestsRecovery(actions) then KeepFirstRecovery(actions)
            else KeepFirstRecovery(actions) + [last]
  {
    if actions == [] {
    } else {
      var rest := actions[1..];
      assert (actions + [last])[1..] == rest + [last];
      assert RequestsRecovery(actions) <==> actions[0].Recover? || RequestsRecovery(rest) by {
        assert forall i :: 0 <= i < |rest| ==> rest[i] == actions[i + 1];
        assert forall i :: 1 <= i < |actions| ==> actions[i] == rest[i - 1];
      }
      if actions[0].Recover? {
        TerminalsSnoc(rest, last);
      } else {
        KeepFirstRecoverySnoc(rest, last);
      }
    }
  }

  lemma {:induction false} TerminalsSnoc(actions: seq<RejectionAction>, last: RejectionAction)
    ensures Terminals(actions + [last]) == Terminals(actions) + (if last.Terminal? then [last] else [])
  {
    if actions != [] {
      assert (actions + [last])[1..] == actions[1..] + [last];
      TerminalsSnoc(actions[1..], last);
    }
  }

  lemma {:induction false} RecoverySurvives(actions: seq<RejectionAction>)
    ensures RequestsRecovery(KeepFirstRecovery(actions)) == RequestsRecovery(actions)
  {
    if actions != [] {
      var kept := KeepFirstRecovery(actions);
      assert kept[0] == actions[0];
      if !actions[0].Recover? {
        var rest := actions[1..];
        RecoverySurvives(rest);
        assert kept[1..] == KeepFirstRecovery(rest);
        assert forall i :: 1 <= i < |actions| ==> actions[i] == rest[i - 1];
        assert forall i :: 1 <= i < |kept| ==> kept[i] == kept[1..][i - 1];
        if RequestsRecovery(rest) {
          var i :| 0 <= i < |kept[1..]| && kept[1..][i].Recover?;
          assert kept[i + 1].Recover?;
          var j :| 0 <= j < |rest| && rest[j].Recover?;
          assert actions[j + 1].Recover?;
        }
      }
    }
  }

  /** The aggregate drops recoveries after the first and nothing else, whatever is appended. */
  lemma {:induction false} AggregateKeepsFirstRecovery(validated: seq<RejectionAction>)
    ensures AppendAll(validated) == KeepFirstRecovery(validated)
  {
    if validated != [] {
      var init, last := validated[..|validated| - 1], validated[|validated| - 1];
      assert validated == init + [last];
      AggregateKeepsFirstRecovery(init);
      RecoverySurvives(init);
      KeepFirstRecoverySnoc(init, last);
    }
  }
}
