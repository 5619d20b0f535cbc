/**
One request from its first execution to its result: classifying a challenged
response, and the loop with its single authentication recovery.
*/
module RequestDriver {
  import opened Prelude
  import opened CredentialSlots
  import opened AuthRejection
  import opened BodyAdapters
  import opened BodyReplay

  // ----- classifying a response

  /** The authentication of an endpoint: its requirements, and the binding of each credential that has one. */
  datatype Protection = Protection(requirements: seq<AuthRequirement>, bindings: map<string, Binding>)

  predicate SameUse(requirement: AuthRequirement, applied: AppliedCredential) {
    && requirement.credential == applied.credential
    && requirement.usage == applied.usage
    && requirement.step == applied.step
  }

  /** The first requirement for the applied use. */
  function FindRequirement(requirements: seq<AuthRequirement>, applied: AppliedCredential): (r: Option<AuthRequirement>)
    ensures r.Some? ==> r.value in requirements && SameUse(r.value, applied)
    ensures r.None? ==> forall i :: 0 <= i < |requirements| ==> !SameUse(requirements[i], applied)
  {
    if requirements == [] then None
    else if SameUse(requirements[0], applied) then Some(requirements[0])
    else FindRequirement(requirements[1..], applied)
  }

  function Mismatch(message: string): AuthError {
    NewError(InvalidConfiguration, message)
  }

  /** The action planned for one applied use on its own. */
  function PlanUse(protection: Protection, applied: AppliedCredential, status: nat)
    : Result<RejectionAction, AuthError>
  {
    match FindRequirement(protection.requirements, applied)
    case None => Err(Mismatch("authentication requirement use was not applied"))
    case Some(requirement) =>
      if requirement.credential !in protection.bindings then
        Err(Mismatch("authentication requirement has no generated provider binding"))
      else PlanRejection(protection.bindings[requirement.credential], requirement, applied, status)
  }

  predicate AlreadyPlanned(actions: seq<RejectionAction>, requirement: AuthRequirement, applied: AppliedCredential) {
    exists i :: 0 <= i < |actions| && ActionMatches(actions[i], requirement, applied)
  }

  function ClassifyUse(protection: Protection, actions: seq<RejectionAction>, applied: AppliedCredential, status: nat)
    : Result<seq<RejectionAction>, AuthError>
  {
    var planned := PlanUse(protection, applied, status);
    if planned.Err? then Err(planned.error)
    else
      var requirement := FindRequirement(protection.requirements, applied).value;
      if !ActionMatches(planned.value, requirement, applied) then
        Err(Mismatch("authentication rejection action did not match its planning pair"))
      else if AlreadyPlanned(actions, requirement, applied) then
        Err(Mismatch("duplicate authentication rejection action for one applied use"))
      else Ok(Appended(actions, planned.value))
  }

  function ClassifyUses(protection: Protection, uses: seq<AppliedCredential>, status: nat)
    : Result<seq<RejectionAction>, AuthError>
  {
    if uses == [] then Ok([])
    else
      match ClassifyUses(protection, uses[..|uses| - 1], status)
      case Err(e) => Err(e)
      case Ok(actions) => ClassifyUse(protection, actions, uses[|uses| - 1], status)
  }

  predicate IsProtectedRejection(protection: Protection, status: nat) {
    (status == UNAUTHORIZED || status == FORBIDDEN) && protection.requirements != []
  }

  function ClassifySpec(protection: Protection, uses: seq<AppliedCredential>, status: nat)
    : Result<Option<seq<RejectionAction>>, AuthError>
  {
    if !IsProtectedRejection(protection, status) then Ok(None)
    else
      match ClassifyUses(protection, uses, status)
      case Err(e) => Err(e)
      case Ok(actions) => Ok(if actions == [] then None else Some(actions))
  }

  lemma {:induction false} ClassifyingStops(protection: Protection, uses: seq<AppliedCredential>, status: nat, k: nat)
    requires k <= |uses| && ClassifyUses(protection, uses[..k], status).Err?
    ensures ClassifyUses(protection, uses, status) == ClassifyUses(protection, uses[..k], status)
    decreases |uses|
  {
    if k == |uses| {
      assert uses[..k] == uses;
    } else {
      assert uses[..|uses| - 1][..k] == uses[..k];
      ClassifyingStops(protection, uses[..|uses| - 1], status, k);
    }
  }

  method ClassifyAuthRejection(protection: Protection, uses: seq<AppliedCredential>, status: nat)
    returns (r: Result<Option<seq<RejectionAction>>, AuthError>)
    ensures r == ClassifySpec(protection, uses, status)
  {
    if !IsProtectedRejection(protection, status) {
      return Ok(None);
    }
    var aggregate := new AuthRejectionPlan();
    for k := 0 to |uses|
      invariant fresh(aggregate)
      invariant ClassifyUses(protection, uses[..k], status) == Ok(aggregate.actions)
    {
      assert uses[..k + 1][..k] == uses[..k];
      var applied := uses[k];
      var planned := PlanUse(protection, applied, status);
      if planned.Err? {
        ClassifyingStops(protection, uses, status, k + 1);
        return Err(planned.error);
      }
      var requirement := FindRequirement(protection.requirements, applied).value;
      if !ActionMatches(planned.value, requirement, applied) {
        ClassifyingStops(protection, uses, status, k + 1);
        return Err(Mismatch("authentication rejection action did not match its planning pair"));
      }
      if AlreadyPlanned(aggregate.actions, requirement, applied) {
        ClassifyingStops(protection, uses, status, k + 1);
        return Err(Mismatch("duplicate authentication rejection action for one applied use"));
      }
      aggregate.AppendValidated(planned.value);
    }
    assert uses[..|uses|] == uses;
    return Ok(if aggregate.actions == [] then None else Some(aggregate.actions));
  }

  /** Every use can be planned on its own. */
  ghost predicate AllPlannable(protection: Protection, uses: seq<AppliedCredential>, status: nat) {
    forall i :: 0 <= i < |uses| ==> PlanUse(protection, uses[i], status).Ok?
  }

  function PlanUses(protection: Protection, uses: seq<AppliedCredential>, status: nat): seq<RejectionAction>
    requires AllPlannable(protection, uses, status)
  {
    seq(|uses|, i requires 0 <= i < |uses| => PlanUse(protection, uses[i], status).value)
  }

  /**
  A classified response carries the planned action of every applied use in
  order, with recoveries after the first left out.
  */
  lemma {:induction false} ClassificationAggregates(protection: Protection, uses: seq<AppliedCredential>, status: nat)
    requires ClassifyUses(protection, uses, status).Ok?
    ensures AllPlannable(protection, uses, status)
    ensures ClassifyUses(protection, uses, status).value == KeepFirstRecovery(PlanUses(protection, uses, status))
  {
    ClassifiedIsAppended(protection, uses, status);
    AggregateKeepsFirstRecovery(PlanUses(protection, uses, status));
  }

  lemma ClassifyUseAppends(protection: Protection, actions: seq<RejectionAction>, applied: AppliedCredential,
                           status: nat)
    requires ClassifyUse(protection, actions, applied, status).Ok?
    ensures PlanUse(protection, applied, status).Ok?
    ensures ClassifyUse(protection, actions, applied, status).value
         == Appended(actions, PlanUse(protection, applied, status).value)
  {
  }

  lemma PlanUsesSnoc(protection: Protection, init: seq<AppliedCredential>, last: AppliedCredential, status: nat)
    requires AllPlannable(protection, init, status) && PlanUse(protection, last, status).Ok?
    ensures AllPlannable(protection, init + [last], status)
    ensures PlanUses(protection, init + [last], status)
         == PlanUses(protection, init, status) + [PlanUse(protection, last, status).value]
  {
  }

  lemma AppendAllSnoc(actions: seq<RejectionAction>, last: RejectionAction)
    ensures AppendAll(actions + [last]) == Appended(AppendAll(actions), last)
  {
    assert (actions + [last])[..|actions|] == actions;
  }

  lemma {:induction false} ClassifiedIsAppended(protection: Protection, uses: seq<AppliedCredential>, status: nat)
    requires ClassifyUses(protection, uses, status).Ok?
    ensures AllPlannable(protection, uses, status)
    ensures ClassifyUses(protection, uses, status).value == AppendAll(PlanUses(protection, uses, status))
  {
    if uses != [] {
      var init, last := uses[..|uses| - 1], uses[|uses| - 1];
      assert uses == init + [last];
      ClassifiedIsAppended(protection, init, status);
      ClassifyUseAppends(protection, ClassifyUses(protection, init, status).value, last, status);
      PlanUsesSnoc(protection, init, last, status);
      AppendAllSnoc(PlanUses(protection, init, status), PlanUse(protection, last, status).value);
    }
  }

  /** The use is challenged, and its credential can be refreshed. */
  predicate Recovers(protection: Protection, applied: AppliedCredential, status: nat)
    requires PlanUse(protection, applied, status).Ok?
  {
    var requirement := FindRequirement(protection.requirements, applied).value;
    protection.bindings[requirement.credential].refreshOnChallenge && Challenges(status, requirement.challenge)
  }

  lemma PlannedRecoversIff(protection: Protection, applied: AppliedCredential, status: nat)
    requires PlanUse(protection, applied, status).Ok?
    ensures PlanUse(protection, applied, status).value.Recover? <==> Recovers(protection, applied, status)
  {
    var requirement := FindRequirement(protection.requirements, applied).value;
    ChallengeReachesSlot(Inner(Empty(0), 1), protection.bindings[requirement.credential], requirement, applied, status);
  }

  /** A classified response asks for a recovery exactly when some use is challenged and can be refreshed. */
  lemma ClassificationRecoversIff(protection: Protection, uses: seq<AppliedCredential>, status: nat)
    requires ClassifyUses(protection, uses, status).Ok?
    ensures AllPlannable(protection, uses, status)
    ensures RequestsRecovery(ClassifyUses(protection, uses, status).value)
       <==> exists i :: 0 <= i < |uses| && Recovers(protection, uses[i], status)
  {
    ClassificationAggregates(protection, uses, status);
    var planned := PlanUses(protection, uses, status);
    RecoverySurvives(planned);
    forall i | 0 <= i < |uses|
      ensures planned[i].Recover? <==> Recovers(protection, uses[i], status)
    {
      PlannedRecoversIff(protection, uses[i], status);
    }
  }

  /** The action belongs to a use and a requirement of it, so that applying it finds both. */
  ghost predicate Resolves(protection: Protection, uses: seq<AppliedCredential>, action: RejectionAction) {
    exists requirement, applied ::
      requirement in protection.requirements && applied in uses && SameUse(requirement, applied)
      && ActionMatches(action, requirement, applied)
  }

  /** Applying a classified plan resolves every action: the check before the first mutation never fails. */
  lemma {:induction false} ClassifiedPlanResolves(protection: Protection, uses: seq<AppliedCredential>, status: nat)
    requires ClassifyUses(protection, uses, status).Ok?
    ensures var actions := ClassifyUses(protection, uses, status).value;
            forall i :: 0 <= i < |actions| ==> Resolves(protection, uses, actions[i])
  {
    if uses != [] {
      var init, last := uses[..|uses| - 1], uses[|uses| - 1];
      ClassifiedPlanResolves(protection, init, status);
      var before := ClassifyUses(protection, init, status).value;
      var actions := ClassifyUses(protection, uses, status).value;
      forall i | 0 <= i < |actions|
        ensures Resolves(protection, uses, actions[i])
      {
        if i < |before| {
          assert actions[i] == before[i];
          var requirement, applied :|
            requirement in protection.requirements && applied in init && SameUse(requirement, applied)
            && ActionMatches(actions[i], requirement, applied);
          assert applied in uses;
        } else {
          assert last in uses && FindRequirement(protection.requirements, last).value in protection.requirements;
        }
      }
    }
  }

  // ----- when classification succeeds

  /**
  A use can be planned exactly when the first requirement for its credential,
  usage and step has a binding, and that binding serves the requirement's slot.
  */
  lemma PlannableIff(protection: Protection, applied: AppliedCredential, status: nat)
    ensures PlanUse(protection, applied, status).Ok? <==>
              && (exists i :: 0 <= i < |protection.requirements| && SameUse(protection.requirements[i], applied))
              && applied.credential in protection.bindings
              && protection.bindings[applied.credential].slot == applied.credential
  {
    var found := FindRequirement(protection.requirements, applied);
    if found.Some? {
      var i :| 0 <= i < |protection.requirements| && protection.requirements[i] == found.value;
      assert SameUse(protection.requirements[i], applied);
    }
  }

  predicate SameAppliedUse(a: AppliedCredential, b: AppliedCredential) {
    a.credential == b.credential && a.usage == b.usage && a.step == b.step && a.generation == b.generation
  }

  /** A planned action carries the data of its use. */
  lemma PlannedIsForItsUse(protection: Protection, applied: AppliedCredential, status: nat)
    requires PlanUse(protection, applied, status).Ok?
    ensures var action := PlanUse(protection, applied, status).value;
            && action.credential == applied.credential && action.usage == applied.usage
            && action.step == applied.step && action.generation == applied.generation
            && ActionMatches(action, FindRequirement(protection.requirements, applied).value, applied)
  {
  }

  /** Every action kept so far was planned for some earlier use. */
  lemma {:induction false} KeptComeFromUses(protection: Protection, uses: seq<AppliedCredential>, status: nat, i: nat)
    requires ClassifyUses(protection, uses, status).Ok? && i < |ClassifyUses(protection, uses, status).value|
    ensures AllPlannable(protection, uses, status)
    ensures var action := ClassifyUses(protection, uses, status).value[i];
            exists j :: 0 <= j < |uses| && action == PlanUse(protection, uses[j], status).value
  {
    ClassifiedIsAppended(protection, uses, status);
    var init, last := uses[..|uses| - 1], uses[|uses| - 1];
    var before := ClassifyUses(protection, init, status).value;
    ClassifyUseAppends(protection, before, last, status);
    if i < |before| {
      KeptComeFromUses(protection, init, status, i);
      var j :| 0 <= j < |init| && before[i] == PlanUse(protection, init[j], status).value;
      assert uses[j] == init[j];
    }
  }

  /** Uses of one request that differ in credential, usage, step or generation. */
  ghost predicate DistinctUses(uses: seq<AppliedCredential>) {
    forall i, j :: 0 <= i < j < |uses| ==> !SameAppliedUse(uses[i], uses[j])
  }

  /** Classifying the different uses of one request succeeds exactly when each of them can be planned. */
  lemma {:induction false} ClassificationSucceedsIff(protection: Protection, uses: seq<AppliedCredential>, status: nat)
    requires DistinctUses(uses)
    ensures ClassifyUses(protection, uses, status).Ok? <==> AllPlannable(protection, uses, status)
  {
    if uses != [] {
      var init, last := uses[..|uses| - 1], uses[|uses| - 1];
      assert forall i :: 0 <= i < |init| ==> init[i] == uses[i];
      ClassificationSucceedsIff(protection, init, status);
      if AllPlannable(protection, uses, status) {
        assert AllPlannable(protection, init, status);
        LastUseIsNew(protection, uses, status);
        PlannedIsForItsUse(protection, last, status);
      } else if ClassifyUses(protection, uses, status).Ok? {
        ClassifiedIsAppended(protection, uses, status);
      }
    }
  }

  lemma LastUseIsNew(protection: Protection, uses: seq<AppliedCredential>, status: nat)
    requires uses != [] && DistinctUses(uses) && AllPlannable(protection, uses, status)
    requires ClassifyUses(protection, uses[..|uses| - 1], status).Ok?
    ensures var last := uses[|uses| - 1];
            !AlreadyPlanned(ClassifyUses(protection, uses[..|uses| - 1], status).value,
                            FindRequirement(protection.requirements, last).value, last)
  {
    var init, last := uses[..|uses| - 1], uses[|uses| - 1];
    var before := ClassifyUses(protection, init, status).value;
    var requirement := FindRequirement(protection.requirements, last).value;
    forall i | 0 <= i < |before|
      ensures !ActionMatches(before[i], requirement, last)
    {
      KeptComeFromUses(protection, init, status, i);
      var j :| 0 <= j < |init| && before[i] == PlanUse(protection, init[j], status).value;
      PlannedIsForItsUse(protection, init[j], status);
      assert init[j] == uses[j];
      assert !SameAppliedUse(uses[j], last);
    }
  }

  /** A second use that equals an earlier kept one is refused, whatever else the request applied. */
  lemma RepeatedUseIsRefused(protection: Protection, actions: seq<RejectionAction>, applied: AppliedCredential,
                             status: nat, i: nat)
    requires i < |actions| && PlanUse(protection, applied, status).Ok?
    requires actions[i].credential == applied.credential && actions[i].usage == applied.usage
             && actions[i].step == applied.step && actions[i].generation == applied.generation
    ensures ClassifyUse(protection, actions, applied, status).Err?
  {
    PlannedIsForItsUse(protection, applied, status);
    assert ActionMatches(actions[i], FindRequirement(protection.requirements, applied).value, applied);
  }

  /**
  The answers that are looked at: 401 and 403 of an endpoint with requirements,
  if any credential was applied; every other answer is no rejection.
  */
  lemma ProtectedAnswersAreClassified(protection: Protection, uses: seq<AppliedCredential>, status: nat)
    ensures var r, kept := ClassifySpec(protection, uses, status), ClassifyUses(protection, uses, status);
            if (status == 401 || status == 403) && |protection.requirements| > 0 then
              && (kept.Err? ==> r == Err(kept.error))
              && (kept.Ok? ==> r == Ok(if uses == [] then None else Some(kept.value)))
            else r == Ok(None)
  {
    if uses != [] && ClassifyUses(protection, uses, status).Ok? {
      var init, last := uses[..|uses| - 1], uses[|uses| - 1];
      ClassifyUseAppends(protection, ClassifyUses(protection, init, status).value, last, status);
      SomethingIsKept(ClassifyUses(protection, init, status).value, PlanUse(protection, last, status).value);
    }
  }

  lemma SomethingIsKept(actions: seq<RejectionAction>, action: RejectionAction)
    ensures Appended(actions, action) != []
  {
  }

  // ----- the loop of one request

  /**
  What the outside does in one execution: whether the public head can be made,
  the uses its authentication applies, what a body factory returns, whether the
  message can be finished, the status that comes back (none if sending fails),
  and whether the slots accept the rejection of this execution.
  */
  datatype Execution = Execution(
    head: bool, prepared: Result<seq<AppliedCredential>, AuthError>, factory: Result<Terminal, BodyError>,
    finished: bool, status: Option<nat>, accepted: bool)

  datatype DriveEvent = Sent(execution: nat) | Rejected(execution: nat, actions: seq<RejectionAction>)

  datatype DriveResult =
    | HeadFailed
    | RejectionFailed
    | PreparationFailed(error: AuthError)
    | BodyFailed(failure: ProductionError)
    | FinishFailed
    | TransportFailed
    | ClassificationFailed(error: AuthError)
    | ChallengeStatus(status: nat)
    | ChallengeRejected
    | Answered(status: nat)

  /** A finished request and what it did on the way. */
  datatype Driven = Driven(result: DriveResult, log: seq<DriveEvent>)

  /** The endpoint's authentication, the outside, and whether the body could be rebuilt when the request began. */
  datatype Request = Request(protection: Protection, outside: nat -> Execution, rebuildable: bool)

  /** The plan for the answer to execution `k`, if one came back and is classified as a rejection. */
  function PlanFor(request: Request, k: nat): Result<Option<seq<RejectionAction>>, AuthError> {
    var here := request.outside(k);
    if here.prepared.Err? || here.status.None? then Ok(None)
    else ClassifySpec(request.protection, here.prepared.value, here.status.value)
  }

  /** One turn of the loop ends the request or sets up its recovery. */
  datatype Turned = Ended(driven: Driven) | Resend(body: Prepared, actions: seq<RejectionAction>, log: seq<DriveEvent>)

  /** What follows the answer to execution `k`. */
  function Settled(request: Request, b: Prepared, k: nat, status: nat, initiated: bool, log: seq<DriveEvent>): Turned {
    match PlanFor(request, k)
    case Err(e) => Ended(Driven(ClassificationFailed(e), log))
    case Ok(None) => Ended(Driven(Answered(status), log))
    case Ok(Some(actions)) =>
      if RequestsRecovery(actions) && request.rebuildable && !initiated then Resend(b, actions, log)
      else
        var result :=
          if !request.outside(k).accepted then RejectionFailed
          else if RequestsRecovery(actions) && !request.rebuildable then ChallengeStatus(status)
          else ChallengeRejected;
        Ended(Driven(result, log + [Rejected(k, actions)]))
  }

  /** One execution, from its prepared authentication to what follows its answer. */
  function Executed(request: Request, b: Prepared, k: nat, initiated: bool, log: seq<DriveEvent>): Turned {
    var here := request.outside(k);
    var (b', produced) := Produce(b, here.factory);
    if here.prepared.Err? then Ended(Driven(PreparationFailed(here.prepared.error), log))
    else if produced.Err? then Ended(Driven(BodyFailed(produced.error), log))
    else if !here.finished then Ended(Driven(FinishFailed, log))
    else if here.status.None? then Ended(Driven(TransportFailed, log + [Sent(k)]))
    else Settled(request, b', k, here.status.value, initiated, log + [Sent(k)])
  }

  /** The second and last execution, which first applies the rejection of the first. */
  function Recovered(request: Request, b: Prepared, actions: seq<RejectionAction>, log: seq<DriveEvent>): Turned {
    if !request.outside(1).head then Ended(Driven(HeadFailed, log))
    else if !request.outside(0).accepted then Ended(Driven(RejectionFailed, log + [Rejected(0, actions)]))
    else Executed(request, b, 1, true, log + [Rejected(0, actions)])
  }

  /** The whole request: an execution, and after a recoverable challenge one more. */
  function DriveSpec(request: Request, b: Prepared): Driven {
    if !request.outside(0).head then Driven(HeadFailed, [])
    else
      match Executed(request, b, 0, false, [])
      case Ended(driven) => driven
      case Resend(b', actions, log) =>
        match Recovered(request, b', actions, log)
        case Ended(driven) => driven
        case Resend(_, _, _) => assert false; Driven(HeadFailed, [])
  }

  /** The loop with its recovery budget and its pending rejection. */
  method DriveExecutions(request: Request, body: PreparedBody) returns (driven: Driven)
    modifies body
    ensures driven == DriveSpec(request, old(body.Value()))
  {
    var initiated := false;
    var pending: Option<seq<RejectionAction>> := None;
    var log: seq<DriveEvent> := [];
    var k := 0;
    while true
      invariant initiated == pending.Some? && k == if initiated then 1 else 0
      invariant !initiated ==> body.Value() == old(body.Value()) && log == []
      invariant initiated ==>
                  && request.outside(0).head
                  && Executed(request, old(body.Value()), 0, false, []) == Resend(body.Value(), pending.value, log)
      decreases !initiated
    {
      var here := request.outside(k);
      if !here.head {
        return Driven(HeadFailed, log);
      }
      if pending.Some? {
        log := log + [Rejected(k - 1, pending.value)];
        if !request.outside(k - 1).accepted {
          return Driven(RejectionFailed, log);
        }
      }
      if here.prepared.Err? {
        return Driven(PreparationFailed(here.prepared.error), log);
      }
      var produced := body.ProduceForExecution(here.factory);
      if produced.Err? {
        return Driven(BodyFailed(produced.error), log);
      }
      if !here.finished {
        return Driven(FinishFailed, log);
      }
      log := log + [Sent(k)];
      if here.status.None? {
        return Driven(TransportFailed, log);
      }
      var classified := ClassifyAuthRejection(request.protection, here.prepared.value, here.status.value);
      if classified.Err? {
        return Driven(ClassificationFailed(classified.error), log);
      }
      if classified.value.None? {
        return Driven(Answered(here.status.value), log);
      }
      var actions := classified.value.value;
      if RequestsRecovery(actions) && request.rebuildable && !initiated {
        initiated := true;
        pending := Some(actions);
        k := k + 1;
      } else {
        var failure :=
          if !here.accepted then RejectionFailed
          else if RequestsRecovery(actions) && !request.rebuildable then ChallengeStatus(here.status.value)
          else ChallengeRejected;
        return Driven(failure, log + [Rejected(k, actions)]);
      }
    }
  }

  // ----- what every request keeps

  /** The place of an event in a request. */
  function Place(e: DriveEvent): nat {
    if e.Sent? then 2 * e.execution else 2 * e.execution + 1
  }

  /** Events come in order, each at most once, from at most two executions. */
  ghost predicate Ordered(log: seq<DriveEvent>) {
    && (forall i :: 0 <= i < |log| ==> log[i].execution < 2)
    && (forall i, j :: 0 <= i < j < |log| ==> Place(log[i]) < Place(log[j]))
  }

  /**
  Every rejection that is applied answers an execution that was sent. An
  execution whose answer is classified as a rejection has exactly that rejection
  applied, unless the request stops because the head of its recovery cannot be
  made.
  */
  ghost predicate RejectionsApplied(request: Request, driven: Driven) {
    && (forall k, actions :: Rejected(k, actions) in driven.log ==>
          Sent(k) in driven.log && PlanFor(request, k) == Ok(Some(actions)))
    && (forall k :: Sent(k) in driven.log && PlanFor(request, k).Ok? && PlanFor(request, k).value.Some? ==>
          (Rejected(k, PlanFor(request, k).value.value) in driven.log <==> !driven.result.HeadFailed?))
  }

  /** A second execution follows only an accepted rejection that asked for recovery, with a body that can be rebuilt. */
  ghost predicate ResendsSafely(request: Request, log: seq<DriveEvent>) {
    Sent(1) in log ==>
      && request.rebuildable && request.outside(0).accepted
      && PlanFor(request, 0).Ok? && PlanFor(request, 0).value.Some?
      && RequestsRecovery(PlanFor(request, 0).value.value)
      && Rejected(0, PlanFor(request, 0).value.value) in log
  }

  /** A status is returned only for the last thing the request did, an execution whose answer is no rejection. */
  ghost predicate AnswersLast(request: Request, driven: Driven) {
    driven.result.Answered? ==>
      && driven.log != [] && driven.log[|driven.log| - 1].Sent?
      && var k := driven.log[|driven.log| - 1].execution;
         request.outside(k).status == Some(driven.result.status) && PlanFor(request, k) == Ok(None)
  }

  /** The answer to execution `k` is classified as a rejection. */
  predicate IsRejected(request: Request, k: nat) {
    PlanFor(request, k).Ok? && PlanFor(request, k).value.Some?
  }

  /** What one execution that ends the request adds to the log. */
  predicate EndsWith(request: Request, k: nat, before: seq<DriveEvent>, driven: Driven) {
    && !driven.result.HeadFailed?
    && (driven.result.Answered? ==>
          && driven.log == before + [Sent(k)] && PlanFor(request, k) == Ok(None)
          && request.outside(k).status == Some(driven.result.status))
    && (|| driven.log == before
        || (driven.log == before + [Sent(k)] && !IsRejected(request, k))
        || (IsRejected(request, k) && driven.log == before + [Sent(k), Rejected(k, PlanFor(request, k).value.value)]))
  }

  lemma ExecutionEndsOrResends(request: Request, b: Prepared, k: nat, initiated: bool, log: seq<DriveEvent>)
    ensures match Executed(request, b, k, initiated, log)
            case Ended(driven) => EndsWith(request, k, log, driven)
            case Resend(_, actions, log') =>
              && log' == log + [Sent(k)] && PlanFor(request, k) == Ok(Some(actions))
              && request.rebuildable && RequestsRecovery(actions) && !initiated
  {
    if IsRejected(request, k) {
      var actions := PlanFor(request, k).value.value;
      assert log + [Sent(k)] + [Rejected(k, actions)] == log + [Sent(k), Rejected(k, actions)];
    }
  }

  ghost predicate GoodRequest(request: Request, driven: Driven) {
    && Ordered(driven.log) && RejectionsApplied(request, driven)
    && ResendsSafely(request, driven.log) && AnswersLast(request, driven)
  }

  lemma FirstEndIsGood(request: Request, driven: Driven)
    requires EndsWith(request, 0, [], driven)
    ensures GoodRequest(request, driven)
  {
  }

  /** The request recovered from the rejection of its first execution. */
  predicate Recovering(request: Request, actions: seq<RejectionAction>) {
    PlanFor(request, 0) == Ok(Some(actions)) && request.rebuildable && RequestsRecovery(actions)
  }

  lemma UnsentRecoveryIsGood(request: Request, actions: seq<RejectionAction>, driven: Driven)
    requires Recovering(request, actions)
    requires driven.log == if driven.result.HeadFailed? then [Sent(0)] else [Sent(0), Rejected(0, actions)]
    requires !driven.result.Answered?
    ensures GoodRequest(request, driven)
  {
  }

  lemma SentRecoveryIsGood(request: Request, actions: seq<RejectionAction>, driven: Driven)
    requires Recovering(request, actions) && request.outside(0).accepted && !driven.result.HeadFailed?
    requires if IsRejected(request, 1)
             then driven.log == [Sent(0), Rejected(0, actions), Sent(1), Rejected(1, PlanFor(request, 1).value.value)]
             else driven.log == [Sent(0), Rejected(0, actions), Sent(1)]
    requires AnswersLast(request, driven)
    ensures GoodRequest(request, driven)
  {
    assert driven.log[0] == Sent(0) && driven.log[1] == Rejected(0, actions) && driven.log[2] == Sent(1);
    assert IsRejected(request, 1) ==> driven.log[3] == Rejected(1, PlanFor(request, 1).value.value);
  }

  lemma SecondEndIsGood(request: Request, b: Prepared, actions: seq<RejectionAction>)
    requires Recovering(request, actions)
    ensures var turned := Recovered(request, b, actions, [Sent(0)]);
            turned.Ended? && GoodRequest(request, turned.driven)
  {
    var before := [Sent(0), Rejected(0, actions)];
    assert [Sent(0)] + [Rejected(0, actions)] == before;
    ExecutionEndsOrResends(request, b, 1, true, before);
    var driven := Recovered(request, b, actions, [Sent(0)]).driven;
    if Sent(1) in driven.log {
      SentRecoveryIsGood(request, actions, driven);
    } else {
      UnsentRecoveryIsGood(request, actions, driven);
    }
  }

  /**
  A request sends its events in order and at most twice, applies every
  rejection it is answered with, resends only after an accepted one and with a
  body that can be rebuilt, and a body that was fresh when it began never fails
  it as already consumed.
  */
  lemma RequestIsHandled(request: Request, b: Prepared)
    requires request.rebuildable == IsReplayable(b) && !Consumed(b)
    ensures GoodRequest(request, DriveSpec(request, b))
    ensures DriveSpec(request, b).result != BodyFailed(AlreadyConsumed)
  {
    if request.outside(0).head {
      ExecutionEndsOrResends(request, b, 0, false, []);
      ProduceOnce(b, request.outside(0).factory);
      var turned := Executed(request, b, 0, false, []);
      if turned.Ended? {
        FirstEndIsGood(request, turned.driven);
      } else {
        assert [] + [Sent(0)] == [Sent(0)];
        SecondEndIsGood(request, turned.body, turned.actions);
        assert turned.body == b;
        ProduceOnce(b, request.outside(1).factory);
      }
    }
  }

  // ----- what every request comes to

  /** Execution `k` gets as far as an answer, if the loop gets to it. */
  predicate GetsAnswer(request: Request, b: Prepared, k: nat) {
    var here := request.outside(k);
    here.head && here.prepared.Ok? && Produce(b, here.factory).1.Ok? && here.finished && here.status.Some?
  }

  /** The first answer is a rejection with a recovery, and the body can be rebuilt. */
  predicate CallsForResend(request: Request) {
    request.rebuildable && IsRejected(request, 0) && RequestsRecovery(PlanFor(request, 0).value.value)
  }

  /** The result of a request whose last answer was that of execution `k`. */
  function ResultOf(request: Request, k: nat, status: nat): DriveResult {
    var plan := PlanFor(request, k);
    if plan.Err? then ClassificationFailed(plan.error)
    else if plan.value.None? then Answered(status)
    else if !request.outside(k).accepted then RejectionFailed
    else if RequestsRecovery(plan.value.value) && !request.rebuildable then ChallengeStatus(status)
    else ChallengeRejected
  }

  /**
  A first answer that is no recoverable rejection ends the request: with its
  status if it is no rejection, and otherwise with what became of the rejection.
  */
  lemma FirstAnswerEnds(request: Request, b: Prepared)
    requires GetsAnswer(request, b, 0) && !CallsForResend(request)
    ensures var driven := DriveSpec(request, b);
            && driven.result == ResultOf(request, 0, request.outside(0).status.value)
            && Sent(0) in driven.log && Sent(1) !in driven.log
  {
    var log: seq<DriveEvent> := [];
    assert log + [Sent(0)] == [Sent(0)];
  }

  /**
  A recoverable rejection that is accepted is followed by a second execution,
  and its answer ends the request, whatever it is.
  */
  lemma SecondAnswerEnds(request: Request, b: Prepared)
    requires request.rebuildable == IsReplayable(b)
    requires GetsAnswer(request, b, 0) && GetsAnswer(request, b, 1)
    requires CallsForResend(request) && request.outside(0).accepted
    ensures var driven := DriveSpec(request, b);
            && driven.result == ResultOf(request, 1, request.outside(1).status.value)
            && Sent(0) in driven.log && Sent(1) in driven.log
  {
    ProduceOnce(b, request.outside(0).factory);
    var log: seq<DriveEvent> := [];
    assert log + [Sent(0)] == [Sent(0)];
  }

  /** What stops a recovery: its head, the slots, its preparation, its body, its message or its sending, in order. */
  lemma RecoveryStops(request: Request, b: Prepared)
    requires request.rebuildable == IsReplayable(b)
    requires GetsAnswer(request, b, 0) && CallsForResend(request)
    ensures var (result, here) := (DriveSpec(request, b).result, request.outside(1));
            && (!here.head ==> result == HeadFailed)
            && (here.head && !request.outside(0).accepted ==> result == RejectionFailed)
            && (here.head && request.outside(0).accepted ==>
                  && (here.prepared.Err? ==> result == PreparationFailed(here.prepared.error))
                  && (here.prepared.Ok? ==>
                        var made := Produce(b, here.factory).1;
                        && (made.Err? ==> result == BodyFailed(made.error))
                        && (made.Ok? && !here.finished ==> result == FinishFailed)
                        && (made.Ok? && here.finished && here.status.None? ==> result == TransportFailed)))
  {
    ProduceOnce(b, request.outside(0).factory);
  }

  /** What stops a first execution, in the same order. */
  lemma FirstExecutionStops(request: Request, b: Prepared)
    ensures var (driven, here) := (DriveSpec(request, b), request.outside(0));
            && (!here.head ==> driven == Driven(HeadFailed, []))
            && (here.head && here.prepared.Err? ==> driven == Driven(PreparationFailed(here.prepared.error), []))
            && (here.head && here.prepared.Ok? ==>
                  var made := Produce(b, here.factory).1;
                  && (made.Err? ==> driven == Driven(BodyFailed(made.error), []))
                  && (made.Ok? && !here.finished ==> driven == Driven(FinishFailed, []))
                  && (made.Ok? && here.finished && here.status.None? ==> driven == Driven(TransportFailed, [Sent(0)])))
  {
    var log: seq<DriveEvent> := [];
    assert log + [Sent(0)] == [Sent(0)];
  }

  /**
  With everything else going through, a request is sent again exactly when its
  first answer is a 401 or 403 that challenges some use whose binding refreshes,
  and its body can be rebuilt.
  */
  lemma ResentIffChallenged(request: Request, b: Prepared)
    requires request.rebuildable == IsReplayable(b)
    requires GetsAnswer(request, b, 0) && GetsAnswer(request, b, 1) && request.outside(0).accepted
    requires ClassifyUses(request.protection, request.outside(0).prepared.value, request.outside(0).status.value).Ok?
    ensures var (uses, status) := (request.outside(0).prepared.value, request.outside(0).status.value);
            && AllPlannable(request.protection, uses, status)
            && (Sent(1) in DriveSpec(request, b).log <==>
                  && IsReplayable(b) && (status == 401 || status == 403) && request.protection.requirements != []
                  && exists i :: 0 <= i < |uses| && Recovers(request.protection, uses[i], status))
  {
    var uses, status := request.outside(0).prepared.value, request.outside(0).status.value;
    ProtectedAnswersAreClassified(request.protection, uses, status);
    ClassificationRecoversIff(request.protection, uses, status);
    if CallsForResend(request) {
      SecondAnswerEnds(request, b);
    } else {
      FirstAnswerEnds(request, b);
    }
  }
}
