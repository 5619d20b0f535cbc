/**
What the slot protocol promises over whole runs: no lost wake-up, leases that
never go back, final invalidation, harmless stale owners, and bounded loops.
*/
module SlotTheorems {
  import opened Prelude
  import opened CredentialSlots
  import opened AuthRejection
  import opened SlotProtocol
  import opened SlotInvariants

  // ----- runs

  lemma {:induction false} RunAppend(w: World, first: seq<Label>, second: seq<Label>)
    ensures Run(w, first + second) == Run(Run(w, first), second)
    decreases |first|
  {
    if first == [] {
      assert first + second == second;
    } else {
      assert (first + second)[1..] == first[1..] + second;
      RunAppend(Step(w, first[0]), first[1..], second);
    }
  }

  lemma ReachableRun(w: World, labels: seq<Label>)
    requires Reachable(w)
    ensures Reachable(Run(w, labels))
  {
    var n: nat, time, before :| StartsRun(n, time, before, w);
    RunAppend(Initial(n, time), before, labels);
    assert StartsRun(n, time, before + labels, Run(w, labels));
  }

  // ----- no lost wake-up

  predicate InFlight(x: Caller) {
    Armed(x) || x.Owing?
  }

  /**
  In every reachable state a running refresh has exactly one live guard, and a
  sleeping caller is registered on it or on a wake-up that is still owed.
  */
  lemma SleepersAreRegistered(w: World)
    requires Reachable(w)
    ensures w.inner.state.Refreshing? ==>
              exists c ::
                && 0 <= c < |w.callers| && Guards(w.callers[c], w.inner.state.owner)
                && forall d :: 0 <= d < |w.callers| && Guards(w.callers[d], w.inner.state.owner) ==> d == c
    ensures forall i :: 0 <= i < |w.callers| && w.callers[i].Waiting? ==>
              RunsOn(w.inner.state, w.callers[i].waitOn) || Owed(w.callers, w.callers[i].waitOn)
  {
    ReachableInv(w);
    if w.inner.state.Refreshing? {
      var c :| 0 <= c < |w.callers| && Guards(w.callers[c], w.inner.state.owner);
      assert forall d :: 0 <= d < |w.callers| && Guards(w.callers[d], w.inner.state.owner) ==> d == c;
    }
  }

  /** Once nothing is in flight nobody is asleep and no refresh is left running. */
  lemma NobodySleepsWhenQuiet(w: World)
    requires Reachable(w)
    requires forall i :: 0 <= i < |w.callers| ==> !InFlight(w.callers[i])
    ensures !w.inner.state.Refreshing?
    ensures forall i :: 0 <= i < |w.callers| ==> !w.callers[i].Waiting?
  {
    ReachableInv(w);
    assert forall n :: !Owed(w.callers, n);
  }

  /** The steps that carry an in-flight caller on. */
  predicate Finishing(a: Label) {
    a.ProviderReturns? || a.CommitCheck? || a.CommitStore? || a.DropGuard? || a.Notify?
  }

  function Rank(x: Caller): nat {
    match x
    case Calling(_, _, _) => 5
    case Returned(_, _, _, _) => 4
    case Checked(_, _, _, _, _) => 3
    case Unwinding(_) => 2
    case Owing(_) => 1
    case _ => 0
  }

  function Pending(callers: seq<Caller>): nat {
    if callers == [] then 0 else Rank(callers[0]) + Pending(callers[1..])
  }

  lemma {:induction false} PendingBound(callers: seq<Caller>)
    ensures Pending(callers) <= 5 * |callers|
  {
    if callers != [] {
      PendingBound(callers[1..]);
    }
  }

  /** Pointwise no higher, and lower at `c`, means lower in total. */
  lemma {:induction false} PendingDrops(before: seq<Caller>, after: seq<Caller>, c: int)
    requires |before| == |after| && -1 <= c < |before|
    requires forall i :: 0 <= i < |before| ==> Rank(after[i]) <= Rank(before[i])
    requires c >= 0 ==> Rank(after[c]) < Rank(before[c])
    ensures Pending(after) <= Pending(before) - (if c >= 0 then 1 else 0)
    decreases |before|
  {
    if before != [] {
      assert forall i :: 0 <= i < |before| - 1 ==> after[1..][i] == after[i + 1] && before[1..][i] == before[i + 1];
      PendingDrops(before[1..], after[1..], if c == 0 then -1 else if c > 0 then c - 1 else c);
    }
  }

  lemma FinishingStepDropsRank(w: World, a: Label)
    requires Finishing(a) && Step(w, a) != w
    ensures |Step(w, a).callers| == |w.callers| && a.c < |w.callers|
    ensures forall i :: 0 <= i < |w.callers| ==> Rank(Step(w, a).callers[i]) <= Rank(w.callers[i])
    ensures Rank(Step(w, a).callers[a.c]) < Rank(w.callers[a.c])
  {
  }

  /** Every label of the list takes effect when its turn comes. */
  predicate Effective(w: World, labels: seq<Label>)
    decreases |labels|
  {
    labels == [] || (Step(w, labels[0]) != w && Effective(Step(w, labels[0]), labels[1..]))
  }

  /** In-flight callers finish: no order of their steps goes on for longer than five steps per caller. */
  lemma InFlightStepsFinish(w: World, labels: seq<Label>)
    requires Effective(w, labels) && forall a :: a in labels ==> Finishing(a)
    ensures |labels| <= Pending(w.callers) <= 5 * |w.callers|
  {
    PendingBound(w.callers);
    PendingCoversRun(w, labels);
  }

  lemma {:induction false} PendingCoversRun(w: World, labels: seq<Label>)
    requires Effective(w, labels) && forall a :: a in labels ==> Finishing(a)
    ensures |labels| <= Pending(w.callers)
    decreases |labels|
  {
    if labels != [] {
      var a := labels[0];
      FinishingStepDropsRank(w, a);
      PendingDrops(w.callers, Step(w, a).callers, a.c);
      PendingCoversRun(Step(w, a), labels[1..]);
    }
  }

  /** The finishing step an in-flight caller has next. */
  function NextStep(w: World, c: nat): Label
    requires c < |w.callers| && InFlight(w.callers[c])
  {
    match w.callers[c]
    case Calling(_, _, _) => ProviderReturns(c, Produced(None))
    case Returned(_, _, _, _) => CommitCheck(c)
    case Checked(_, _, _, _, _) => CommitStore(c)
    case Unwinding(_) => DropGuard(c)
    case Owing(_) => Notify(c)
  }

  /** When the in-flight steps are used up, in whatever order they ran, every sleeper has been woken. */
  lemma FinishedMeansAwake(w: World, labels: seq<Label>)
    requires Reachable(w) && forall a :: a in labels ==> Finishing(a)
    requires forall a :: Finishing(a) ==> Step(Run(w, labels), a) == Run(w, labels)
    ensures forall i :: 0 <= i < |Run(w, labels).callers| ==> !Run(w, labels).callers[i].Waiting?
  {
    var done := Run(w, labels);
    ReachableRun(w, labels);
    forall c | 0 <= c < |done.callers|
      ensures !InFlight(done.callers[c])
    {
      if InFlight(done.callers[c]) {
        FinishingStepExists(done, c);
      }
    }
    NobodySleepsWhenQuiet(done);
  }

  lemma FinishingStepExists(w: World, c: nat)
    requires c < |w.callers| && InFlight(w.callers[c])
    ensures Finishing(NextStep(w, c)) && Step(w, NextStep(w, c)) != w
  {
    assert Step(w, NextStep(w, c)).callers[c] != w.callers[c];
  }

  // ----- leases over a run

  lemma {:induction false} RunExtendsLog(w: World, labels: seq<Label>)
    ensures w.log <= Run(w, labels).log
    ensures w.inner.state.generation <= Run(w, labels).inner.state.generation
    decreases |labels|
  {
    if labels != [] {
      var events := StepMovesLog(w, labels[0]);
      RunExtendsLog(Step(w, labels[0]), labels[1..]);
    }
  }

  /** The events of a step keep their places in every continuation. */
  lemma EventsStay(w: World, a: Label, events: seq<Event>, labels: seq<Label>, i: nat)
    requires Step(w, a).log == w.log + events && |w.log| <= i < |w.log| + |events|
    ensures i < |Run(Step(w, a), labels).log| && Run(Step(w, a), labels).log[i] == events[i - |w.log|]
  {
    RunExtendsLog(Step(w, a), labels);
    assert Step(w, a).log[i] == events[i - |w.log|];
  }

  /** A lease handed out or peeked at after some point has at least the generation the slot had at that point. */
  lemma {:induction false} LaterLeasesAreNewer(w: World, labels: seq<Label>, i: nat)
    requires |w.log| <= i < |Run(w, labels).log| && HandsOut(Run(w, labels).log[i])
    ensures w.inner.state.generation <= Run(w, labels).log[i].lease.generation
    decreases |labels|
  {
    if labels == [] {
      assert false;
    } else {
      var events := StepMovesLog(w, labels[0]);
      var w' := Step(w, labels[0]);
      if i < |w'.log| {
        EventsStay(w, labels[0], events, labels[1..], i);
      } else {
        LaterLeasesAreNewer(w', labels[1..], i);
      }
    }
  }

  /** Each generation becomes Valid at most once, so leases of one generation are the same lease. */
  lemma OneCredentialPerGeneration(w: World, d: Event, e: Event)
    requires Reachable(w)
    requires d in w.log && e in w.log && HandsOut(d) && HandsOut(e) && d.lease.generation == e.lease.generation
    ensures d.lease == e.lease
    ensures forall i, j :: 0 <= i < j < |w.log| && w.log[i].Installed? && w.log[j].Installed? ==>
              w.log[i].lease.generation < w.log[j].lease.generation
  {
    ReachableInv(w);
    assert Installed(d.lease) in w.log && Installed(e.lease) in w.log;
    var i :| 0 <= i < |w.log| && w.log[i] == Installed(d.lease);
    var j :| 0 <= j < |w.log| && w.log[j] == Installed(e.lease);
  }

  /** The challenge is for generation `g` and is applied without an error of the slot. */
  predicate AppliesChallenge(w: World, a: Label, g: nat) {
    && a.Challenge?
    && ApplyRejection(w.inner, a.binding, a.action, a.requirement, a.applied, a.status).Ok?
    && InvalidationReason(a.action, a.status).Some?
    && a.applied.generation == Some(g)
  }

  /** After a challenge to a leased generation every lease handed out later is of a newer generation. */
  lemma ChallengedGenerationNeverReturns(w: World, lease: Lease, a: Label, labels: seq<Label>, i: nat)
    requires Reachable(w) && Leased(lease) in w.log && AppliesChallenge(w, a, lease.generation)
    requires var later := Run(Step(w, a), labels);
             |Step(w, a).log| <= i < |later.log| && HandsOut(later.log[i])
    ensures lease.generation < Run(Step(w, a), labels).log[i].lease.generation
  {
    ReachableInv(w);
    assert Installed(lease) in w.log;
    assert lease.generation < Step(w, a).inner.state.generation;
    LaterLeasesAreNewer(Step(w, a), labels, i);
  }

  // ----- invalidation is final

  /** Nobody can hand `k` out: it was issued, the slot does not hold it and no caller carries it. */
  ghost predicate Gone(w: World, k: nat) {
    && k < w.nextIdentity
    && Held(w.inner.state) != Some(k)
    && forall i :: 0 <= i < |w.callers| ==> Carried(w.callers[i]) != Some(k)
  }

  lemma StepKeepsGone(w: World, a: Label, k: nat) returns (events: seq<Event>)
    requires Gone(w, k)
    ensures Gone(Step(w, a), k)
    ensures LogStep(w, Step(w, a), events)
    ensures forall i :: 0 <= i < |events| && HandsOut(events[i]) ==> events[i].lease.value.identity != k
  {
    HeldMoves(w, a);
    forall i | 0 <= i < |w.callers|
      ensures Carried(Step(w, a).callers[i]) != Some(k)
    {
      CarriedMoves(w, a, i);
    }
    events := StepMovesLog(w, a);
  }

  lemma {:induction false} GoneIsForever(w: World, labels: seq<Label>, k: nat, i: nat)
    requires Gone(w, k)
    requires |w.log| <= i < |Run(w, labels).log| && HandsOut(Run(w, labels).log[i])
    ensures Run(w, labels).log[i].lease.value.identity != k
    decreases |labels|
  {
    if labels == [] {
      assert false;
    } else {
      var w' := Step(w, labels[0]);
      var events := StepKeepsGone(w, labels[0], k);
      if i < |w'.log| {
        EventsStay(w, labels[0], events, labels[1..], i);
      } else {
        GoneIsForever(w', labels[1..], k, i);
      }
    }
  }

  /**
  An invalidation that takes effect, on the value or on what a running refresh
  would fall back to, is final: no continuation hands that credential out again,
  not even to a cached read.
  */
  lemma AppliedInvalidationIsFinal(w: World, expected: Option<nat>, labels: seq<Label>, i: nat)
    requires Reachable(w) && InvalidateSpec(w.inner, expected).Ok? && InvalidationTarget(w.inner.state, expected).Some?
    requires var later := Run(InvalidateStep(w, expected), labels);
             |InvalidateStep(w, expected).log| <= i < |later.log| && HandsOut(later.log[i])
    ensures Run(InvalidateStep(w, expected), labels).log[i].lease.value
         != InvalidationTarget(w.inner.state, expected).value
  {
    ReachableInv(w);
    var k := InvalidationTarget(w.inner.state, expected).value.identity;
    assert Held(w.inner.state) == Some(k);
    assert Gone(InvalidateStep(w, expected), k);
    GoneIsForever(InvalidateStep(w, expected), labels, k, i);
  }

  // ----- stale owners

  lemma {:induction false} OwnerNumbersOnlyGrow(w: World, labels: seq<Label>)
    ensures w.inner.nextOwner <= Run(w, labels).inner.nextOwner
    decreases |labels|
  {
    if labels != [] {
      SlotStepMoves(w, labels[0]);
      OwnerNumbersOnlyGrow(Step(w, labels[0]), labels[1..]);
    }
  }

  /** The step starts a refresh under number `owner`. */
  predicate BeginsAs(w: World, a: Label, owner: nat) {
    && a.Inspect? && a.c < |w.callers| && w.callers[a.c].AtLoop? && CanPass(w.time, a.elapsed)
    && Inspection(w, a.elapsed).1.Begin? && Inspection(w, a.elapsed).1.owner == owner
  }

  lemma OwnerNumbersAreNeverReused(w: World, a: Label, first: nat, labels: seq<Label>, b: Label, second: nat)
    requires BeginsAs(w, a, first) && BeginsAs(Run(Step(w, a), labels), b, second)
    ensures first < second
  {
    OwnerNumbersOnlyGrow(Step(w, a), labels);
  }

  /** An attempt that lost the slot never owns it again. */
  lemma {:induction false} OvertakenForever(w: World, owner: nat, labels: seq<Label>)
    requires OwnersOk(w) && owner < w.inner.nextOwner && !Current(w.inner.state, owner)
    ensures !Current(Run(w, labels).inner.state, owner)
    decreases |labels|
  {
    if labels != [] {
      StepKeepsOwners(w, labels[0]);
      SlotStepMoves(w, labels[0]);
      OvertakenForever(Step(w, labels[0]), owner, labels[1..]);
    }
  }

  /** A commit or a rollback changes the slot only for the one guard that is current. */
  lemma OnlyTheCurrentOwnerSettles(w: World, a: Label)
    requires Reachable(w) && (a.CommitCheck? || a.CommitStore? || a.DropGuard?)
    requires Step(w, a).inner != w.inner
    ensures a.c < |w.callers| && w.inner.state.Refreshing? && Guards(w.callers[a.c], w.inner.state.owner)
    ensures forall d :: 0 <= d < |w.callers| && Guards(w.callers[d], w.inner.state.owner) ==> d == a.c
  {
    ReachableInv(w);
  }

  /**
  From the moment an attempt is overtaken, whatever happens next, no later
  commit or guard drop under its number changes the slot or the log.
  */
  lemma StaleOwnersAreHarmless(w: World, c: nat, labels: seq<Label>, a: Label)
    requires Reachable(w) && c < |w.callers| && Armed(w.callers[c]) && !Current(w.inner.state, w.callers[c].owner)
    requires a.CommitCheck? || a.CommitStore? || a.DropGuard?
    requires var now := Run(w, labels);
             a.c < |now.callers| && Guards(now.callers[a.c], w.callers[c].owner)
    ensures var now := Run(w, labels);
            Step(now, a).inner == now.inner && Step(now, a).log == now.log
  {
    ReachableInv(w);
    OvertakenForever(w, w.callers[c].owner, labels);
  }

  // ----- progress of the loop

  /** Each turn of a caller's loop meets a refresh with a strictly larger number than the last one it met. */
  lemma LoopTurnsAdvance(w: World, c: nat, elapsed: Duration)
    requires Reachable(w) && c < |w.callers| && w.callers[c].AtLoop?
    ensures var next := InspectStep(w, c, elapsed).callers[c];
            && (next.Waiting? ==> w.callers[c].seen < next.seen && w.inner.state.owner == next.seen)
            && (next.Calling? ==> w.callers[c].seen < next.owner)
            && (next.Waiting? || next.Calling? || next.Idle?)
  {
    ReachableInv(w);
    assert LoopAgrees(w, w.callers[c]);
  }

  function Turns(x: Caller): nat {
    if x.AtLoop? || x.Waiting? || x.Calling? || x.Returned? || x.Checked? then x.turns else 0
  }

  /** A caller has gone round its loop at most as often as refreshes were ever begun. */
  lemma LoopTurnsAreBounded(w: World, c: nat)
    requires Reachable(w) && c < |w.callers|
    ensures Turns(w.callers[c]) < w.inner.nextOwner
  {
    ReachableInv(w);
    assert LoopAgrees(w, w.callers[c]);
    assert Armed(w.callers[c]) ==> GuardAgrees(w, w.callers[c]);
  }

  // ----- a credential is leased under one generation, and a due one never again

  /** Two leases of one credential are the same lease: a value re-stamped by a rollback is not leased again. */
  lemma LeasedUnderOneGeneration(w: World, a: Lease, b: Lease)
    requires Reachable(w) && Leased(a) in w.log && Leased(b) in w.log
    requires a.value.identity == b.value.identity
    ensures a == b
  {
    ReachableInv(w);
    assert OneStamp(a, b);
    OneCredentialPerGeneration(w, Leased(a), Leased(b));
  }

  /** `k` was issued, nobody is about to commit it, and if the slot has it then it is due. */
  ghost predicate Spent(w: World, k: nat) {
    && k < w.nextIdentity
    && (w.inner.state.Valid? && w.inner.state.value.identity == k ==> !Leasable(w.inner.state.value, w.time))
    && forall i :: 0 <= i < |w.callers| ==> Carried(w.callers[i]) != Some(k)
  }

  lemma StepKeepsSpent(w: World, a: Label, k: nat) returns (events: seq<Event>)
    requires LeasesOk(w) && Spent(w, k)
    ensures Spent(Step(w, a), k)
    ensures LogStep(w, Step(w, a), events)
    ensures forall i :: 0 <= i < |events| && events[i].Leased? ==> events[i].lease.value.identity != k
  {
    var w' := Step(w, a);
    HeldMoves(w, a);
    StepPassesTime(w, a);
    forall i | 0 <= i < |w.callers|
      ensures Carried(w'.callers[i]) != Some(k)
    {
      CarriedMoves(w, a, i);
    }
    if w'.inner.state.Valid? && w'.inner.state.value.identity == k && Leasable(w'.inner.state.value, w'.time) {
      ValidMoves(w, a);
      DueStaysDue(w'.inner.state.value, w.time, w'.time);
    }
    events := StepMovesLog(w, a);
    forall i | 0 <= i < |events| && events[i].Leased?
      ensures events[i].lease.value.identity != k
    {
      StepLeases(w, a, events, i);
    }
  }

  lemma {:induction false} SpentIsForever(w: World, labels: seq<Label>, k: nat, i: nat)
    requires Inv(w) && Spent(w, k)
    requires |w.log| <= i < |Run(w, labels).log| && Run(w, labels).log[i].Leased?
    ensures Run(w, labels).log[i].lease.value.identity != k
    decreases |labels|
  {
    if labels == [] {
      assert false;
    } else {
      var w' := Step(w, labels[0]);
      var events := StepKeepsSpent(w, labels[0], k);
      if i < |w'.log| {
        EventsStay(w, labels[0], events, labels[1..], i);
      } else {
        StepKeepsInv(w, labels[0]);
        SpentIsForever(w', labels[1..], k, i);
      }
    }
  }

  /**
  A challenged credential is never leased again. The invalidation names the
  leased generation; either it takes the value away, or the slot no longer has
  it, or the slot has it re-stamped by a rollback, and then it is due for ever.
  */
  lemma ChallengedCredentialNeverLeasedAgain(w: World, lease: Lease, a: Label, labels: seq<Label>, i: nat)
    requires Reachable(w) && Leased(lease) in w.log && AppliesChallenge(w, a, lease.generation)
    requires var later := Run(Step(w, a), labels);
             |Step(w, a).log| <= i < |later.log| && later.log[i].Leased?
    ensures Run(Step(w, a), labels).log[i].lease.value.identity != lease.value.identity
  {
    ReachableInv(w);
    StepKeepsInv(w, a);
    assert Installed(lease) in w.log;
    assert StampedOrDue(w.inner.state, w.time, lease);
    assert Spent(Step(w, a), lease.value.identity);
    SpentIsForever(Step(w, a), labels, lease.value.identity, i);
  }

  // ----- exactly when a leased credential is leased again

  ghost predicate LeasesIn(w: World, k: nat, labels: seq<Label>, i: nat) {
    && |w.log| <= i < |Run(w, labels).log|
    && Run(w, labels).log[i].Leased? && Run(w, labels).log[i].lease.value.identity == k
  }

  /** Some continuation leases `k`. */
  ghost predicate CanLease(w: World, k: nat) {
    exists labels, i :: LeasesIn(w, k, labels, i)
  }

  lemma CanLeaseBefore(w: World, a: Label, k: nat)
    requires CanLease(Step(w, a), k)
    ensures CanLease(w, k)
  {
    var labels, i :| LeasesIn(Step(w, a), k, labels, i);
    var events := StepMovesLog(w, a);
    assert ([a] + labels)[1..] == labels;
    assert LeasesIn(w, k, [a] + labels, i);
  }

  /** The slot has `k` and `k` is not due. */
  predicate Available(w: World, k: nat) {
    w.inner.state.Valid? && w.inner.state.value.identity == k && Leasable(w.inner.state.value, w.time)
  }

  lemma LookingLeases(w: World, c: nat)
    requires w.inner.state.Valid? && Leasable(w.inner.state.value, w.time) && w.time.now <= w.time.max
    requires c < |w.callers| && w.callers[c].AtLoop?
    ensures CanLease(w, w.inner.state.value.identity)
  {
    var a := Inspect(c, 0);
    assert [a][1..] == [];
    assert Run(w, [a]) == Step(w, a);
    assert LeasesIn(w, w.inner.state.value.identity, [a], |w.log|);
  }

  /** The step that brings caller `c` towards the start of a loop turn while the slot has a value. */
  function TowardsLoop(x: Caller, c: nat): Label {
    match x
    case Idle => Enter(c)
    case Returned(_, _, _, _) => CommitCheck(c)
    case Checked(_, _, _, _, _) => CommitStore(c)
    case Unwinding(_) => DropGuard(c)
    case Owing(_) => Notify(c)
    case _ => Cancel(c)
  }

  function ToLoop(x: Caller): nat {
    match x
    case AtLoop(_, _) => 0
    case Idle => 1
    case Calling(_, _, _) => 3
    case Returned(_, _, _, _) => 1
    case Checked(_, _, _, _, _) => 1
    case _ => 2
  }

  lemma StepsTowardsLoop(w: World, c: nat)
    requires w.inner.state.Valid? && c < |w.callers| && !w.callers[c].AtLoop?
    ensures var w' := Step(w, TowardsLoop(w.callers[c], c));
            && w'.inner == w.inner && w'.time == w.time && |w'.callers| == |w.callers|
            && ToLoop(w'.callers[c]) < ToLoop(w.callers[c])
  {
  }

  /** Whatever a caller is doing, it can come round to lease what is available. */
  lemma AnyCallerCanLease(w: World, c: nat)
    requires w.inner.state.Valid? && Leasable(w.inner.state.value, w.time) && w.time.now <= w.time.max
    requires c < |w.callers|
    ensures CanLease(w, w.inner.state.value.identity)
    decreases ToLoop(w.callers[c])
  {
    if w.callers[c].AtLoop? {
      LookingLeases(w, c);
    } else {
      var a := TowardsLoop(w.callers[c], c);
      StepsTowardsLoop(w, c);
      AnyCallerCanLease(Step(w, a), c);
      CanLeaseBefore(w, a, w.inner.state.value.identity);
    }
  }

  /**
  A credential that was leased before is leased again by some continuation if
  and only if it is in the slot now and not due now.
  */
  lemma LeasableAgainIffAvailable(w: World, lease: Lease)
    requires Reachable(w) && Leased(lease) in w.log
    ensures CanLease(w, lease.value.identity) <==> Available(w, lease.value.identity)
  {
    ReachableInv(w);
    var k := lease.value.identity;
    assert Installed(lease) in w.log;
    if Available(w, k) {
      AnyCallerCanLease(w, 0);
    } else {
      assert Spent(w, k);
      forall labels, i: nat | |w.log| <= i < |Run(w, labels).log| && Run(w, labels).log[i].Leased?
        ensures Run(w, labels).log[i].lease.value.identity != k
      {
        SpentIsForever(w, labels, k, i);
      }
    }
  }

  // ----- exactly when the slot can hold a leased credential again

  /**
  The guard's owner can still end in a rollback: its future can be dropped, or
  its commit can overflow the retry time, which a positive wait does when it is
  committed late enough.
  */
  predicate CanUnwind(x: Caller) {
    || x.Calling? || x.Unwinding?
    || ((x.Returned? || x.Checked?) && x.result.Err? && x.result.error.retryAfter.Some?
        && x.result.error.retryAfter.value > 0)
  }

  ghost predicate Restorable(w: World, k: nat) {
    && Held(w.inner.state) == Some(k)
    && (w.inner.state.Valid?
        || exists c :: 0 <= c < |w.callers| && Guards(w.callers[c], w.inner.state.owner) && CanUnwind(w.callers[c]))
  }

  /** The slot's value is `k`. */
  predicate Holds(w: World, k: nat) {
    w.inner.state.Valid? && w.inner.state.value.identity == k
  }

  /** The slot's value is `k`, now or after some continuation. */
  ghost predicate CanHold(w: World, k: nat) {
    exists labels :: Holds(Run(w, labels), k)
  }

  lemma HoldsNow(w: World, k: nat)
    requires Holds(w, k)
    ensures CanHold(w, k)
  {
    assert Run(w, []) == w;
  }

  lemma CanHoldBefore(w: World, a: Label, k: nat)
    requires CanHold(Step(w, a), k)
    ensures CanHold(w, k)
  {
    var labels :| Holds(Run(Step(w, a), labels), k);
    assert ([a] + labels)[1..] == labels;
    assert Holds(Run(w, [a] + labels), k);
  }

  /** The next step of a current owner on its way to a rollback; a commit waits for the last instant. */
  function TowardsRollback(w: World, c: nat): Label
    requires c < |w.callers| && w.time.now <= w.time.max
  {
    if w.callers[c].Calling? then Cancel(c)
    else if w.callers[c].Returned? then CommitCheck(c)
    else if w.callers[c].Unwinding? then DropGuard(c)
    else if w.time.now < w.time.max then Tick(w.time.max - w.time.now)
    else CommitStore(c)
  }

  /** The current owner falls back to the saved value by its own remaining steps. */
  lemma UnwindingCanHold(w: World, c: nat, k: nat)
    requires OwnersOk(w) && c < |w.callers| && w.inner.state.Refreshing? && w.time.now <= w.time.max
    requires Guards(w.callers[c], w.inner.state.owner) && CanUnwind(w.callers[c])
    requires Held(w.inner.state) == Some(k)
    ensures CanHold(w, k)
    decreases Rank(w.callers[c]), w.time.max - w.time.now
  {
    assert GuardAgrees(w, w.callers[c]);
    var a := TowardsRollback(w, c);
    if w.callers[c].Unwinding? {
      HoldsNow(Step(w, a), k);
    } else {
      StepKeepsOwners(w, a);
      UnwindingCanHold(Step(w, a), c, k);
    }
    CanHoldBefore(w, a, k);
  }

  ghost predicate Lost(w: World, k: nat) {
    && k < w.nextIdentity
    && !Restorable(w, k)
    && forall i :: 0 <= i < |w.callers| ==> Carried(w.callers[i]) != Some(k)
  }

  /** A caller that holds a guard after a step held it unchanged before, or is the one that acts. */
  lemma GuardsComeFrom(w: World, a: Label, d: nat)
    requires d < |w.callers| == |Step(w, a).callers| && Armed(Step(w, a).callers[d])
    ensures Step(w, a).callers[d] == w.callers[d] || ActsIn(a, d)
  {
  }

  /** A caller that cannot unwind does not become able to, while it holds its guard. */
  lemma CannotUnwindStays(w: World, a: Label, d: nat)
    requires OwnersOk(w) && w.time.now <= w.time.max
    requires Step(w, a).inner.state.Refreshing? && w.inner.state.Refreshing?
    requires Step(w, a).inner.state.owner == w.inner.state.owner
    requires d < |w.callers| == |Step(w, a).callers|
    requires Guards(Step(w, a).callers[d], w.inner.state.owner) && CanUnwind(Step(w, a).callers[d])
    ensures Guards(w.callers[d], w.inner.state.owner) && CanUnwind(w.callers[d])
  {
    GuardsComeFrom(w, a, d);
    assert Armed(w.callers[d]) ==> GuardAgrees(w, w.callers[d]);
  }

  lemma StepKeepsLost(w: World, a: Label, k: nat)
    requires Inv(w) && Lost(w, k)
    ensures Lost(Step(w, a), k)
  {
    var w' := Step(w, a);
    HeldMoves(w, a);
    forall i | 0 <= i < |w.callers|
      ensures Carried(w'.callers[i]) != Some(k)
    {
      CarriedMoves(w, a, i);
    }
    if Held(w'.inner.state) == Some(k) {
      assert Held(w.inner.state) == Some(k);
      HeldWithoutRestore(w, a, k);
      if Restorable(w', k) {
        var d :| 0 <= d < |w'.callers| && Guards(w'.callers[d], w'.inner.state.owner) && CanUnwind(w'.callers[d]);
        CannotUnwindStays(w, a, d);
      }
    }
  }

  /** A saved value that cannot be restored stays saved under the same refresh, or is dropped. */
  lemma HeldWithoutRestore(w: World, a: Label, k: nat)
    requires OwnersOk(w) && Held(w.inner.state) == Some(k) && !Restorable(w, k)
    requires Held(Step(w, a).inner.state) == Some(k) && !(a.SetManual? && k == w.nextIdentity)
    requires forall i :: 0 <= i < |w.callers| ==> Carried(w.callers[i]) != Some(k)
    ensures w.inner.state.Refreshing? && Step(w, a).inner.state.Refreshing?
    ensures Step(w, a).inner.state.owner == w.inner.state.owner
  {
    if a.DropGuard? && a.c < |w.callers| && w.callers[a.c].Unwinding? {
      assert CanUnwind(w.callers[a.c]);
      assert !Guards(w.callers[a.c], w.inner.state.owner);
    }
  }

  lemma {:induction false} LostIsForever(w: World, labels: seq<Label>, k: nat)
    requires Inv(w) && Lost(w, k)
    ensures !Holds(Run(w, labels), k)
    decreases |labels|
  {
    if labels != [] {
      StepKeepsLost(w, labels[0], k);
      StepKeepsInv(w, labels[0]);
      LostIsForever(Step(w, labels[0]), labels[1..], k);
    }
  }

  /**
  The slot can hold a leased credential, now or later, if and only if it is the
  slot's value, or it is what a running refresh would fall back to and that
  refresh can still be rolled back.
  */
  lemma HoldableIffRestorable(w: World, lease: Lease)
    requires Reachable(w) && Leased(lease) in w.log
    ensures CanHold(w, lease.value.identity) <==> Restorable(w, lease.value.identity)
  {
    ReachableInv(w);
    var k := lease.value.identity;
    assert Installed(lease) in w.log;
    if Restorable(w, k) {
      if w.inner.state.Valid? {
        HoldsNow(w, k);
      } else {
        var c :| 0 <= c < |w.callers| && Guards(w.callers[c], w.inner.state.owner) && CanUnwind(w.callers[c]);
        UnwindingCanHold(w, c, k);
      }
    } else {
      assert Lost(w, k);
      forall labels
        ensures !Holds(Run(w, labels), k)
      {
        LostIsForever(w, labels, k);
      }
    }
  }

  lemma ReachableStep(w: World, a: Label)
    requires Reachable(w)
    ensures Reachable(Step(w, a))
  {
    assert Run(w, [a]) == Step(w, a) by { assert [a][1..] == []; }
    ReachableRun(w, [a]);
  }

  /** One caller starts the first refresh and its provider returns credential 0, which expires at `at`. */
  lemma AcquireFirst(skew: Duration, at: Instant, max: Instant) returns (w: World)
    ensures Reachable(w) && w.time == Timing(0, skew, max)
    ensures w.callers == [Returned(1, 1, 1, Ok(Credential(0, Some(at))))]
    ensures w.inner == Inner(Refreshing(0, 1, 1, NoPrevious), 2)
  {
    w := Initial(1, Timing(0, skew, max));
    assert StartsRun(1, w.time, [], w);
    ReachableStep(w, Enter(0));
    w := Step(w, Enter(0));
    ReachableStep(w, Inspect(0, 0));
    w := Step(w, Inspect(0, 0));
    ReachableStep(w, ProviderReturns(0, Produced(Some(at))));
    w := Step(w, ProviderReturns(0, Produced(Some(at))));
  }

  /** The credential is committed and leased under generation 1, and time runs to its expiry. */
  lemma LeaseThenExpire(skew: Duration, at: Instant, max: Instant) returns (w: World)
    requires at <= max
    ensures Reachable(w) && w.callers == [Idle] && w.inner.nextOwner == 2 && w.time == Timing(at, skew, max)
    ensures w.inner.state == Valid(Credential(0, Some(at)), 1) && Leased(Lease(Credential(0, Some(at)), 1)) in w.log
  {
    w := AcquireFirst(skew, at, max);
    ReachableStep(w, CommitCheck(0));
    w := Step(w, CommitCheck(0));
    ReachableStep(w, CommitStore(0));
    w := Step(w, CommitStore(0));
    ReachableStep(w, Tick(at));
    w := Step(w, Tick(at));
  }

  /** A refresh over the expired credential is cancelled: the slot has it again, under generation 2. */
  lemma RefreshIsCancelled(w: World, value: Credential) returns (after: World)
    requires Reachable(w) && w.callers == [Idle] && w.inner == Inner(Valid(value, 1), 2)
    requires w.time.now <= w.time.max && value.expiresAt == Some(w.time.now)
    ensures Reachable(after) && after.time == w.time && w.log <= after.log
    ensures after.inner.state == Valid(value, 2)
  {
    after := w;
    ReachableStep(after, Enter(0));
    after := Step(after, Enter(0));
    ReachableStep(after, Inspect(0, 0));
    after := Step(after, Inspect(0, 0));
    ReachableStep(after, Cancel(0));
    after := Step(after, Cancel(0));
    ReachableStep(after, DropGuard(0));
    after := Step(after, DropGuard(0));
  }

  /**
  A challenge names a generation, not a value: a value leased under generation
  1 and re-stamped by a cancelled refresh survives the late challenge to
  generation 1 inside the slot. It is due, so it is never leased again.
  */
  lemma ChallengedValueMayStay(skew: Duration, at: Instant, max: Instant, challenge: Label)
    returns (w: World, lease: Lease)
    requires at <= max
    requires challenge.Challenge? && challenge.applied.generation == Some(1)
    requires challenge.binding.slot == challenge.requirement.credential
    requires ActionMatches(challenge.action, challenge.requirement, challenge.applied)
    requires InvalidationReason(challenge.action, challenge.status).Some?
    ensures Reachable(w) && w.time == Timing(at, skew, max)
    ensures Leased(lease) in w.log && AppliesChallenge(w, challenge, lease.generation)
    ensures Step(w, challenge).inner.state == Valid(lease.value, 2)
    ensures !CanLease(Step(w, challenge), lease.value.identity)
  {
    lease := Lease(Credential(0, Some(at)), 1);
    w := LeaseThenExpire(skew, at, max);
    w := RefreshIsCancelled(w, lease.value);
    ReachableStep(w, challenge);
    var events := StepMovesLog(w, challenge);
    LeasableAgainIffAvailable(Step(w, challenge), lease);
  }
}
