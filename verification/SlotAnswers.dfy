/**
What each critical section of the credential slot answers, in terms of times,
counters and states, and what that means for a run: which leases outlive the
skew, and how long a failed slot backs off.
*/
module SlotAnswers {
  import opened Prelude
  import opened CredentialSlots
  import opened SlotProtocol
  import opened SlotInvariants
  import opened SlotTheorems

  // ----- one look at the slot

  /** The value expires no later than `skew` after `now`. */
  predicate ExpiresWithin(value: Credential, now: Instant, skew: Duration) {
    value.expiresAt.Some? && value.expiresAt.value <= now + skew
  }

  /** The instant `skew` after `now` can be represented, or the value does not ask for it. */
  predicate SkewFits(value: Credential, now: Instant, skew: Duration, max: Instant) {
    value.expiresAt.None? || value.expiresAt.value <= now || now + skew <= max
  }

  /** Both counters can move. */
  predicate CountersMove(inner: Inner) {
    inner.state.generation < U64_MAX && inner.nextOwner < U64_MAX
  }

  /** A look at a valid slot is given the value exactly when it outlives the skew, and then nothing changes. */
  lemma FreshValueIsReturned(inner: Inner, skew: Duration, clock: Clock, notify: nat)
    requires inner.state.Valid?
    ensures var (after, action) := InspectSpec(inner, skew, clock, notify);
            var value := inner.state.value;
            && (action.Return? <==>
                  value.expiresAt.None? || (clock.now + skew < value.expiresAt.value && clock.now + skew <= clock.max))
            && (action.Return? ==> action.lease == Lease(value, inner.state.generation) && after == inner)
  {
  }

  /**
  A value that is about to expire is refreshed under the next generation and the
  next owner number, and the provider is told the value and whether it has
  expired by the second reading of the clock.
  */
  lemma ExpiringValueIsRefreshed(inner: Inner, skew: Duration, clock: Clock, notify: nat)
    requires inner.state.Valid? && clock.now <= clock.later
    requires ExpiresWithin(inner.state.value, clock.now, skew) && CountersMove(inner)
    requires SkewFits(inner.state.value, clock.now, skew, clock.max)
    requires SkewFits(inner.state.value, clock.later, skew, clock.max)
    ensures var (after, action) := InspectSpec(inner, skew, clock, notify);
            var (value, g, owner) := (inner.state.value, inner.state.generation, inner.nextOwner);
            var reason := if value.expiresAt.value <= clock.later then Expired else ExpiringSoon;
            && after == Inner(Refreshing(notify, g + 1, owner, PreviousValid(value, g)), owner + 1)
            && action == Begin(owner, g + 1, Some((value, reason)))
  {
  }

  /** In every other case a look at a valid slot fails and changes nothing. */
  lemma OtherwiseValidFails(inner: Inner, skew: Duration, clock: Clock, notify: nat)
    requires inner.state.Valid? && clock.now <= clock.later
    ensures var (after, action) := InspectSpec(inner, skew, clock, notify);
            var value := inner.state.value;
            && (action.Begin? <==>
                  && ExpiresWithin(value, clock.now, skew) && CountersMove(inner)
                  && SkewFits(value, clock.now, skew, clock.max) && SkewFits(value, clock.later, skew, clock.max))
            && !action.Wait?
            && (action.Fail? ==>
                  && after == inner && action.error.retryAfter.None?
                  && action.error.kind ==
                       if CountersMove(inner)
                          || !SkewFits(value, clock.now, skew, clock.max)
                          || (inner.state.generation < U64_MAX && !SkewFits(value, clock.later, skew, clock.max))
                       then InvalidConfiguration else AcquireFailed)
  {
  }

  /** A failed slot answers with its error until its retry time, and is then refreshed without a current value. */
  lemma FailedSlotBacksOff(inner: Inner, skew: Duration, clock: Clock, notify: nat)
    requires inner.state.Failed?
    ensures var (after, action) := InspectSpec(inner, skew, clock, notify);
            var (g, owner) := (inner.state.generation, inner.nextOwner);
            var waits := inner.state.retryAt.Some? && clock.now < inner.state.retryAt.value;
            && (waits ==> after == inner && action == Fail(inner.state.error))
            && (!waits && !CountersMove(inner) ==> after == inner && action.Fail? && action.error.kind == AcquireFailed)
            && (!waits && CountersMove(inner) ==>
                  && action == Begin(owner, g + 1, None)
                  && after.nextOwner == owner + 1
                  && after.state == Refreshing(notify, g + 1, owner,
                                               PreviousFailed(inner.state.error, inner.state.retryAt)))
  {
  }

  /** An empty slot is filled; when its generation cannot move, the owner number is spent and the look fails. */
  lemma EmptySlotIsFilled(inner: Inner, skew: Duration, clock: Clock, notify: nat)
    requires inner.state.Empty?
    ensures var (after, action) := InspectSpec(inner, skew, clock, notify);
            var (g, owner) := (inner.state.generation, inner.nextOwner);
            && (CountersMove(inner) ==>
                  && action == Begin(owner, g + 1, None)
                  && after == Inner(Refreshing(notify, g + 1, owner, NoPrevious), owner + 1))
            && (!CountersMove(inner) ==>
                  && action.Fail? && action.error.kind == AcquireFailed && after.state == inner.state
                  && after.nextOwner == if owner < U64_MAX then owner + 1 else owner)
  {
  }

  /** A look at a running refresh waits for it. */
  lemma RunningRefreshIsAwaited(inner: Inner, skew: Duration, clock: Clock, notify: nat)
    requires inner.state.Refreshing?
    ensures InspectSpec(inner, skew, clock, notify) == (inner, Wait(inner.state.notify, inner.state.owner))
  {
  }

  // ----- how a refresh ends

  /** The same slot contents under another generation. */
  function Stamped(s: SlotState, generation: nat): SlotState
    requires !s.Refreshing?
  {
    if s.Valid? then Valid(s.value, generation)
    else if s.Failed? then Failed(generation, s.error, s.retryAt)
    else Empty(generation)
  }

  /** A refresh that begins and is cancelled gives back what the slot had, one generation on, and wakes its waiters. */
  lemma CancelledRefreshRestores(inner: Inner, skew: Duration, clock: Clock, notify: nat)
    requires InspectSpec(inner, skew, clock, notify).1.Begin?
    ensures !inner.state.Refreshing?
    ensures var (begun, action) := InspectSpec(inner, skew, clock, notify);
            var (after, woken) := DropGuardSpec(begun, action.owner);
            && after.state == Stamped(inner.state, inner.state.generation + 1)
            && after.nextOwner == inner.nextOwner + 1 && woken == Some(notify)
  {
  }

  /** A guard that is not current changes nothing and wakes nobody. */
  lemma StaleGuardDropsNothing(inner: Inner, owner: nat)
    requires !(inner.state.Refreshing? && inner.state.owner == owner)
    ensures DropGuardSpec(inner, owner) == (inner, None)
  {
  }

  /** What the provider said becomes the slot's state under the attempt's generation, for the current attempt only. */
  lemma CommitSettles(inner: Inner, owner: nat, generation: nat, result: Result<Credential, AuthError>,
                      now: Instant, max: Instant)
    ensures var (after, outcome) := CommitStoreSpec(inner, owner, generation, result, now, max);
            var s := inner.state;
            var current := s.Refreshing? && s.owner == owner && s.generation == generation;
            && CommitCheckSpec(inner, owner, generation) == (if current then Some(inner.state.notify) else None)
            && (!current ==> after == inner && outcome == StaleOwner)
            && (current && result.Ok? ==>
                  && after == Inner(Valid(result.value, generation), inner.nextOwner)
                  && outcome == Stored(Lease(result.value, generation)))
            && (current && result.Err? && result.error.retryAfter.None? ==>
                  && after == Inner(Failed(generation, result.error, None), inner.nextOwner)
                  && outcome == CommitFailed(result.error))
            && (current && result.Err? && result.error.retryAfter.Some? ==>
                  var at := now + result.error.retryAfter.value;
                  if at <= max then
                    && after == Inner(Failed(generation, result.error, Some(at)), inner.nextOwner)
                    && outcome == CommitFailed(result.error)
                  else after == inner && outcome.RetryAfterOverflow? && outcome.error.kind == InvalidConfiguration)
  {
  }

  // ----- invalidation and manual changes

  /**
  An invalidation without a generation takes whatever value there is; with one
  it takes the value, or the saved value, of exactly that generation. A taken
  value leaves an empty slot one generation on, or a refresh with nothing saved.
  */
  lemma InvalidationTakes(inner: Inner, expected: Option<nat>)
    ensures var r := InvalidateSpec(inner, expected);
            match inner.state
            case Valid(value, g) =>
              if expected == None || expected == Some(g) then
                if g < U64_MAX then r == Ok((Inner(Empty(g + 1), inner.nextOwner), Some(value)))
                else r.Err? && r.error.kind == AcquireFailed
              else r == Ok((inner, None))
            case Refreshing(n, g, owner, previous) =>
              if previous.PreviousValid? && (expected == None || expected == Some(previous.validGeneration)) then
                r == Ok((Inner(Refreshing(n, g, owner, NoPrevious), inner.nextOwner), Some(previous.value)))
              else r == Ok((inner, None))
            case _ => r == Ok((inner, None))
  {
  }

  /** A manual change puts its value, or nothing, in place one generation on, and names the refresh it overtakes. */
  lemma ManualReplaces(inner: Inner, value: Option<Credential>)
    ensures var r, g := ReplaceSpec(inner, value), inner.state.generation;
            && (g >= U64_MAX ==> r.Err? && r.error.kind == AcquireFailed)
            && (g < U64_MAX && value.Some? ==> r.Ok? && r.value.0 == Inner(Valid(value.value, g + 1), inner.nextOwner))
            && (g < U64_MAX && value.None? ==> r.Ok? && r.value.0 == Inner(Empty(g + 1), inner.nextOwner))
            && (g < U64_MAX ==> r.value.1 == if inner.state.Refreshing? then Some(inner.state.notify) else None)
  {
  }

  // ----- leases over a run

  /** What a loop turn leases outlives the skew at that moment, and is the slot's value. */
  lemma LookedUpLeaseOutlivesSkew(w: World, c: nat, elapsed: Duration, i: nat)
    requires var w' := Step(w, Inspect(c, elapsed));
             |w.log| <= i < |w'.log| && w'.log[i].Leased?
    ensures var lease := Step(w, Inspect(c, elapsed)).log[i].lease;
            && w.inner.state == Valid(lease.value, lease.generation)
            && (lease.value.expiresAt.None? || w.time.now + w.time.skew < lease.value.expiresAt.value)
  {
  }

  lemma {:induction false} RunSplits(w: World, labels: seq<Label>, k: nat)
    requires k < |labels|
    ensures Run(w, labels) == Run(Step(Run(w, labels[..k]), labels[k]), labels[k + 1..])
    decreases k
  {
    if k == 0 {
      assert labels[..0] == [];
    } else {
      var rest := labels[1..];
      RunSplits(Step(w, labels[0]), rest, k - 1);
      assert rest[..k - 1] == labels[..k][1..] && rest[k..] == labels[k + 1..];
    }
  }

  /** In every run, a lease that a look at the slot gave out outlived the skew when it was given. */
  lemma EveryLookedUpLeaseOutlivesSkew(w: World, labels: seq<Label>, k: nat, i: nat)
    requires k < |labels| && labels[k].Inspect?
    requires var before := Run(w, labels[..k]);
             && |before.log| <= i < |Step(before, labels[k]).log|
             && i < |Run(w, labels).log| && Run(w, labels).log[i].Leased?
    ensures var (before, lease) := (Run(w, labels[..k]), Run(w, labels).log[i].lease);
            lease.value.expiresAt.None? || before.time.now + before.time.skew < lease.value.expiresAt.value
  {
    var before := Run(w, labels[..k]);
    RunSplits(w, labels, k);
    RunExtendsLog(Step(before, labels[k]), labels[k + 1..]);
    assert Run(w, labels).log[i] == Step(before, labels[k]).log[i];
    LookedUpLeaseOutlivesSkew(before, labels[k].c, labels[k].elapsed, i);
  }

  /** A value can be leased now exactly when it outlives the skew. */
  lemma LeasableMeansFresh(value: Credential, time: Timing)
    ensures Leasable(value, time) <==>
              || value.expiresAt.None?
              || (time.now + time.skew < value.expiresAt.value && time.now + time.skew <= time.max)
  {
  }

  // ----- backing off over a run

  /** Nobody sets or clears the credential by hand. */
  predicate NoManualChange(labels: seq<Label>) {
    forall i :: 0 <= i < |labels| ==> !labels[i].SetManual? && !labels[i].ClearManual?
  }

  lemma BackOffStep(w: World, a: Label)
    requires w.inner.state.Failed? && w.inner.state.retryAt.Some? && w.time.now < w.inner.state.retryAt.value
    requires !a.SetManual? && !a.ClearManual?
    ensures Step(w, a).inner == w.inner
  {
  }

  lemma {:induction false} TimeOnlyPasses(w: World, labels: seq<Label>)
    ensures w.time.now <= Run(w, labels).time.now
    decreases |labels|
  {
    if labels != [] {
      TimeOnlyPasses(Step(w, labels[0]), labels[1..]);
    }
  }

  /**
  After an error with a retry time, until that time has come and unless somebody
  changes the credential by hand, no refresh begins, the slot stays as it is, and
  every look is answered with that error.
  */
  lemma {:induction false} BackOffHolds(w: World, labels: seq<Label>, elapsed: Duration)
    requires w.inner.state.Failed? && w.inner.state.retryAt.Some? && NoManualChange(labels)
    requires Run(w, labels).time.now < w.inner.state.retryAt.value
    ensures Run(w, labels).inner == w.inner
    ensures Inspection(Run(w, labels), elapsed) == (w.inner, Fail(w.inner.state.error))
    decreases |labels|
  {
    if labels != [] {
      TimeOnlyPasses(w, labels);
      BackOffStep(w, labels[0]);
      BackOffHolds(Step(w, labels[0]), labels[1..], elapsed);
    }
  }

  /** Committing an error with a wait starts such a back-off, of exactly that wait. */
  lemma CommittedErrorBacksOff(w: World, c: nat, labels: seq<Label>, elapsed: Duration)
    requires OwnersOk(w) && c < |w.callers| && w.callers[c].Checked? && Current(w.inner.state, w.callers[c].owner)
    requires w.callers[c].result.Err? && w.callers[c].result.error.retryAfter.Some? && NoManualChange(labels)
    requires var at := w.time.now + w.callers[c].result.error.retryAfter.value;
             at <= w.time.max && Run(StoreStep(w, c), labels).time.now < at
    ensures var settled := StoreStep(w, c);
            && Run(settled, labels).inner == settled.inner
            && Inspection(Run(settled, labels), elapsed).1 == Fail(w.callers[c].result.error)
  {
    assert GuardAgrees(w, w.callers[c]);
    var x := w.callers[c];
    CommitSettles(w.inner, x.owner, x.generation, x.result, w.time.now, w.time.max);
    BackOffHolds(StoreStep(w, c), labels, elapsed);
  }
}
