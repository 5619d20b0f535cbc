/**
What every step of the slot protocol keeps: who owns a refresh, who will be
woken, how often callers go round their loops, what the log says about
generations, which credential identities the system still holds, and which of
them can still be leased. Wake-ups and loops rest on ownership, and leases on
the log and the identities.
*/
module SlotInvariants {
  import opened Prelude
  import opened CredentialSlots
  import opened SlotProtocol

  predicate Guards(x: Caller, owner: nat) {
    Armed(x) && x.owner == owner
  }

  // ----- ownership

  /** One armed guard against the slot: its number was issued, and if it is current its attempt data agree. */
  predicate GuardAgrees(w: World, x: Caller)
    requires Armed(x)
  {
    && 1 <= x.owner < w.inner.nextOwner
    && (Current(w.inner.state, x.owner) && !x.Unwinding? ==> x.generation == w.inner.state.generation)
    && (Current(w.inner.state, x.owner) && x.Checked? ==> x.notify == w.inner.state.notify)
  }

  /** A running refresh carries the latest owner number, and exactly one armed guard holds it. */
  ghost predicate OwnersOk(w: World) {
    && 1 <= w.inner.nextOwner
    && (w.inner.state.Refreshing? ==>
          1 <= w.inner.state.owner == w.inner.nextOwner - 1 && w.inner.state.notify < w.nextNotify)
    && (forall i :: 0 <= i < |w.callers| && Armed(w.callers[i]) ==> GuardAgrees(w, w.callers[i]))
    && (forall i, j :: 0 <= i < j < |w.callers| && Armed(w.callers[i]) && Armed(w.callers[j]) ==>
          w.callers[i].owner != w.callers[j].owner)
    && (w.inner.state.Refreshing? ==>
          exists i :: 0 <= i < |w.callers| && Guards(w.callers[i], w.inner.state.owner))
  }

  lemma InspectKeepsOwners(w: World, c: nat, elapsed: Duration)
    requires OwnersOk(w) && c < |w.callers| && w.callers[c].AtLoop?
    ensures OwnersOk(InspectStep(w, c, elapsed))
  {
    var w' := InspectStep(w, c, elapsed);
    if w.inner.state.Refreshing? {
      var i :| 0 <= i < |w.callers| && Guards(w.callers[i], w.inner.state.owner);
      assert w'.callers[i] == w.callers[i];
    } else if w'.inner.state.Refreshing? {
      assert Guards(w'.callers[c], w'.inner.state.owner);
    }
  }

  /** A step that changes one caller between armed states of one owner, or frees a guard that is not current. */
  lemma GuardMoveKeepsOwners(w: World, w': World, c: nat)
    requires OwnersOk(w) && c < |w.callers| && Armed(w.callers[c])
    requires |w'.callers| == |w.callers| && w'.callers == w.callers[c := w'.callers[c]]
    requires w'.inner == w.inner && w'.nextNotify >= w.nextNotify
    requires if Armed(w'.callers[c]) then w'.callers[c].owner == w.callers[c].owner && GuardAgrees(w', w'.callers[c])
             else !Current(w.inner.state, w.callers[c].owner)
    ensures OwnersOk(w')
  {
    if w.inner.state.Refreshing? {
      var i :| 0 <= i < |w.callers| && Guards(w.callers[i], w.inner.state.owner);
      assert Guards(w'.callers[i], w'.inner.state.owner);
    }
  }

  lemma StoreKeepsOwners(w: World, c: nat)
    requires OwnersOk(w) && c < |w.callers| && w.callers[c].Checked?
    ensures OwnersOk(StoreStep(w, c))
  {
    var w' := StoreStep(w, c);
    if w'.inner == w.inner {
      GuardMoveKeepsOwners(w, w', c);
    }
  }

  lemma DropKeepsOwners(w: World, c: nat)
    requires OwnersOk(w) && c < |w.callers| && w.callers[c].Unwinding?
    ensures OwnersOk(DropStep(w, c))
  {
    var w' := DropStep(w, c);
    if !Current(w.inner.state, w.callers[c].owner) {
      GuardMoveKeepsOwners(w, w', c);
    }
  }

  /** A step that leaves every guard in place and either keeps the running refresh or ends it. */
  ghost predicate Quiet(w: World, w': World) {
    && |w'.callers| == |w.callers|
    && w'.inner.nextOwner == w.inner.nextOwner && w'.nextNotify == w.nextNotify
    && (w'.inner.state.Refreshing? ==>
          && w.inner.state.Refreshing?
          && w'.inner.state.owner == w.inner.state.owner
          && w'.inner.state.notify == w.inner.state.notify
          && w'.inner.state.generation == w.inner.state.generation)
    && (forall i :: 0 <= i < |w.callers| ==>
          w'.callers[i] == w.callers[i] || (!Armed(w.callers[i]) && !Armed(w'.callers[i])))
  }

  lemma QuietKeepsOwners(w: World, w': World)
    requires OwnersOk(w) && Quiet(w, w')
    ensures OwnersOk(w')
  {
    forall i | 0 <= i < |w'.callers| && Armed(w'.callers[i])
      ensures GuardAgrees(w', w'.callers[i])
    {
      assert GuardAgrees(w, w.callers[i]);
    }
    if w'.inner.state.Refreshing? {
      var i :| 0 <= i < |w.callers| && Guards(w.callers[i], w.inner.state.owner);
      assert Guards(w'.callers[i], w'.inner.state.owner);
    }
  }

  predicate IsQuietLabel(w: World, a: Label) {
    || a.Tick? || a.Enter? || a.Notify? || a.SetManual? || a.ClearManual?
    || a.Invalidate? || a.Challenge? || a.GetCached?
    || (a.Cancel? && a.c < |w.callers| && !w.callers[a.c].Calling?)
  }

  lemma QuietSteps(w: World, a: Label)
    requires IsQuietLabel(w, a)
    ensures Quiet(w, Step(w, a))
  {
  }

  lemma StepKeepsOwners(w: World, a: Label)
    requires OwnersOk(w)
    ensures OwnersOk(Step(w, a))
  {
    var w' := Step(w, a);
    if IsQuietLabel(w, a) {
      QuietSteps(w, a);
      QuietKeepsOwners(w, w');
    } else if w' != w {
      var c := a.c;
      match a {
        case Inspect(_, elapsed) => InspectKeepsOwners(w, c, elapsed);
        case CommitStore(_) => StoreKeepsOwners(w, c);
        case DropGuard(_) => DropKeepsOwners(w, c);
        case _ => GuardMoveKeepsOwners(w, w', c);
      }
    }
  }

  // ----- wake-ups and loop progress

  predicate RunsOn(state: SlotState, notify: nat) {
    state.Refreshing? && state.notify == notify
  }

  /** Some caller has taken `notify` out of the slot and will call `notify_waiters` on it. */
  ghost predicate Owed(callers: seq<Caller>, notify: nat) {
    exists d :: 0 <= d < |callers| && callers[d] == Owing(notify)
  }

  /** Every sleeper is registered on the running refresh or on a wake-up that is still owed. */
  ghost predicate WakeOk(w: World) {
    && (w.inner.state.Refreshing? ==> w.inner.state.notify < w.nextNotify)
    && (forall i :: 0 <= i < |w.callers| && w.callers[i].Waiting? ==>
          && w.callers[i].waitOn < w.nextNotify
          && (RunsOn(w.inner.state, w.callers[i].waitOn) || Owed(w.callers, w.callers[i].waitOn)))
    && (forall i :: 0 <= i < |w.callers| && w.callers[i].Owing? ==>
          w.callers[i].notify < w.nextNotify && !RunsOn(w.inner.state, w.callers[i].notify))
  }

  /** Only caller `c` moves, it owes nothing before or after, and a running refresh goes on. */
  ghost predicate Steady(w: World, w': World, c: nat) {
    && c < |w.callers| == |w'.callers|
    && w'.callers == w.callers[c := w'.callers[c]]
    && !w.callers[c].Owing? && !w'.callers[c].Owing?
    && (w'.callers[c].Waiting? ==> w'.callers[c] == w.callers[c] || RunsOn(w'.inner.state, w'.callers[c].waitOn))
    && w.nextNotify <= w'.nextNotify
    && (w.inner.state.Refreshing? ==> RunsOn(w'.inner.state, w.inner.state.notify))
    && (w'.inner.state.Refreshing? && !w.inner.state.Refreshing? ==>
          w.nextNotify <= w'.inner.state.notify < w'.nextNotify)
  }

  lemma SteadyKeepsWake(w: World, w': World, c: nat)
    requires WakeOk(w) && Steady(w, w', c)
    ensures WakeOk(w')
  {
    forall i | 0 <= i < |w'.callers| && w'.callers[i].Waiting?
      ensures w'.callers[i].waitOn < w'.nextNotify
      ensures RunsOn(w'.inner.state, w'.callers[i].waitOn) || Owed(w'.callers, w'.callers[i].waitOn)
    {
      if w'.callers[i] == w.callers[i] && !RunsOn(w.inner.state, w.callers[i].waitOn) {
        var d :| 0 <= d < |w.callers| && w.callers[d] == Owing(w.callers[i].waitOn);
        assert w'.callers[d] == Owing(w.callers[i].waitOn);
      }
    }
  }

  /** Caller `c` ends the running refresh, if there is one, and owes its wake-up. */
  lemma OweKeepsWake(w: World, w': World, c: nat)
    requires WakeOk(w) && c < |w.callers| == |w'.callers| && !w.callers[c].Owing? && !w.callers[c].Waiting?
    requires !w'.inner.state.Refreshing? && w'.nextNotify == w.nextNotify
    requires w'.callers == w.callers[c := if w.inner.state.Refreshing? then Owing(w.inner.state.notify) else Idle]
    ensures WakeOk(w')
  {
    forall i | 0 <= i < |w'.callers| && w'.callers[i].Waiting?
      ensures Owed(w'.callers, w'.callers[i].waitOn)
    {
      if RunsOn(w.inner.state, w.callers[i].waitOn) {
        assert w'.callers[c] == Owing(w.callers[i].waitOn);
      } else {
        var d :| 0 <= d < |w.callers| && w.callers[d] == Owing(w.callers[i].waitOn);
        assert w'.callers[d] == Owing(w.callers[i].waitOn);
      }
    }
  }

  /** Caller `c` wakes everybody on `n`, where `n` no longer runs. */
  lemma WakeKeepsWake(w: World, w': World, c: nat, n: nat)
    requires WakeOk(w) && c < |w.callers| == |w'.callers|
    requires w.callers[c] == Owing(n) || (RunsOn(w.inner.state, n) && !w.callers[c].Owing?)
    requires w'.nextNotify == w.nextNotify
    requires w'.inner == w.inner || (RunsOn(w.inner.state, n) && !w'.inner.state.Refreshing?)
    requires forall i :: 0 <= i < |w.callers| ==> w'.callers[i] == if i == c then Idle else WakeOne(w.callers[i], n)
    ensures WakeOk(w')
  {
    forall i | 0 <= i < |w'.callers| && w'.callers[i].Waiting?
      ensures RunsOn(w'.inner.state, w'.callers[i].waitOn) || Owed(w'.callers, w'.callers[i].waitOn)
    {
      assert w'.callers[i] == w.callers[i];
      if !RunsOn(w.inner.state, w.callers[i].waitOn) {
        var d :| 0 <= d < |w.callers| && w.callers[d] == Owing(w.callers[i].waitOn);
        assert w'.callers[d] == Owing(w.callers[i].waitOn);
      }
    }
  }

  lemma StoreKeepsWake(w: World, c: nat)
    requires OwnersOk(w) && WakeOk(w) && c < |w.callers| && w.callers[c].Checked?
    ensures WakeOk(StoreStep(w, c))
  {
    var w' := StoreStep(w, c);
    assert GuardAgrees(w, w.callers[c]);
    if w'.inner == w.inner {
      SteadyKeepsWake(w, w', c);
    } else {
      WakeKeepsWake(w, w', c, w.callers[c].notify);
    }
  }

  lemma DropKeepsWake(w: World, c: nat)
    requires WakeOk(w) && c < |w.callers| && w.callers[c].Unwinding?
    ensures WakeOk(DropStep(w, c))
  {
    var w' := DropStep(w, c);
    if Current(w.inner.state, w.callers[c].owner) {
      OweKeepsWake(w, w', c);
    } else {
      SteadyKeepsWake(w, w', c);
    }
  }

  lemma ReplaceKeepsWake(w: World, c: nat, value: Option<Credential>)
    requires WakeOk(w) && c < |w.callers| && w.callers[c].Idle?
    ensures WakeOk(ReplaceStep(w, c, value))
  {
    var w' := ReplaceStep(w, c, value);
    if w' != w {
      OweKeepsWake(w, w', c);
    }
  }

  lemma InvalidationKeepsWake(w: World, w': World)
    requires WakeOk(w) && w'.callers == w.callers && w'.nextNotify == w.nextNotify
    requires w'.inner.state.Refreshing? == w.inner.state.Refreshing?
    requires w.inner.state.Refreshing? ==> w'.inner.state.notify == w.inner.state.notify
    ensures WakeOk(w')
  {
  }

  lemma InspectKeepsWake(w: World, c: nat, elapsed: Duration)
    requires WakeOk(w) && c < |w.callers| && w.callers[c].AtLoop?
    ensures WakeOk(InspectStep(w, c, elapsed))
  {
    SteadyKeepsWake(w, InspectStep(w, c, elapsed), c);
  }

  /** Invalidations, reads of the slot and the clock move no caller. */
  lemma BystanderStepKeepsWake(w: World, a: Label)
    requires WakeOk(w) && (a.Tick? || a.Invalidate? || a.Challenge? || a.GetCached?)
    ensures WakeOk(Step(w, a))
  {
    InvalidationKeepsWake(w, Step(w, a));
  }

  lemma StepKeepsWake(w: World, a: Label)
    requires OwnersOk(w) && WakeOk(w)
    ensures WakeOk(Step(w, a))
  {
    var w' := Step(w, a);
    if w' != w {
      match a {
        case CommitStore(c) => StoreKeepsWake(w, c);
        case DropGuard(c) => DropKeepsWake(w, c);
        case Notify(c) => WakeKeepsWake(w, w', c, w.callers[c].notify);
        case SetManual(c, at) => ReplaceKeepsWake(w, c, Some(Credential(w.nextIdentity, at)));
        case ClearManual(c) => ReplaceKeepsWake(w, c, None);
        case Tick(_) => BystanderStepKeepsWake(w, a);
        case Invalidate(_) => BystanderStepKeepsWake(w, a);
        case Challenge(_, _, _, _, _) => BystanderStepKeepsWake(w, a);
        case GetCached => BystanderStepKeepsWake(w, a);
        case Inspect(c, elapsed) => InspectKeepsWake(w, c, elapsed);
        case _ => SteadyKeepsWake(w, w', a.c);
      }
    }
  }

  /**
  One caller against the loop it is in: as many turns as distinct owner numbers
  at most, and a caller about to look again has outlived every refresh it knows.
  */
  predicate LoopAgrees(w: World, x: Caller) {
    match x
    case AtLoop(seen, turns) =>
      && turns <= seen < w.inner.nextOwner
      && (w.inner.state.Refreshing? ==> seen < w.inner.state.owner)
    case Waiting(n, seen, turns) =>
      && turns <= seen < w.inner.nextOwner
      && (w.inner.state.Refreshing? ==> (w.inner.state.owner == seen <==> w.inner.state.notify == n))
    case Calling(owner, _, turns) => turns <= owner
    case Returned(owner, _, turns, _) => turns <= owner
    case Checked(owner, _, turns, _, _) => turns <= owner
    case _ => true
  }

  ghost predicate LoopsOk(w: World) {
    forall i :: 0 <= i < |w.callers| ==> LoopAgrees(w, w.callers[i])
  }

  /** How a step may move the slot, seen by a caller that does not move itself. */
  predicate SlotMoves(w: World, w': World) {
    && w.inner.nextOwner <= w'.inner.nextOwner
    && (w'.inner.state.Refreshing? ==>
          || (w.inner.state.Refreshing? && w'.inner.state.owner == w.inner.state.owner
              && w'.inner.state.notify == w.inner.state.notify)
          || (w'.inner.state.owner == w.inner.nextOwner && w'.inner.state.notify == w.nextNotify))
  }

  lemma SlotStepMoves(w: World, a: Label)
    ensures SlotMoves(w, Step(w, a))
  {
  }

  /** A caller that stays where it is, or is only woken from a refresh that no longer runs, still agrees. */
  lemma BystanderKeepsLoop(w: World, w': World, x: Caller, n: nat)
    requires OwnersOk(w) && LoopAgrees(w, x) && SlotMoves(w, w')
    requires x.Waiting? ==> x.waitOn < w.nextNotify
    ensures LoopAgrees(w', x)
    ensures !RunsOn(w'.inner.state, n) ==> LoopAgrees(w', WakeOne(x, n))
  {
  }

  lemma MoverKeepsLoop(w: World, a: Label, c: nat)
    requires OwnersOk(w) && LoopsOk(w) && c < |w.callers|
    requires a.Enter? || a.Inspect? || a.ProviderReturns? || a.CommitCheck? || a.CommitStore? || a.Cancel?
    requires a.c == c && Step(w, a) != w
    ensures c < |Step(w, a).callers| && LoopAgrees(Step(w, a), Step(w, a).callers[c])
  {
    assert LoopAgrees(w, w.callers[c]);
    assert Armed(w.callers[c]) ==> GuardAgrees(w, w.callers[c]);
  }

  predicate ActsIn(a: Label, c: nat) {
    !a.Tick? && !a.Invalidate? && !a.Challenge? && !a.GetCached? && a.c == c
  }

  /** Everybody but the acting caller stays put, except that a commit or a notify wakes the sleepers on one handle. */
  ghost predicate OthersOnlyWake(w: World, w': World, a: Label, n: nat) {
    && |w'.callers| == |w.callers|
    && !RunsOn(w'.inner.state, n)
    && (forall i :: 0 <= i < |w.callers| && !ActsIn(a, i) ==>
          w'.callers[i] == w.callers[i] || w'.callers[i] == WakeOne(w.callers[i], n))
  }

  lemma StoreOnlyWakes(w: World, c: nat) returns (n: nat)
    requires OwnersOk(w) && c < |w.callers| && w.callers[c].Checked?
    ensures OthersOnlyWake(w, StoreStep(w, c), CommitStore(c), n)
  {
    assert GuardAgrees(w, w.callers[c]);
    n := if StoreStep(w, c).inner == w.inner then w.nextNotify else w.callers[c].notify;
  }

  lemma OthersStayPut(w: World, a: Label)
    requires Step(w, a) == w || !(a.CommitStore? || a.Notify?)
    ensures |Step(w, a).callers| == |w.callers|
    ensures forall i :: 0 <= i < |w.callers| && !ActsIn(a, i) ==> Step(w, a).callers[i] == w.callers[i]
  {
  }

  lemma StepOnlyWakes(w: World, a: Label) returns (n: nat)
    requires OwnersOk(w) && WakeOk(w)
    ensures OthersOnlyWake(w, Step(w, a), a, n)
  {
    if Step(w, a) != w && a.CommitStore? {
      n := StoreOnlyWakes(w, a.c);
    } else if Step(w, a) != w && a.Notify? {
      n := w.callers[a.c].notify;
    } else {
      StepKeepsWake(w, a);
      OthersStayPut(w, a);
      n := Step(w, a).nextNotify;
    }
  }

  lemma ActorKeepsLoop(w: World, a: Label, c: nat)
    requires OwnersOk(w) && LoopsOk(w) && c < |w.callers| && ActsIn(a, c) && Step(w, a) != w
    ensures c < |Step(w, a).callers| && LoopAgrees(Step(w, a), Step(w, a).callers[c])
  {
    if a.DropGuard? || a.Notify? || a.SetManual? || a.ClearManual? {
      assert Step(w, a).callers[c].Idle? || Step(w, a).callers[c].Owing?;
    } else {
      MoverKeepsLoop(w, a, c);
    }
  }

  lemma StepKeepsLoops(w: World, a: Label)
    requires OwnersOk(w) && WakeOk(w) && LoopsOk(w)
    ensures LoopsOk(Step(w, a))
  {
    var w' := Step(w, a);
    SlotStepMoves(w, a);
    var n := StepOnlyWakes(w, a);
    if w' != w {
      forall i | 0 <= i < |w'.callers|
        ensures LoopAgrees(w', w'.callers[i])
      {
        if ActsIn(a, i) {
          ActorKeepsLoop(w, a, i);
        } else {
          BystanderKeepsLoop(w, w', w.callers[i], n);
        }
      }
    }
  }

  // ----- generations, leases and the log

  function LeaseOf(state: SlotState): Lease
    requires state.Valid?
  {
    Lease(state.value, state.generation)
  }

  /**
  The log against the slot: installs have strictly growing generations, only a
  Valid slot can share its generation with an install, and every lease was
  installed.
  */
  ghost predicate LogOk(w: World) {
    && (forall e :: e in w.log && e.Installed? ==>
          && e.lease.generation <= w.inner.state.generation
          && (e.lease.generation == w.inner.state.generation ==>
                w.inner.state.Valid? && e.lease == LeaseOf(w.inner.state)))
    && (forall i, j :: 0 <= i < j < |w.log| && w.log[i].Installed? && w.log[j].Installed? ==>
          w.log[i].lease.generation < w.log[j].lease.generation)
    && (forall e :: e in w.log && HandsOut(e) ==> Installed(e.lease) in w.log)
    && (w.inner.state.Valid? ==> Installed(LeaseOf(w.inner.state)) in w.log)
  }

  /** How one step may move the slot and what it may append to the log while doing so. */
  ghost predicate LogMoves(s: SlotState, s': SlotState, events: seq<Event>) {
    && s.generation <= s'.generation
    && (s'.generation == s.generation && s.Valid? ==> s' == s)
    && (s'.Valid? && s' != s ==> |events| > 0 && events[0] == Installed(LeaseOf(s')))
    && (forall i :: 0 <= i < |events| && events[i].Installed? ==>
          i == 0 && s'.Valid? && s' != s && events[i].lease == LeaseOf(s'))
    && (forall i :: 0 <= i < |events| && HandsOut(events[i]) ==> s'.Valid? && events[i].lease == LeaseOf(s'))
  }

  ghost predicate LogStep(w: World, w': World, events: seq<Event>) {
    w'.log == w.log + events && LogMoves(w.inner.state, w'.inner.state, events)
  }

  lemma InspectMovesLog(w: World, c: nat, elapsed: Duration) returns (events: seq<Event>)
    requires c < |w.callers| && w.callers[c].AtLoop?
    ensures LogStep(w, InspectStep(w, c, elapsed), events)
  {
    var action := Inspection(w, elapsed).1;
    events := if action.Return? then [Leased(action.lease)] else [];
    assert w.log + [] == w.log;
  }

  lemma StoreMovesLog(w: World, c: nat) returns (events: seq<Event>)
    requires c < |w.callers| && w.callers[c].Checked?
    ensures LogStep(w, StoreStep(w, c), events)
  {
    var x := w.callers[c];
    var outcome := CommitStoreSpec(w.inner, x.owner, x.generation, x.result, w.time.now, w.time.max).1;
    events := if outcome.Stored? then [Installed(outcome.lease), Leased(outcome.lease)] else [];
    assert w.log + [] == w.log;
  }

  lemma DropMovesLog(w: World, c: nat) returns (events: seq<Event>)
    requires c < |w.callers| && w.callers[c].Unwinding?
    ensures LogStep(w, DropStep(w, c), events)
  {
    events := if Current(w.inner.state, w.callers[c].owner) then InstallEvent(DropStep(w, c).inner.state) else [];
    assert w.log + [] == w.log;
  }

  lemma ReplaceMovesLog(w: World, c: nat, value: Option<Credential>) returns (events: seq<Event>)
    requires c < |w.callers| && w.callers[c].Idle?
    ensures LogStep(w, ReplaceStep(w, c, value), events)
  {
    events := if ReplaceSpec(w.inner, value).Ok? then InstallEvent(ReplaceStep(w, c, value).inner.state) else [];
    assert w.log + [] == w.log;
  }

  lemma InvalidateMovesLog(w: World, expected: Option<nat>) returns (events: seq<Event>)
    ensures LogStep(w, InvalidateStep(w, expected), events)
    ensures forall i :: 0 <= i < |events| ==> events[i].Revoked?
  {
    var r := InvalidateSpec(w.inner, expected);
    events := if r.Ok? && r.value.1.Some? then [Revoked(r.value.1.value.identity)] else [];
    assert w.log + [] == w.log;
  }

  lemma ChallengeMovesLog(w: World, a: Label) returns (events: seq<Event>)
    requires a.Challenge?
    ensures LogStep(w, Step(w, a), events)
  {
    if Step(w, a) == w {
      events := [];
      assert w.log + [] == w.log;
    } else {
      var taken := InvalidateMovesLog(w, a.applied.generation);
      var g := a.applied.generation;
      events := taken + if g.Some? then [Challenged(g.value)] else [];
      assert Step(w, a).log == w.log + events;
    }
  }

  lemma StepMovesLog(w: World, a: Label) returns (events: seq<Event>)
    ensures LogStep(w, Step(w, a), events)
  {
    if Step(w, a) == w {
      events := [];
      assert w.log + [] == w.log;
    } else {
      match a {
        case Inspect(c, elapsed) => events := InspectMovesLog(w, c, elapsed);
        case CommitStore(c) => events := StoreMovesLog(w, c);
        case DropGuard(c) => events := DropMovesLog(w, c);
        case SetManual(c, at) => events := ReplaceMovesLog(w, c, Some(Credential(w.nextIdentity, at)));
        case ClearManual(c) => events := ReplaceMovesLog(w, c, None);
        case Invalidate(expected) => events := InvalidateMovesLog(w, expected);
        case Challenge(_, _, _, _, _) => events := ChallengeMovesLog(w, a);
        case GetCached => events := [Peeked(LeaseOf(w.inner.state))];
        case _ =>
          events := [];
          assert w.log + [] == w.log;
      }
    }
  }

  lemma MovesKeepLog(w: World, w': World, events: seq<Event>)
    requires LogOk(w) && LogStep(w, w', events)
    ensures LogOk(w')
  {
    forall e | e in w'.log && e.Installed?
      ensures e.lease.generation <= w'.inner.state.generation
      ensures e.lease.generation == w'.inner.state.generation ==>
                w'.inner.state.Valid? && e.lease == LeaseOf(w'.inner.state)
    {
      if e !in w.log {
        assert e in events;
      }
    }
    forall i, j | 0 <= i < j < |w'.log| && w'.log[i].Installed? && w'.log[j].Installed?
      ensures w'.log[i].lease.generation < w'.log[j].lease.generation
    {
      if j >= |w.log| {
        assert w'.log[j] == events[j - |w.log|];
        assert j == |w.log|;
        assert w'.log[i] == w.log[i] && w.log[i] in w.log;
      } else {
        assert w'.log[i] == w.log[i] && w'.log[j] == w.log[j];
      }
    }
    assert w'.inner.state.Valid? && w'.inner.state != w.inner.state ==>
             Installed(LeaseOf(w'.inner.state)) in w'.log by {
      if w'.inner.state.Valid? && w'.inner.state != w.inner.state {
        assert w'.log[|w.log|] == events[0];
      }
    }
    forall e | e in w'.log && HandsOut(e)
      ensures Installed(e.lease) in w'.log
    {
      if e !in w.log {
        assert e in events;
      }
    }
  }

  lemma StepKeepsLog(w: World, a: Label)
    requires LogOk(w)
    ensures LogOk(Step(w, a))
  {
    var events := StepMovesLog(w, a);
    MovesKeepLog(w, Step(w, a), events);
  }

  // ----- credential identities

  /** The identity the slot could still hand out: its value, or the value a running refresh would fall back to. */
  function Held(s: SlotState): Option<nat> {
    if s.Valid? then Some(s.value.identity)
    else if s.Refreshing? && s.previous.PreviousValid? then Some(s.previous.value.identity)
    else None
  }

  /** The identity of a provider result on its way to a commit. */
  function Carried(x: Caller): Option<nat> {
    if (x.Returned? || x.Checked?) && x.result.Ok? then Some(x.result.value.identity) else None
  }

  /** Identities are issued once: no two callers carry the same one, and nobody carries one the slot has had. */
  ghost predicate IdentitiesOk(w: World) {
    && (Held(w.inner.state).Some? ==> Held(w.inner.state).value < w.nextIdentity)
    && (forall i :: 0 <= i < |w.callers| && Carried(w.callers[i]).Some? ==>
          Carried(w.callers[i]).value < w.nextIdentity && Carried(w.callers[i]) != Held(w.inner.state))
    && (forall i, j :: 0 <= i < j < |w.callers| && Carried(w.callers[i]).Some? ==>
          Carried(w.callers[i]) != Carried(w.callers[j]))
    && (forall e :: e in w.log && e.Installed? ==> e.lease.value.identity < w.nextIdentity)
    && (forall i, e :: 0 <= i < |w.callers| && e in w.log && e.Installed? ==>
          Carried(w.callers[i]) != Some(e.lease.value.identity))
  }

  /** Where a carried identity comes from: it was carried before, or the acting caller was just given a new one. */
  lemma CarriedMoves(w: World, a: Label, i: nat)
    requires i < |w.callers| == |Step(w, a).callers|
    ensures || Carried(Step(w, a).callers[i]).None?
            || Carried(Step(w, a).callers[i]) == Carried(w.callers[i])
            || (ActsIn(a, i) && a.ProviderReturns? && Carried(Step(w, a).callers[i]) == Some(w.nextIdentity)
                && Step(w, a).nextIdentity == w.nextIdentity + 1 && Held(Step(w, a).inner.state) == Held(w.inner.state))
  {
  }

  /** Where an identity held by the slot comes from: the slot, a manual set, or the caller that commits it. */
  lemma HeldMoves(w: World, a: Label)
    ensures |Step(w, a).callers| == |w.callers| && w.nextIdentity <= Step(w, a).nextIdentity
    ensures var held := Held(Step(w, a).inner.state);
            || held.None?
            || held == Held(w.inner.state)
            || (a.SetManual? && held == Some(w.nextIdentity) && Step(w, a).nextIdentity == w.nextIdentity + 1)
            || (a.CommitStore? && a.c < |w.callers| && held == Carried(w.callers[a.c])
                && Step(w, a).callers[a.c].Idle?)
  {
  }

  lemma StepKeepsIdentities(w: World, a: Label)
    requires IdentitiesOk(w)
    ensures IdentitiesOk(Step(w, a))
  {
    var w' := Step(w, a);
    var events := StepMovesLog(w, a);
    HeldMoves(w, a);
    forall i | 0 <= i < |w'.callers| && Carried(w'.callers[i]).Some?
      ensures Carried(w'.callers[i]).value < w'.nextIdentity && Carried(w'.callers[i]) != Held(w'.inner.state)
    {
      CarriedMoves(w, a, i);
    }
    forall i, j | 0 <= i < j < |w'.callers| && Carried(w'.callers[i]).Some?
      ensures Carried(w'.callers[i]) != Carried(w'.callers[j])
    {
      CarriedMoves(w, a, i);
      CarriedMoves(w, a, j);
    }
    forall e | e in w'.log && e.Installed?
      ensures e.lease.value.identity < w'.nextIdentity
    {
      assert e in w.log || e in events;
    }
    forall i, e | 0 <= i < |w'.callers| && e in w'.log && e.Installed?
      ensures Carried(w'.callers[i]) != Some(e.lease.value.identity)
    {
      CarriedMoves(w, a, i);
      assert e in w.log || e in events;
    }
  }

  // ----- leases and time

  /** At this time a caller that finds `value` in the slot is given it. */
  predicate Leasable(value: Credential, time: Timing) {
    ReasonToRefresh(value, time.skew, time.now, time.max) == Ok(None)
  }

  /** The clock moved on and nothing else. */
  predicate NotEarlier(before: Timing, after: Timing) {
    before.skew == after.skew && before.max == after.max && before.now <= after.now <= after.max
  }

  /** A value that is due stays due. */
  lemma DueStaysDue(value: Credential, before: Timing, after: Timing)
    requires NotEarlier(before, after) && Leasable(value, after)
    ensures Leasable(value, before)
  {
  }

  lemma StepPassesTime(w: World, a: Label)
    requires w.time.now <= w.time.max
    ensures NotEarlier(w.time, Step(w, a).time)
  {
  }

  /**
  Leases against time: a refresh runs only over a value that is due, a leased
  credential that the slot holds under another generation is due, and a
  credential is leased under one generation only.
  */
  ghost predicate LeasesOk(w: World) {
    && w.time.now <= w.time.max
    && (w.inner.state.Refreshing? && w.inner.state.previous.PreviousValid? ==>
          !Leasable(w.inner.state.previous.value, w.time))
    && (forall e :: e in w.log && e.Leased? ==> StampedOrDue(w.inner.state, w.time, e.lease))
    && (forall e, f :: e in w.log && f in w.log && e.Leased? && f.Leased? ==> OneStamp(e.lease, f.lease))
    && ((exists e :: e in w.log && e.Leased?) ==> w.callers != [])
  }

  predicate StampedOrDue(s: SlotState, time: Timing, lease: Lease) {
    s.Valid? && s.value.identity == lease.value.identity ==>
      s.generation == lease.generation || !Leasable(s.value, time)
  }

  predicate OneStamp(a: Lease, b: Lease) {
    a.value.identity == b.value.identity ==> a.generation == b.generation
  }

  /** How a step puts a value into the slot: it was there, it was saved, it is new, or a caller carried it. */
  lemma ValidMoves(w: World, a: Label)
    requires Step(w, a).inner.state.Valid?
    ensures var s, s' := w.inner.state, Step(w, a).inner.state;
            || s' == s
            || (s.Refreshing? && s.previous.PreviousValid? && s.previous.value == s'.value)
            || (a.SetManual? && s'.value.identity == w.nextIdentity)
            || (a.CommitStore? && a.c < |w.callers| && Carried(w.callers[a.c]) == Some(s'.value.identity))
  {
  }

  /** A refresh begins over a value only when that value is due. */
  lemma SavedIsDue(w: World, a: Label)
    requires LeasesOk(w)
    ensures var s := Step(w, a).inner.state;
            s.Refreshing? && s.previous.PreviousValid? ==> !Leasable(s.previous.value, Step(w, a).time)
  {
    StepPassesTime(w, a);
    var s := Step(w, a).inner.state;
    if s.Refreshing? && s.previous.PreviousValid? && Leasable(s.previous.value, Step(w, a).time) {
      DueStaysDue(s.previous.value, w.time, Step(w, a).time);
    }
  }

  /** `get_or_refresh` hands out what it finds and is not due, or what its caller just committed. */
  predicate LeaseComesFrom(w: World, a: Label, lease: Lease) {
    || (a.Inspect? && w.inner.state.Valid? && lease == LeaseOf(w.inner.state) && Leasable(lease.value, w.time))
    || (a.CommitStore? && a.c < |w.callers| && Carried(w.callers[a.c]) == Some(lease.value.identity))
  }

  lemma StepLeases(w: World, a: Label, events: seq<Event>, i: nat)
    requires LogStep(w, Step(w, a), events) && i < |events| && events[i].Leased?
    ensures LeaseComesFrom(w, a, events[i].lease) && w.callers != []
  {
    assert Step(w, a).log[|w.log| + i] == events[i];
  }

  lemma StampsStay(w: World, a: Label, lease: Lease)
    requires LogOk(w) && IdentitiesOk(w) && LeasesOk(w) && Leased(lease) in w.log
    ensures StampedOrDue(Step(w, a).inner.state, Step(w, a).time, lease)
  {
    assert Installed(lease) in w.log;
    StepPassesTime(w, a);
    var s := Step(w, a).inner.state;
    if s.Valid? {
      ValidMoves(w, a);
      if Leasable(s.value, Step(w, a).time) {
        DueStaysDue(s.value, w.time, Step(w, a).time);
      }
    }
  }

  lemma NewLeaseHasOneStamp(w: World, a: Label, lease: Lease, earlier: Lease)
    requires LogOk(w) && IdentitiesOk(w) && LeasesOk(w)
    requires LeaseComesFrom(w, a, lease) && Leased(earlier) in w.log
    ensures OneStamp(lease, earlier)
  {
    assert Installed(earlier) in w.log;
  }

  lemma StepKeepsLeases(w: World, a: Label)
    requires LogOk(w) && IdentitiesOk(w) && LeasesOk(w)
    ensures LeasesOk(Step(w, a))
  {
    var w' := Step(w, a);
    var events := StepMovesLog(w, a);
    StepPassesTime(w, a);
    SavedIsDue(w, a);
    HeldMoves(w, a);
    forall i | 0 <= i < |events| && events[i].Leased?
      ensures LeaseComesFrom(w, a, events[i].lease) && w.callers != []
    {
      StepLeases(w, a, events, i);
    }
    forall e | e in w'.log && e.Leased?
      ensures StampedOrDue(w'.inner.state, w'.time, e.lease) && w'.callers != []
    {
      if e in w.log {
        StampsStay(w, a, e.lease);
      } else {
        assert e in events;
      }
    }
    forall e, f | e in w'.log && f in w'.log && e.Leased? && f.Leased?
      ensures OneStamp(e.lease, f.lease)
    {
      assert e in w.log || e in events;
      assert f in w.log || f in events;
      if e in w.log && f !in w.log {
        NewLeaseHasOneStamp(w, a, f.lease, e.lease);
      } else if e !in w.log && f in w.log {
        NewLeaseHasOneStamp(w, a, e.lease, f.lease);
      }
    }
  }

  // ----- everything together

  ghost predicate Inv(w: World) {
    OwnersOk(w) && WakeOk(w) && LoopsOk(w) && LogOk(w) && IdentitiesOk(w) && LeasesOk(w)
  }

  lemma InitialInv(n: nat, time: Timing)
    requires time.now <= time.max
    ensures Inv(Initial(n, time))
  {
  }

  lemma StepKeepsInv(w: World, a: Label)
    requires Inv(w)
    ensures Inv(Step(w, a))
  {
    StepKeepsOwners(w, a);
    StepKeepsWake(w, a);
    StepKeepsLoops(w, a);
    StepKeepsLog(w, a);
    StepKeepsIdentities(w, a);
    StepKeepsLeases(w, a);
  }

  lemma {:induction false} RunKeepsInv(w: World, labels: seq<Label>)
    requires Inv(w)
    ensures Inv(Run(w, labels))
    decreases |labels|
  {
    if labels != [] {
      StepKeepsInv(w, labels[0]);
      RunKeepsInv(Step(w, labels[0]), labels[1..]);
    }
  }

  lemma ReachableInv(w: World)
    requires Reachable(w)
    ensures Inv(w)
  {
    var n: nat, time, labels :| StartsRun(n, time, labels, w);
    InitialInv(n, time);
    RunKeepsInv(Initial(n, time), labels);
  }
}
