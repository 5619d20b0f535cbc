/**
The credential slot under concurrency: any number of callers, interleaved at
every point where the original releases the lock.

A run is an arbitrary list of labels. A label that does not apply in the
current world leaves it unchanged, so every list is a run and every statement
over lists of labels is a statement over every interleaving.

The world carries the monotonic clock. It moves by ticks and between the two
readings of one critical section, never backwards and never past the largest
instant, and all callers share one refresh skew, as all callers in the client
use the default step policy.
*/
module SlotProtocol {
  import opened Prelude
  import opened CredentialSlots
  import opened AuthRejection

  /**
  Where one caller stands. `seen` is the last owner number the caller waited on
  or started in its current `get_or_refresh`, and `turns` the number of loop
  turns that ended in a wait or a refresh.
  */
  datatype Caller =
    | Idle
    | AtLoop(seen: nat, turns: nat)
    | Waiting(waitOn: nat, seen: nat, turns: nat)
    | Calling(owner: nat, generation: nat, turns: nat)
    | Returned(owner: nat, generation: nat, turns: nat, result: Result<Credential, AuthError>)
    | Checked(owner: nat, generation: nat, turns: nat, result: Result<Credential, AuthError>, notify: nat)
    | Unwinding(owner: nat)
    | Owing(notify: nat)

  /** The caller holds an armed refresh guard. */
  predicate Armed(x: Caller) {
    x.Calling? || x.Returned? || x.Checked? || x.Unwinding?
  }

  /**
  What an observer of the slot sees. `Leased` is a result of `get_or_refresh`,
  which goes into a request; `Peeked` is a cached read, which development tools
  make and which goes nowhere.
  */
  datatype Event =
    | Leased(lease: Lease)
    | Peeked(lease: Lease)
    | Installed(lease: Lease)
    | Revoked(identity: nat)
    | Challenged(generation: nat)

  /** A credential left the slot with its generation. */
  predicate HandsOut(e: Event) {
    e.Leased? || e.Peeked?
  }

  /** The clock's reading, the refresh skew, and the largest instant of the platform. */
  datatype Timing = Timing(now: Instant, skew: Duration, max: Instant)

  datatype World = World(
    inner: Inner, callers: seq<Caller>, nextNotify: nat, nextIdentity: nat, log: seq<Event>, time: Timing)

  /** What a provider call comes back with; a new value gets a new identity. */
  datatype ProviderResult = Produced(expiresAt: Option<Instant>) | Refused(error: AuthError)

  datatype Label =
    | Tick(elapsed: Duration)
    | Enter(c: nat)
    | Inspect(c: nat, elapsed: Duration)
    | ProviderReturns(c: nat, provided: ProviderResult)
    | CommitCheck(c: nat)
    | CommitStore(c: nat)
    | Cancel(c: nat)
    | DropGuard(c: nat)
    | Notify(c: nat)
    | SetManual(c: nat, expiresAt: Option<Instant>)
    | ClearManual(c: nat)
    | Invalidate(expected: Option<nat>)
    | Challenge(binding: Binding, action: RejectionAction, requirement: AuthRequirement,
                applied: AppliedCredential, status: nat)
    | GetCached

  function Initial(n: nat, time: Timing): World {
    World(Inner(Empty(0), 1), seq(n, _ => Idle), 0, 0, [], time)
  }

  /** The clock can move on by `elapsed`. */
  predicate CanPass(time: Timing, elapsed: Duration) {
    time.now + elapsed <= time.max
  }

  function Later(time: Timing, elapsed: Duration): Timing {
    Timing(time.now + elapsed, time.skew, time.max)
  }

  // ----- building blocks of a step

  function Put(w: World, c: nat, x: Caller): World
    requires c < |w.callers|
  {
    w.(callers := w.callers[c := x])
  }

  function WakeOne(x: Caller, n: nat): Caller {
    if x.Waiting? && x.waitOn == n then AtLoop(x.seen, x.turns) else x
  }

  /** `notify_waiters`: every caller registered on `n` goes round its loop again. */
  function Wake(w: World, n: nat): (r: World)
    ensures |r.callers| == |w.callers|
    ensures forall i :: 0 <= i < |w.callers| ==> r.callers[i] == WakeOne(w.callers[i], n)
    ensures r == w.(callers := r.callers)
  {
    w.(callers := seq(|w.callers|, i requires 0 <= i < |w.callers| => WakeOne(w.callers[i], n)))
  }

  function Log(w: World, events: seq<Event>): World {
    w.(log := w.log + events)
  }

  /** The state became Valid. */
  function InstallEvent(state: SlotState): seq<Event> {
    if state.Valid? then [Installed(Lease(state.value, state.generation))] else []
  }

  function Owe(w: World, c: nat, notify: Option<nat>): World
    requires c < |w.callers|
  {
    Put(w, c, if notify.Some? then Owing(notify.value) else Idle)
  }

  // ----- the steps

  /** What a loop turn decides when its second clock reading comes `elapsed` after its first. */
  function Inspection(w: World, elapsed: Duration): (Inner, Action) {
    InspectSpec(w.inner, w.time.skew, Clock(w.time.now, w.time.now + elapsed, w.time.max), w.nextNotify)
  }

  function InspectStep(w: World, c: nat, elapsed: Duration): World
    requires c < |w.callers| && w.callers[c].AtLoop?
  {
    var turns := w.callers[c].turns;
    var (inner, action) := Inspection(w, elapsed);
    var w' := w.(inner := inner, time := Later(w.time, elapsed));
    match action
    case Return(lease) => Log(Put(w', c, Idle), [Leased(lease)])
    case Fail(_) => Put(w', c, Idle)
    case Wait(n, owner) => Put(w', c, Waiting(n, owner, turns + 1))
    case Begin(owner, generation, _) =>
      Put(w', c, Calling(owner, generation, turns + 1)).(nextNotify := w.nextNotify + 1)
  }

  function ReturnStep(w: World, c: nat, provided: ProviderResult): World
    requires c < |w.callers| && w.callers[c].Calling?
  {
    var x := w.callers[c];
    match provided
    case Produced(at) =>
      Put(w, c, Returned(x.owner, x.generation, x.turns, Ok(Credential(w.nextIdentity, at))))
        .(nextIdentity := w.nextIdentity + 1)
    case Refused(e) => Put(w, c, Returned(x.owner, x.generation, x.turns, Err(e)))
  }

  function CheckStep(w: World, c: nat): World
    requires c < |w.callers| && w.callers[c].Returned?
  {
    var x := w.callers[c];
    match CommitCheckSpec(w.inner, x.owner, x.generation)
    case None => Put(w, c, AtLoop(x.owner, x.turns))
    case Some(n) => Put(w, c, Checked(x.owner, x.generation, x.turns, x.result, n))
  }

  /** The second half of a commit notifies while it still holds the lock, so storing and waking are one step. */
  function StoreStep(w: World, c: nat): World
    requires c < |w.callers| && w.callers[c].Checked?
  {
    var x := w.callers[c];
    var (inner, outcome) := CommitStoreSpec(w.inner, x.owner, x.generation, x.result, w.time.now, w.time.max);
    var w' := w.(inner := inner);
    match outcome
    case StaleOwner => Put(w', c, AtLoop(x.owner, x.turns))
    case Stored(lease) => Log(Wake(Put(w', c, Idle), x.notify), [Installed(lease), Leased(lease)])
    case CommitFailed(_) => Wake(Put(w', c, Idle), x.notify)
    case RetryAfterOverflow(_) => Put(w', c, Unwinding(x.owner))
  }

  /** A future is dropped at a suspension point. */
  function CancelStep(w: World, c: nat): World
    requires c < |w.callers|
  {
    match w.callers[c]
    case AtLoop(_, _) => Put(w, c, Idle)
    case Waiting(_, _, _) => Put(w, c, Idle)
    case Calling(owner, _, _) => Put(w, c, Unwinding(owner))
    case _ => w
  }

  function DropStep(w: World, c: nat): World
    requires c < |w.callers| && w.callers[c].Unwinding?
  {
    var (inner, notify) := DropGuardSpec(w.inner, w.callers[c].owner);
    var w' := Owe(w.(inner := inner), c, notify);
    if notify.Some? then Log(w', InstallEvent(inner.state)) else w'
  }

  function NotifyStep(w: World, c: nat): World
    requires c < |w.callers| && w.callers[c].Owing?
  {
    Wake(Put(w, c, Idle), w.callers[c].notify)
  }

  function ReplaceStep(w: World, c: nat, value: Option<Credential>): World
    requires c < |w.callers| && w.callers[c].Idle?
  {
    match ReplaceSpec(w.inner, value)
    case Err(_) => w
    case Ok((inner, notify)) => Log(Owe(w.(inner := inner), c, notify), InstallEvent(inner.state))
  }

  function InvalidateStep(w: World, expected: Option<nat>): World {
    match InvalidateSpec(w.inner, expected)
    case Err(_) => w
    case Ok((inner, taken)) =>
      Log(w.(inner := inner), if taken.Some? then [Revoked(taken.value.identity)] else [])
  }

  function ChallengeStep(w: World, binding: Binding, action: RejectionAction, requirement: AuthRequirement,
                         applied: AppliedCredential, status: nat): World {
    if ApplyRejection(w.inner, binding, action, requirement, applied, status).Err?
       || InvalidationReason(action, status).None?
    then w
    else
      Log(InvalidateStep(w, applied.generation),
          if applied.generation.Some? then [Challenged(applied.generation.value)] else [])
  }

  function CachedStep(w: World): World {
    if w.inner.state.Valid?
    then Log(w, [Peeked(Lease(w.inner.state.value, w.inner.state.generation))])
    else w
  }

  function Step(w: World, a: Label): World {
    match a
    case Tick(elapsed) => if CanPass(w.time, elapsed) then w.(time := Later(w.time, elapsed)) else w
    case Enter(c) => if c < |w.callers| && w.callers[c].Idle? then Put(w, c, AtLoop(0, 0)) else w
    case Inspect(c, elapsed) =>
      if c < |w.callers| && w.callers[c].AtLoop? && CanPass(w.time, elapsed) then InspectStep(w, c, elapsed) else w
    case ProviderReturns(c, provided) =>
      if c < |w.callers| && w.callers[c].Calling? then ReturnStep(w, c, provided) else w
    case CommitCheck(c) => if c < |w.callers| && w.callers[c].Returned? then CheckStep(w, c) else w
    case CommitStore(c) => if c < |w.callers| && w.callers[c].Checked? then StoreStep(w, c) else w
    case Cancel(c) => if c < |w.callers| then CancelStep(w, c) else w
    case DropGuard(c) => if c < |w.callers| && w.callers[c].Unwinding? then DropStep(w, c) else w
    case Notify(c) => if c < |w.callers| && w.callers[c].Owing? then NotifyStep(w, c) else w
    case SetManual(c, at) =>
      if c < |w.callers| && w.callers[c].Idle?
      then ReplaceStep(w, c, Some(Credential(w.nextIdentity, at))).(nextIdentity := w.nextIdentity + 1)
      else w
    case ClearManual(c) => if c < |w.callers| && w.callers[c].Idle? then ReplaceStep(w, c, None) else w
    case Invalidate(expected) => InvalidateStep(w, expected)
    case Challenge(binding, action, requirement, applied, status) =>
      ChallengeStep(w, binding, action, requirement, applied, status)
    case GetCached => CachedStep(w)
  }

  function Run(w: World, labels: seq<Label>): World
    decreases |labels|
  {
    if labels == [] then w else Run(Step(w, labels[0]), labels[1..])
  }

  /** A world some run of some number of callers leads to, from any time the platform can represent. */
  ghost predicate Reachable(w: World) {
    exists n: nat, time: Timing, labels: seq<Label> :: StartsRun(n, time, labels, w)
  }

  predicate StartsRun(n: nat, time: Timing, labels: seq<Label>, w: World) {
    time.now <= time.max && w == Run(Initial(n, time), labels)
  }
}
