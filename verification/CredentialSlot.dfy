/**
The credential slot: one cached credential behind a mutex, refreshed by at most
one current owner at a time.

Every lock acquisition of the original is one operation here. It appears twice:
as a function on the guarded data (`Inner`), which the protocol model steps
with, and as a method of the class `CredentialSlot`, which updates the guarded
fields in place and is proved to do exactly what the function says.
*/
module CredentialSlots {
  import opened Prelude

  /** A reading of the monotonic clock, and a duration in the same unit. */
  type Instant = nat
  type Duration = nat

  datatype AuthErrorKind =
    | MissingCredential
    | AcquireFailed
    | RefreshFailed
    | RejectedCredential
    | UnsupportedScheme
    | ProviderRejected
    | StateUnavailable
    | InvalidConfiguration

  datatype AuthError = AuthError(kind: AuthErrorKind, message: string, retryAfter: Option<Duration>)

  function NewError(kind: AuthErrorKind, message: string): AuthError {
    AuthError(kind, message, None)
  }

  /**
  A credential value. `identity` tells apart the values a slot is given: each
  provider result and each manual value is a new one, even if two carry the
  same secret text.
  */
  datatype Credential = Credential(identity: nat, expiresAt: Option<Instant>)

  datatype Lease = Lease(value: Credential, generation: nat)

  datatype Previous =
    | NoPrevious
    | PreviousValid(value: Credential, validGeneration: nat)
    | PreviousFailed(error: AuthError, retryAt: Option<Instant>)

  datatype SlotState =
    | Empty(generation: nat)
    | Valid(value: Credential, generation: nat)
    | Refreshing(notify: nat, generation: nat, owner: nat, previous: Previous)
    | Failed(generation: nat, error: AuthError, retryAt: Option<Instant>)

  /** What the mutex guards. */
  datatype Inner = Inner(state: SlotState, nextOwner: nat)

  datatype RefreshReason = Expired | ExpiringSoon

  /** Two readings of the clock within one critical section, and the largest instant the platform can represent. */
  datatype Clock = Clock(now: Instant, later: Instant, max: Instant)

  /** What one turn of the `get_or_refresh` loop decides while it holds the lock. */
  datatype Action =
    | Return(lease: Lease)
    | Fail(error: AuthError)
    | Wait(waitOn: nat, waitOwner: nat)
    | Begin(owner: nat, generation: nat, refresh: Option<(Credential, RefreshReason)>)

  datatype CommitOutcome =
    | Stored(lease: Lease)
    | CommitFailed(error: AuthError)
    | StaleOwner
    | RetryAfterOverflow(error: AuthError)

  // ----- pure helpers

  function CheckedInstantAdd(base: Instant, d: Duration, max: Instant, message: string): Result<Instant, AuthError> {
    if base + d <= max then Ok(base + d) else Err(NewError(InvalidConfiguration, message))
  }

  function ReasonToRefresh(value: Credential, skew: Duration, now: Instant, max: Instant)
    : Result<Option<RefreshReason>, AuthError>
  {
    match value.expiresAt
    case None => Ok(None)
    case Some(at) =>
      if at <= now then Ok(Some(Expired))
      else
        match CheckedInstantAdd(now, skew, max, "auth refresh_skew overflowed")
        case Err(e) => Err(e)
        case Ok(soon) => if at <= soon then Ok(Some(ExpiringSoon)) else Ok(None)
  }

  function NextGeneration(state: SlotState): Result<nat, AuthError> {
    if state.generation < U64_MAX then Ok(state.generation + 1)
    else Err(NewError(AcquireFailed, "credential generation counter overflowed"))
  }

  const OWNER_OVERFLOW: AuthError := AuthError(AcquireFailed, "credential refresh owner counter overflowed", None)

  /** The state a cancelled refresh falls back to, stamped with the attempt's generation. */
  function RestoreAt(previous: Previous, generation: nat): SlotState {
    match previous
    case NoPrevious => Empty(generation)
    case PreviousValid(value, _) => Valid(value, generation)
    case PreviousFailed(error, retryAt) => Failed(generation, error, retryAt)
  }

  predicate Current(state: SlotState, owner: nat) {
    state.Refreshing? && state.owner == owner
  }

  // ----- critical sections, as functions on the guarded data

  /** One loop turn of `get_or_refresh`; `notify` is the freshly allocated wake-up handle, used only by `Begin`. */
  function InspectSpec(inner: Inner, skew: Duration, clock: Clock, notify: nat): (Inner, Action) {
    match inner.state
    case Valid(value, generation) => (
      match ReasonToRefresh(value, skew, clock.now, clock.max)
      case Err(e) => (inner, Fail(e))
      case Ok(None) => (inner, Return(Lease(value, generation)))
      case Ok(Some(_)) =>
        match NextGeneration(inner.state)
        case Err(e) => (inner, Fail(e))
        case Ok(next) =>
          match ReasonToRefresh(value, skew, clock.later, clock.max)
          case Err(e) => (inner, Fail(e))
          case Ok(reason) =>
            if inner.nextOwner >= U64_MAX then (inner, Fail(OWNER_OVERFLOW))
            else
              (Inner(Refreshing(notify, next, inner.nextOwner, PreviousValid(value, generation)), inner.nextOwner + 1),
               Begin(inner.nextOwner, next,
                     Some((value, match reason case Some(r) => r case None => ExpiringSoon)))))
    case Refreshing(n, _, owner, _) => (inner, Wait(n, owner))
    case Failed(_, error, retryAt) => (
      if retryAt.Some? && retryAt.value > clock.now then (inner, Fail(error))
      else
        match NextGeneration(inner.state)
        case Err(e) => (inner, Fail(e))
        case Ok(next) =>
          if inner.nextOwner >= U64_MAX then (inner, Fail(OWNER_OVERFLOW))
          else
            (Inner(Refreshing(notify, next, inner.nextOwner, PreviousFailed(error, retryAt)), inner.nextOwner + 1),
             Begin(inner.nextOwner, next, None)))
    case Empty(_) =>
      if inner.nextOwner >= U64_MAX then (inner, Fail(OWNER_OVERFLOW))
      else
        match NextGeneration(inner.state)
        // The owner number is spent even though no refresh begins.
        case Err(e) => (inner.(nextOwner := inner.nextOwner + 1), Fail(e))
        case Ok(next) =>
          (Inner(Refreshing(notify, next, inner.nextOwner, NoPrevious), inner.nextOwner + 1),
           Begin(inner.nextOwner, next, None))
  }

  /** First lock of a commit: the refresh's wake-up handle, if the attempt still owns the slot. */
  function CommitCheckSpec(inner: Inner, owner: nat, generation: nat): Option<nat> {
    if Current(inner.state, owner) && inner.state.generation == generation then Some(inner.state.notify) else None
  }

  /** Second lock of a commit. */
  function CommitStoreSpec(inner: Inner, owner: nat, generation: nat, result: Result<Credential, AuthError>,
                           now: Instant, max: Instant): (Inner, CommitOutcome) {
    if CommitCheckSpec(inner, owner, generation).None? then (inner, StaleOwner)
    else
      match result
      case Ok(value) => (inner.(state := Valid(value, generation)), Stored(Lease(value, generation)))
      case Err(error) =>
        match error.retryAfter
        case None => (inner.(state := Failed(generation, error, None)), CommitFailed(error))
        case Some(wait) =>
          match CheckedInstantAdd(now, wait, max, "auth retry-after overflowed")
          case Err(e) => (inner, RetryAfterOverflow(e))
          case Ok(at) => (inner.(state := Failed(generation, error, Some(at))), CommitFailed(error))
  }

  /** Drop of an armed refresh guard: roll back if it still owns the slot, and say whom to wake. */
  function DropGuardSpec(inner: Inner, owner: nat): (Inner, Option<nat>) {
    if Current(inner.state, owner) then
      (inner.(state := RestoreAt(inner.state.previous, inner.state.generation)), Some(inner.state.notify))
    else (inner, None)
  }

  predicate Matches(expected: Option<nat>, actual: nat) {
    expected.None? || expected.value == actual
  }

  /** The credential an invalidation of `expected` takes away, if any. */
  function InvalidationTarget(state: SlotState, expected: Option<nat>): Option<Credential> {
    match state
    case Valid(value, generation) => if Matches(expected, generation) then Some(value) else None
    case Refreshing(_, _, _, PreviousValid(value, generation)) =>
      if Matches(expected, generation) then Some(value) else None
    case _ => None
  }

  function InvalidateSpec(inner: Inner, expected: Option<nat>): Result<(Inner, Option<Credential>), AuthError> {
    match inner.state
    case Valid(value, generation) => (
      if !Matches(expected, generation) then Ok((inner, None))
      else
        match NextGeneration(inner.state)
        case Err(e) => Err(e)
        case Ok(next) => Ok((inner.(state := Empty(next)), Some(value))))
    case Refreshing(notify, generation, owner, PreviousValid(value, previousGeneration)) =>
      if !Matches(expected, previousGeneration) then Ok((inner, None))
      else Ok((inner.(state := Refreshing(notify, generation, owner, NoPrevious)), Some(value)))
    case _ => Ok((inner, None))
  }

  /** The common part of `set_manual` and `clear_manual`: replace the state one generation on, and say whom to wake. */
  function ReplaceSpec(inner: Inner, value: Option<Credential>): Result<(Inner, Option<nat>), AuthError> {
    match NextGeneration(inner.state)
    case Err(e) => Err(e)
    case Ok(next) =>
      var state := match value case Some(v) => Valid(v, next) case None => Empty(next);
      Ok((inner.(state := state), if inner.state.Refreshing? then Some(inner.state.notify) else None))
  }

  // ----- what single critical sections guarantee

  /**
  An invalidation changes the slot exactly when it has a target and no counter
  overflows; otherwise the slot is left as it was.
  */
  lemma InvalidationIsExact(inner: Inner, expected: Option<nat>)
    ensures InvalidateSpec(inner, expected).Err?
       <==> inner.state.Valid? && InvalidationTarget(inner.state, expected).Some? && inner.state.generation >= U64_MAX
    ensures InvalidateSpec(inner, expected).Ok? ==>
              var (after, taken) := InvalidateSpec(inner, expected).value;
              && taken == InvalidationTarget(inner.state, expected)
              && (after == inner <==> taken.None?)
              && InvalidationTarget(after.state, expected).None?
              && after.state.Refreshing? == inner.state.Refreshing?
              && (inner.state.Refreshing? ==> after.state.owner == inner.state.owner)
  {
  }

  /** No critical section lowers the generation, and only a begin, an applied invalidation or a replace can raise it. */
  lemma GenerationsOnlyGrow(inner: Inner, skew: Duration, clock: Clock, n: nat, owner: nat, g: nat,
                            result: Result<Credential, AuthError>, expected: Option<nat>, value: Option<Credential>)
    ensures InspectSpec(inner, skew, clock, n).0.state.generation
         == inner.state.generation + (if InspectSpec(inner, skew, clock, n).1.Begin? then 1 else 0)
    ensures CommitStoreSpec(inner, owner, g, result, clock.now, clock.max).0.state.generation == inner.state.generation
    ensures DropGuardSpec(inner, owner).0.state.generation == inner.state.generation
    ensures InvalidateSpec(inner, expected).Ok? ==>
              inner.state.generation <= InvalidateSpec(inner, expected).value.0.state.generation
    ensures ReplaceSpec(inner, value).Ok? ==>
              ReplaceSpec(inner, value).value.0.state.generation == inner.state.generation + 1
  {
  }

  /**
  The slot itself. Each method is one critical section; `initError` is set when
  the provider could not be built.
  */
  class CredentialSlot {
    const initError: Option<AuthError>
    var state: SlotState
    var nextOwner: nat

    ghost function Guarded(): Inner
      reads this
    {
      Inner(state, nextOwner)
    }

    constructor (initError: Option<AuthError>)
      ensures Guarded() == Inner(Empty(0), 1)
      ensures this.initError == initError
    {
      this.initError := initError;
      state := Empty(0);
      nextOwner := 1;
    }

    /** Takes an owner number off the counter. */
    method NextRefreshOwner() returns (r: Result<nat, AuthError>)
      modifies this`nextOwner
      ensures old(nextOwner) < U64_MAX ==> r == Ok(old(nextOwner)) && nextOwner == old(nextOwner) + 1
      ensures old(nextOwner) >= U64_MAX ==> r == Err(OWNER_OVERFLOW) && nextOwner == old(nextOwner)
    {
      var owner := nextOwner;
      if nextOwner >= U64_MAX {
        return Err(OWNER_OVERFLOW);
      }
      nextOwner := nextOwner + 1;
      return Ok(owner);
    }

    method Inspect(skew: Duration, clock: Clock, notify: nat) returns (action: Action)
      modifies this
      ensures initError.Some? ==> action == Fail(initError.value) && Guarded() == old(Guarded())
      ensures initError.None? ==> (Guarded(), action) == InspectSpec(old(Guarded()), skew, clock, notify)
    {
      if initError.Some? {
        return Fail(initError.value);
      }
      match state {
        case Valid(value, previousGeneration) =>
          var reason := ReasonToRefresh(value, skew, clock.now, clock.max);
          if reason.Err? {
            return Fail(reason.error);
          }
          if reason.value.None? {
            return Return(Lease(value, previousGeneration));
          }
          var generation := NextGeneration(state);
          if generation.Err? {
            return Fail(generation.error);
          }
          reason := ReasonToRefresh(value, skew, clock.later, clock.max);
          if reason.Err? {
            return Fail(reason.error);
          }
          var owner := NextRefreshOwner();
          if owner.Err? {
            return Fail(owner.error);
          }
          state := Refreshing(notify, generation.value, owner.value, PreviousValid(value, previousGeneration));
          var why := if reason.value.Some? then reason.value.value else ExpiringSoon;
          return Begin(owner.value, generation.value, Some((value, why)));
        case Refreshing(n, _, owner, _) =>
          return Wait(n, owner);
        case Failed(_, error, retryAt) =>
          if retryAt.Some? && retryAt.value > clock.now {
            return Fail(error);
          }
          var generation := NextGeneration(state);
          if generation.Err? {
            return Fail(generation.error);
          }
          var owner := NextRefreshOwner();
          if owner.Err? {
            return Fail(owner.error);
          }
          state := Refreshing(notify, generation.value, owner.value, PreviousFailed(error, retryAt));
          return Begin(owner.value, generation.value, None);
        case Empty(_) =>
          var owner := NextRefreshOwner();
          if owner.Err? {
            return Fail(owner.error);
          }
          var generation := NextGeneration(state);
          if generation.Err? {
            return Fail(generation.error);
          }
          state := Refreshing(notify, generation.value, owner.value, NoPrevious);
          return Begin(owner.value, generation.value, None);
      }
    }

    method CommitCheck(owner: nat, generation: nat) returns (notify: Option<nat>)
      ensures notify == CommitCheckSpec(Guarded(), owner, generation)
    {
      match state {
        case Refreshing(n, g, o, _) =>
          if o == owner && g == generation {
            return Some(n);
          }
        case _ =>
      }
      return None;
    }

    method CommitStore(owner: nat, generation: nat, result: Result<Credential, AuthError>, now: Instant, max: Instant)
      returns (outcome: CommitOutcome)
      modifies this`state
      ensures (Guarded(), outcome) == CommitStoreSpec(old(Guarded()), owner, generation, result, now, max)
    {
      if !(state.Refreshing? && state.owner == owner && state.generation == generation) {
        return StaleOwner;
      }
      match result {
        case Ok(value) =>
          state := Valid(value, generation);
          return Stored(Lease(value, generation));
        case Err(error) =>
          var retryAt: Option<Instant> := None;
          if error.retryAfter.Some? {
            var at := CheckedInstantAdd(now, error.retryAfter.value, max, "auth retry-after overflowed");
            if at.Err? {
              return RetryAfterOverflow(at.error);
            }
            retryAt := Some(at.value);
          }
          state := Failed(generation, error, retryAt);
          return CommitFailed(error);
      }
    }

    method DropGuard(owner: nat) returns (notify: Option<nat>)
      modifies this`state
      ensures (Guarded(), notify) == DropGuardSpec(old(Guarded()), owner)
    {
      if state.Refreshing? && state.owner == owner {
        notify := Some(state.notify);
        state := RestoreAt(state.previous, state.generation);
      } else {
        notify := None;
      }
    }

    method InvalidateGeneration(expected: Option<nat>) returns (r: Result<Option<Credential>, AuthError>)
      modifies this`state
      ensures match InvalidateSpec(old(Guarded()), expected)
              case Err(e) => r == Err(e) && Guarded() == old(Guarded())
              case Ok((after, taken)) => r == Ok(taken) && Guarded() == after
    {
      match state {
        case Valid(value, generation) =>
          if expected.None? || expected.value == generation {
            var next := NextGeneration(state);
            if next.Err? {
              return Err(next.error);
            }
            state := Empty(next.value);
            return Ok(Some(value));
          }
        case Refreshing(notify, generation, owner, PreviousValid(value, previousGeneration)) =>
          if expected.None? || expected.value == previousGeneration {
            state := Refreshing(notify, generation, owner, NoPrevious);
            return Ok(Some(value));
          }
        case _ =>
      }
      return Ok(None);
    }

    /** `set_manual` with a value, `clear_manual` without one. */
    method Replace(value: Option<Credential>) returns (r: Result<Option<nat>, AuthError>)
      modifies this`state
      ensures initError.Some? ==> r == Err(initError.value) && Guarded() == old(Guarded())
      ensures initError.None? ==>
                match ReplaceSpec(old(Guarded()), value)
                case Err(e) => r == Err(e) && Guarded() == old(Guarded())
                case Ok((after, notify)) => r == Ok(notify) && Guarded() == after
    {
      if initError.Some? {
        return Err(initError.value);
      }
      var generation := NextGeneration(state);
      if generation.Err? {
        return Err(generation.error);
      }
      var notify := if state.Refreshing? then Some(state.notify) else None;
      state := if value.Some? then Valid(value.value, generation.value) else Empty(generation.value);
      return Ok(notify);
    }

    method GetCached() returns (lease: Option<Lease>)
      ensures lease.Some? <==> initError.None? && state.Valid?
      ensures lease.Some? ==> lease.value == Lease(state.value, state.generation)
    {
      if initError.None? && state.Valid? {
        return Some(Lease(state.value, state.generation));
      }
      return None;
    }
  }
}
