/**
Size hints through nested bodies: any stack of `HintedBody`, `LimitedBody`,
`BoundedResponseStream` and `ExactLengthBody` over a body that reports a hint of
its own after every poll.
*/
module BodyHints {
  import opened Prelude
  import opened BodyAdapters

  datatype Hint = Hint(lower: nat, upper: Option<nat>)

  /** What `SizeHint` asserts of itself. */
  predicate WellFormed(h: Hint) {
    h.upper.Some? ==> h.lower <= h.upper.value
  }

  predicate Within(h: Hint, n: nat) {
    h.lower <= n && (h.upper.Some? ==> n <= h.upper.value)
  }

  const EMPTY_HINT := Hint(0, Some(0))

  /** One answer of the innermost body and the hint it reports afterwards. */
  datatype Stage = Stage(answer: Polled, hint: Hint)

  datatype Stack =
    | Base(now: Hint, stages: seq<Stage>)
    | Hinted(inner: Stack, lower: nat, upper: Option<nat>, terminal: bool)
    | Limiting(inner: Stack, limit: nat, seen: nat, terminal: bool)
    | Bounding(inner: Stack, cap: Option<nat>, seen: nat, terminal: bool)
    | Exacting(inner: Stack, expected: nat, seen: nat, terminal: bool)

  // ----- the bodies

  /** The three mutable fields of a `HintedBody`. */
  datatype Declared = Declared(lower: nat, upper: Option<nat>, terminal: bool)

  /** What one answer of the inner body does to a declared hint. */
  function HintAfter(d: Declared, answer: Polled): Declared {
    match answer
    case Data(bytes) =>
      Declared(SaturatingSub(d.lower, |bytes|),
               if d.upper.Some? && |bytes| <= d.upper.value then Some(d.upper.value - |bytes|) else None,
               d.terminal)
    case End => Declared(0, Some(0), true)
    case _ => d
  }

  function Poll(b: Stack): (Stack, Polled) {
    match b
    case Base(now, stages) =>
      if stages == [] then (b, End) else (Base(stages[0].hint, stages[1..]), stages[0].answer)
    case Hinted(inner, lower, upper, terminal) =>
      if terminal then (b, End)
      else
        var (inner', answer) := Poll(inner);
        var d := HintAfter(Declared(lower, upper, false), answer);
        (Hinted(inner', d.lower, d.upper, d.terminal), answer)
    case Limiting(inner, limit, seen, terminal) =>
      if terminal then (b, End)
      else
        var (inner', answer) := Poll(inner);
        var (m, out) := Step(Meter(Limited(limit), seen, false), answer);
        (Limiting(inner', limit, m.seen, m.terminal), out)
    case Bounding(inner, cap, seen, terminal) =>
      if terminal then (b, End)
      else
        var (inner', answer) := Poll(inner);
        var (m, out) := Step(Meter(Bounded(cap), seen, false), answer);
        (Bounding(inner', cap, m.seen, m.terminal), out)
    case Exacting(inner, expected, seen, terminal) =>
      if terminal then (b, End)
      else
        var (inner', answer) := Poll(inner);
        var (m, out) := Step(Meter(ExactLength(expected), seen, false), answer);
        (Exacting(inner', expected, m.seen, m.terminal), out)
  }

  /** An inner hint cut at what the limit still allows. */
  function CutHint(h: Hint, limit: nat, seen: nat): Hint {
    var remaining := SaturatingSub(limit, seen);
    Hint(if h.lower <= remaining then h.lower else 0,
         Some(if h.upper.Some? then Min(h.upper.value, remaining) else remaining))
  }

  function SizeHint(b: Stack): Hint {
    match b
    case Base(now, _) => now
    case Hinted(_, lower, upper, terminal) => if terminal then EMPTY_HINT else Hint(lower, upper)
    case Limiting(inner, limit, seen, terminal) =>
      if terminal then EMPTY_HINT else CutHint(SizeHint(inner), limit, seen)
    case Bounding(inner, cap, seen, terminal) =>
      if terminal then EMPTY_HINT
      else if cap.None? then SizeHint(inner)
      else CutHint(SizeHint(inner), cap.value, seen)
    case Exacting(_, expected, seen, terminal) =>
      if terminal then EMPTY_HINT
      else
        var remaining := SaturatingSub(expected, seen);
        Hint(remaining, Some(remaining))
  }

  class HintedBody {
    const inner: ScriptedBody
    var lower: nat
    var upper: Option<nat>
    var terminal: bool

    constructor (inner: ScriptedBody, hint: Hint)
      ensures this.inner == inner && Value() == Declared(hint.lower, hint.upper, false)
    {
      this.inner, lower, upper, terminal := inner, hint.lower, hint.upper, false;
    }

    ghost function Value(): Declared
      reads this
    {
      Declared(lower, upper, terminal)
    }

    /** An error of the inner body passes through and, unlike in the counting adapters, does not end this one. */
    method PollFrame() returns (out: Polled)
      modifies this, inner
      ensures old(terminal) ==> out == End && Value() == old(Value()) && inner.script == old(inner.script)
      ensures !old(terminal) ==>
                && out == Next(old(inner.script)) && inner.script == Rest(old(inner.script))
                && Value() == HintAfter(old(Value()), out)
    {
      if terminal {
        return End;
      }
      out := inner.Poll();
      match out {
        case Data(bytes) =>
          lower := SaturatingSub(lower, |bytes|);
          upper := if upper.Some? && |bytes| <= upper.value then Some(upper.value - |bytes|) else None;
        case End =>
          terminal := true;
          lower := 0;
          upper := Some(0);
        case _ =>
      }
    }
  }

  // ----- hints stay well formed

  predicate Sound(b: Stack) {
    match b
    case Base(now, stages) => WellFormed(now) && forall i :: 0 <= i < |stages| ==> WellFormed(stages[i].hint)
    case Hinted(inner, lower, upper, _) => Sound(inner) && WellFormed(Hint(lower, upper))
    case Limiting(inner, _, _, _) => Sound(inner)
    case Bounding(inner, _, _, _) => Sound(inner)
    case Exacting(inner, _, _, _) => Sound(inner)
  }

  function PollTimes(b: Stack, n: nat): Stack
    decreases n
  {
    if n == 0 then b else PollTimes(Poll(b).0, n - 1)
  }

  lemma {:induction false} SoundHint(b: Stack)
    requires Sound(b)
    ensures WellFormed(SizeHint(b))
  {
    if b.Limiting? || b.Bounding? {
      SoundHint(b.inner);
    }
  }

  lemma {:induction false} PollKeepsSound(b: Stack)
    requires Sound(b)
    ensures Sound(Poll(b).0)
  {
    if !b.Base? && !b.terminal {
      PollKeepsSound(b.inner);
    }
  }

  /** However bodies are nested and however often they are polled, lower never exceeds upper. */
  lemma {:induction false} HintsStayWellFormed(b: Stack, n: nat)
    requires Sound(b)
    ensures WellFormed(SizeHint(PollTimes(b, n)))
    decreases n
  {
    if n == 0 {
      SoundHint(b);
    } else {
      PollKeepsSound(b);
      HintsStayWellFormed(Poll(b).0, n - 1);
    }
  }

  // ----- honest hints stay honest

  function StagesLeft(b: Stack): nat {
    if b.Base? then |b.stages| else StagesLeft(b.inner)
  }

  lemma {:induction false} PollConsumes(b: Stack)
    ensures StagesLeft(Poll(b).0) <= StagesLeft(b)
    ensures Poll(b).1.End? || Poll(b).1.Failed? || StagesLeft(Poll(b).0) < StagesLeft(b)
  {
    if !b.Base? && !b.terminal {
      PollConsumes(b.inner);
    }
  }

  /** The bytes still to come, if the run from here ends cleanly. */
  function ToCome(b: Stack): Option<nat>
    decreases StagesLeft(b)
  {
    PollConsumes(b);
    var (b', answer) := Poll(b);
    match answer
    case End => Some(0)
    case Failed(_) => None
    case Data(bytes) => (match ToCome(b') case None => None case Some(n) => Some(n + |bytes|))
    case _ => ToCome(b')
  }

  /** The innermost body's hints bound what it still delivers, at every stage. */
  predicate HonestBase(now: Hint, stages: seq<Stage>)
    decreases |stages|
  {
    && (ToCome(Base(now, stages)).Some? ==> Within(now, ToCome(Base(now, stages)).value))
    && (stages != [] ==> HonestBase(stages[0].hint, stages[1..]))
  }

  /** Every declared hint bounds what the body it wraps still delivers. */
  predicate Honest(b: Stack) {
    match b
    case Base(now, stages) => HonestBase(now, stages)
    case Hinted(inner, lower, upper, terminal) =>
      && Honest(inner)
      && (!terminal && ToCome(inner).Some? ==> Within(Hint(lower, upper), ToCome(inner).value))
    case Limiting(inner, _, _, _) => Honest(inner)
    case Bounding(inner, _, _, _) => Honest(inner)
    case Exacting(inner, _, _, _) => Honest(inner)
  }

  /**
  A wrapper neither adds nor removes bytes of a clean run, a clean limited run
  fits its limit, and a clean exact run has its declared length.
  */
  lemma {:induction false} WrappersPass(b: Stack)
    requires !b.Base? && !b.terminal && ToCome(b).Some?
    ensures ToCome(b.inner) == ToCome(b)
    ensures b.Limiting? && b.seen <= b.limit ==> b.seen + ToCome(b).value <= b.limit
    ensures b.Bounding? && b.cap.Some? && b.seen <= b.cap.value < U64_MAX ==> b.seen + ToCome(b).value <= b.cap.value
    ensures b.Exacting? && b.seen <= b.expected && InReach(b.expected, b.seen, ToCome(b).value) ==>
              b.seen + ToCome(b).value == b.expected
    decreases StagesLeft(b)
  {
    PollConsumes(b);
    PollConsumes(b.inner);
    var (b', answer) := Poll(b);
    if !answer.End? {
      WrappersPass(b');
    }
  }

  lemma {:induction false} HonestHint(b: Stack)
    requires Honest(b) && ToCome(b).Some? && FitsLimits(b)
    ensures Within(SizeHint(b), ToCome(b).value)
    decreases b
  {
    if !b.Base? && !b.terminal {
      WrappersPass(b);
      if b.Limiting? || b.Bounding? {
        HonestHint(b.inner);
      }
    }
  }

  /** A saturating counter can count up to `bound`, or the rest of the run does not pass it. */
  predicate InReach(bound: nat, seen: nat, toCome: nat) {
    bound < U64_MAX || seen + toCome <= bound
  }

  /** A saturating counter below its bound, which the clean rest of the run leaves in reach. */
  predicate FitsCounter(inner: Stack, bound: nat, seen: nat, terminal: bool) {
    seen <= bound <= U64_MAX && (!terminal && ToCome(inner).Some? ==> InReach(bound, seen, ToCome(inner).value))
  }

  /** Counters start below their limits and stay there. */
  predicate FitsLimits(b: Stack) {
    match b
    case Base(_, _) => true
    case Hinted(inner, _, _, _) => FitsLimits(inner)
    case Limiting(inner, limit, seen, _) => seen <= limit && FitsLimits(inner)
    case Bounding(inner, cap, seen, terminal) =>
      (cap.Some? ==> FitsCounter(inner, cap.value, seen, terminal)) && FitsLimits(inner)
    case Exacting(inner, expected, seen, terminal) => FitsCounter(inner, expected, seen, terminal) && FitsLimits(inner)
  }

  /** What is to come after one poll. */
  lemma PollLeaves(b: Stack)
    ensures !Ends(Poll(b).1) ==>
              && ToCome(Poll(b).0).Some? == ToCome(b).Some?
              && (ToCome(b).Some? ==> ToCome(b).value == |BytesOf(Poll(b).1)| + ToCome(Poll(b).0).value)
  {
    PollConsumes(b);
  }

  /** One poll of a counting wrapper keeps its counter fitting. */
  lemma PollKeepsCounter(inner: Stack, a: Adapter, bound: nat, seen: nat)
    requires (a == Bounded(Some(bound)) || a == ExactLength(bound)) && FitsCounter(inner, bound, seen, false)
    ensures var m := Step(Meter(a, seen, false), Poll(inner).1).0;
            FitsCounter(Poll(inner).0, bound, m.seen, m.terminal)
  {
    PollLeaves(inner);
  }

  lemma {:induction false} PollKeepsFits(b: Stack)
    requires FitsLimits(b)
    ensures FitsLimits(Poll(b).0)
  {
    if !b.Base? && !b.terminal {
      PollKeepsFits(b.inner);
      if b.Bounding? && b.cap.Some? {
        PollKeepsCounter(b.inner, Bounded(b.cap), b.cap.value, b.seen);
      } else if b.Exacting? {
        PollKeepsCounter(b.inner, ExactLength(b.expected), b.expected, b.seen);
      }
    }
  }

  /** The hint of an exact-length body is the length of the clean rest of its run. */
  lemma ExactHintIsExact(b: Stack)
    requires b.Exacting? && FitsLimits(b) && ToCome(b).Some?
    ensures SizeHint(b) == Hint(ToCome(b).value, ToCome(b))
  {
    if !b.terminal {
      WrappersPass(b);
    }
  }

  /** One poll of a clean run keeps every hint honest and the rest of the run clean. */
  lemma {:induction false} PollKeepsHonest(b: Stack)
    requires Honest(b) && ToCome(b).Some?
    ensures Honest(Poll(b).0)
    ensures !Poll(b).1.End? ==> ToCome(Poll(b).0).Some?
    decreases b
  {
    PollConsumes(b);
    if !b.Base? && !b.terminal {
      WrappersPass(b);
      PollKeepsHonest(b.inner);
    }
  }

  /** A wrapper that has ended stays as it is: nothing is to come, and its hint says so. */
  lemma {:induction false} EndedStays(b: Stack, n: nat)
    requires !b.Base? && b.terminal
    ensures PollTimes(b, n) == b && ToCome(b) == Some(0) && Within(SizeHint(b), 0)
    decreases n
  {
    if n > 0 {
      EndedStays(b, n - 1);
    }
  }

  /**
  If every declared hint is honest and the run ends cleanly, then after any
  number of polls the bytes still to come lie within the reported bounds.
  */
  lemma {:induction false} HonestHintsStayHonest(b: Stack, n: nat)
    requires !b.Base? && Honest(b) && ToCome(b).Some? && FitsLimits(b)
    ensures ToCome(PollTimes(b, n)).Some? && Within(SizeHint(PollTimes(b, n)), ToCome(PollTimes(b, n)).value)
    decreases n
  {
    if b.terminal {
      EndedStays(b, n);
    } else if n == 0 {
      HonestHint(b);
    } else {
      PollKeepsHonest(b);
      PollKeepsFits(b);
      HonestHintsStayHonest(Poll(b).0, n - 1);
    }
  }

  /** The bytes still to come lie within the reported bounds after every number of polls. */
  ghost predicate AlwaysWithin(b: Stack) {
    forall n: nat :: var now := PollTimes(b, n); ToCome(now).Some? && Within(SizeHint(now), ToCome(now).value)
  }

  /**
  A response limit over an honest body keeps its hints honest for a whole clean
  run exactly when the run fits the limit. That is so for every limit that can be
  enforced; a run over a limit of 2^64-1 may pass it, and then the hint is wrong
  from the start.
  */
  lemma BoundedHintsHonestIff(b: Stack)
    requires b.Bounding? && !b.terminal && b.cap.Some? && b.seen <= b.cap.value <= U64_MAX
    requires Honest(b) && ToCome(b).Some? && FitsLimits(b.inner)
    ensures AlwaysWithin(b) <==> b.seen + ToCome(b).value <= b.cap.value
    ensures b.cap.value < U64_MAX ==> AlwaysWithin(b)
  {
    WrappersPass(b);
    if AlwaysWithin(b) {
      assert PollTimes(b, 0) == b;
    }
    if b.seen + ToCome(b).value <= b.cap.value {
      forall n: nat
        ensures var now := PollTimes(b, n); ToCome(now).Some? && Within(SizeHint(now), ToCome(now).value)
      {
        HonestHintsStayHonest(b, n);
      }
    }
  }

  // ----- exact hints stay exact

  predicate IsExact(h: Hint, n: nat) {
    h == Hint(n, Some(n))
  }

  /** The innermost body always reports exactly what it still delivers. */
  predicate ExactBase(now: Hint, stages: seq<Stage>)
    decreases |stages|
  {
    && (ToCome(Base(now, stages)).Some? ==> IsExact(now, ToCome(Base(now, stages)).value))
    && (stages != [] ==> ExactBase(stages[0].hint, stages[1..]))
  }

  /** The stack's hint comes from an exact one: the innermost body's, a declared one, or a declared length. */
  predicate ExactStack(b: Stack) {
    match b
    case Base(now, stages) => ExactBase(now, stages)
    case Hinted(inner, lower, upper, terminal) =>
      !terminal && ToCome(inner).Some? ==> IsExact(Hint(lower, upper), ToCome(inner).value)
    case Limiting(inner, _, _, _) => ExactStack(inner)
    case Bounding(inner, _, _, _) => ExactStack(inner)
    case Exacting(_, _, _, _) => true
  }

  lemma {:induction false} ExactHint(b: Stack)
    requires ExactStack(b) && ToCome(b).Some? && FitsLimits(b)
    ensures IsExact(SizeHint(b), ToCome(b).value)
    decreases b
  {
    if !b.Base? && !b.terminal {
      WrappersPass(b);
      if b.Limiting? || b.Bounding? {
        ExactHint(b.inner);
      }
    }
  }

  lemma {:induction false} PollKeepsExact(b: Stack)
    requires ExactStack(b) && ToCome(b).Some?
    ensures ExactStack(Poll(b).0)
    ensures !Poll(b).1.End? ==> ToCome(Poll(b).0).Some?
    decreases b
  {
    PollConsumes(b);
    if !b.Base? && !b.terminal {
      WrappersPass(b);
      PollLeaves(b.inner);
      if b.Limiting? || b.Bounding? {
        PollKeepsExact(b.inner);
      }
    }
  }

  /**
  Over a body that reports exact hints, an exact declared hint or a declared
  length, every wrapper reports exactly the bytes still to come, after every poll
  of a clean run: a limit that is not in the way loosens nothing.
  */
  lemma {:induction false} ExactHintsStayExact(b: Stack, n: nat)
    requires !b.Base? && ExactStack(b) && ToCome(b).Some? && FitsLimits(b)
    ensures var now := PollTimes(b, n); ToCome(now).Some? && IsExact(SizeHint(now), ToCome(now).value)
    decreases n
  {
    if b.terminal {
      EndedStays(b, n);
    } else if n == 0 {
      ExactHint(b);
    } else {
      PollKeepsExact(b);
      PollKeepsFits(b);
      ExactHintsStayExact(Poll(b).0, n - 1);
    }
  }

  /**
  A limit cuts an inner hint no more than it has to: a lower bound it leaves room
  for stays, one it does not becomes zero, and the upper bound is the smaller of
  the inner one and what the limit leaves.
  */
  lemma LimitCutsTightly(inner: Stack, limit: nat, seen: nat)
    requires seen <= limit
    ensures var (h, cut, left) := (SizeHint(inner), SizeHint(Limiting(inner, limit, seen, false)), limit - seen);
            && SizeHint(Bounding(inner, Some(limit), seen, false)) == cut
            && SizeHint(Bounding(inner, None, seen, false)) == h
            && (cut.lower == h.lower <= left || (cut.lower == 0 && left < h.lower))
            && cut.upper.Some? && cut.upper.value <= left && (h.upper.Some? ==> cut.upper.value <= h.upper.value)
            && (cut.upper.value == left || cut.upper == h.upper)
  {
  }

  /** Data takes its length off both declared bounds; an upper bound that data passed is given up. */
  lemma DeclaredHintShrinks(d: Declared, bytes: Chunk)
    ensures var after := HintAfter(d, Data(bytes));
            && (|bytes| <= d.lower ==> after.lower == d.lower - |bytes|) && (d.lower <= |bytes| ==> after.lower == 0)
            && (after.upper.Some? <==> d.upper.Some? && |bytes| <= d.upper.value)
            && (after.upper.Some? ==> after.upper.value + |bytes| == d.upper.value)
            && after.terminal == d.terminal
  {
  }
}
