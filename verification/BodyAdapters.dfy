/**
The byte-counting body adapters: `ExactLengthBody`, `LimitedBody`,
`MultipartByteStream` and `BoundedResponseStream`.

An inner body is a script: what it answers to its first poll, its second, and so
on, and the end of stream for ever after. A script may contain anything,
including frames after an end or an error.
*/
module BodyAdapters {
  import opened Prelude

  /** One data frame; no byte slice is longer than `isize::MAX`. */
  type Chunk = s: seq<byte> | |s| <= ISIZE_MAX witness []

  datatype BodyError =
    | Producer(code: nat)
    | LimitExceeded(limit: nat, observed: nat)
    | LengthUnderflow(expected: nat, observed: nat)
    | LengthOverflow(expected: nat, observed: nat)

  datatype Polled = Pending | Data(bytes: Chunk) | Trailers(fields: string) | Failed(error: BodyError) | End

  type Script = seq<Polled>

  function Next(script: Script): Polled {
    if script == [] then End else script[0]
  }

  function Rest(script: Script): Script {
    if script == [] then [] else script[1..]
  }

  datatype Adapter =
    | ExactLength(expected: nat)
    | Limited(limit: nat)
    | Multipart(declared: Option<nat>)
    | Bounded(cap: Option<nat>)

  /** The adapter with its two mutable fields. */
  datatype Meter = Meter(adapter: Adapter, seen: nat, terminal: bool)

  // ----- what each adapter does with one answer of its inner body

  function CountExact(expected: nat, seen: nat, bytes: Chunk): Result<nat, BodyError> {
    var observed := SaturatingAdd(seen, |bytes|);
    if observed > expected then Err(LengthOverflow(expected, observed)) else Ok(observed)
  }

  function Count(a: Adapter, seen: nat, bytes: Chunk): Result<nat, BodyError> {
    match a
    case ExactLength(expected) => CountExact(expected, seen, bytes)
    case Multipart(Some(expected)) => CountExact(expected, seen, bytes)
    case Multipart(None) => Ok(SaturatingAdd(seen, |bytes|))
    case Limited(limit) =>
      if seen + |bytes| > U64_MAX then Err(LimitExceeded(limit, U64_MAX))
      else if seen + |bytes| > limit then Err(LimitExceeded(limit, seen + |bytes|))
      else Ok(seen + |bytes|)
    case Bounded(cap) =>
      var actual := SaturatingAdd(seen, |bytes|);
      if cap.Some? && actual > cap.value then Err(LimitExceeded(cap.value, actual)) else Ok(actual)
  }

  function AtEnd(a: Adapter, seen: nat): Polled {
    match a
    case ExactLength(expected) => if seen == expected then End else Failed(LengthUnderflow(expected, seen))
    case Multipart(Some(expected)) => if seen == expected then End else Failed(LengthUnderflow(expected, seen))
    case _ => End
  }

  function Step(m: Meter, answer: Polled): (Meter, Polled) {
    match answer
    case Pending => (m, Pending)
    case Trailers(_) => (m, answer)
    case Failed(_) => (m.(terminal := true), answer)
    case End => (m.(terminal := true), AtEnd(m.adapter, m.seen))
    case Data(bytes) =>
      match Count(m.adapter, m.seen, bytes)
      case Err(e) => (m.(terminal := true), Failed(e))
      case Ok(seen) => (m.(seen := seen), answer)
  }

  /** One poll of the adapter: a terminal adapter does not touch its inner body. */
  function PollMeter(m: Meter, script: Script): (Meter, Script, Polled) {
    if m.terminal then (m, script, End)
    else
      var (m', out) := Step(m, Next(script));
      (m', Rest(script), out)
  }

  /** What the first `n` polls return. */
  function Trace(m: Meter, script: Script, n: nat): seq<Polled>
    decreases n
  {
    if n == 0 then []
    else
      var (m', script', out) := PollMeter(m, script);
      [out] + Trace(m', script', n - 1)
  }

  /** How often the first `n` polls reach the inner body. */
  function InnerPolls(m: Meter, script: Script, n: nat): nat
    decreases n
  {
    if n == 0 then 0
    else
      var (m', script', _) := PollMeter(m, script);
      (if m.terminal then 0 else 1) + InnerPolls(m', script', n - 1)
  }

  // ----- the adapters as objects

  class ScriptedBody {
    var script: Script

    constructor (script: Script)
      ensures this.script == script
    {
      this.script := script;
    }

    method Poll() returns (answer: Polled)
      modifies this
      ensures answer == Next(old(script)) && script == Rest(old(script))
    {
      answer := Next(script);
      script := Rest(script);
    }
  }

  class ExactLengthBody {
    const inner: ScriptedBody
    const expected: nat
    var seen: nat
    var terminal: bool

    constructor (inner: ScriptedBody, expected: nat)
      ensures this.inner == inner && Value() == Meter(ExactLength(expected), 0, false)
    {
      this.inner, this.expected, seen, terminal := inner, expected, 0, false;
    }

    ghost function Value(): Meter
      reads this
    {
      Meter(ExactLength(expected), seen, terminal)
    }

    method PollFrame() returns (out: Polled)
      modifies this, inner
      ensures (Value(), inner.script, out) == PollMeter(old(Value()), old(inner.script))
    {
      if terminal {
        return End;
      }
      var answer := inner.Poll();
      match answer {
        case Data(bytes) =>
          var observed := SaturatingAdd(seen, |bytes|);
          if observed > expected {
            terminal := true;
            return Failed(LengthOverflow(expected, observed));
          }
          seen := observed;
          return answer;
        case Failed(_) =>
          terminal := true;
          return answer;
        case End =>
          terminal := true;
          if seen == expected {
            return End;
          }
          return Failed(LengthUnderflow(expected, seen));
        case _ => return answer;
      }
    }
  }

  class LimitedBody {
    const inner: ScriptedBody
    const limit: nat
    var seen: nat
    var terminal: bool

    constructor (inner: ScriptedBody, limit: nat)
      ensures this.inner == inner && Value() == Meter(Limited(limit), 0, false)
    {
      this.inner, this.limit, seen, terminal := inner, limit, 0, false;
    }

    ghost function Value(): Meter
      reads this
    {
      Meter(Limited(limit), seen, terminal)
    }

    method PollFrame() returns (out: Polled)
      modifies this, inner
      ensures (Value(), inner.script, out) == PollMeter(old(Value()), old(inner.script))
    {
      if terminal {
        return End;
      }
      var answer := inner.Poll();
      match answer {
        case Data(bytes) =>
          if seen + |bytes| > U64_MAX {
            terminal := true;
            return Failed(LimitExceeded(limit, U64_MAX));
          }
          if seen + |bytes| > limit {
            terminal := true;
            return Failed(LimitExceeded(limit, seen + |bytes|));
          }
          seen := seen + |bytes|;
          return answer;
        case Failed(_) =>
          terminal := true;
          return answer;
        case End =>
          terminal := true;
          return End;
        case _ => return answer;
      }
    }
  }

  class MultipartByteStream {
    const inner: ScriptedBody
    const expected: Option<nat>
    var seen: nat
    var terminal: bool

    constructor (inner: ScriptedBody, expected: Option<nat>)
      ensures this.inner == inner && Value() == Meter(Multipart(expected), 0, false)
    {
      this.inner, this.expected, seen, terminal := inner, expected, 0, false;
    }

    ghost function Value(): Meter
      reads this
    {
      Meter(Multipart(expected), seen, terminal)
    }

    method PollNext() returns (out: Polled)
      modifies this, inner
      ensures (Value(), inner.script, out) == PollMeter(old(Value()), old(inner.script))
    {
      if terminal {
        return End;
      }
      var answer := inner.Poll();
      match answer {
        case Data(bytes) =>
          var observed := SaturatingAdd(seen, |bytes|);
          if expected.Some? && observed > expected.value {
            terminal := true;
            return Failed(LengthOverflow(expected.value, observed));
          }
          seen := observed;
          return answer;
        case Failed(_) =>
          terminal := true;
          return answer;
        case End =>
          terminal := true;
          if expected.Some? && seen != expected.value {
            return Failed(LengthUnderflow(expected.value, seen));
          }
          return End;
        case _ => return answer;
      }
    }
  }

  class BoundedResponseStream {
    const inner: ScriptedBody
    var limit: Option<nat>
    var seen: nat
    var terminal: bool

    constructor (inner: ScriptedBody, limit: Option<nat>)
      ensures this.inner == inner && Value() == Meter(Bounded(limit), 0, false)
    {
      this.inner, this.limit, seen, terminal := inner, limit, 0, false;
    }

    ghost function Value(): Meter
      reads this
    {
      Meter(Bounded(limit), seen, terminal)
    }

    method SetLimit(limit: nat)
      modifies this`limit
      ensures Value() == old(Value()).(adapter := Bounded(Some(limit)))
    {
      this.limit := Some(limit);
    }

    method PollFrame() returns (out: Polled)
      modifies this`seen, this`terminal, inner
      ensures (Value(), inner.script, out) == PollMeter(old(Value()), old(inner.script))
    {
      if terminal {
        return End;
      }
      var answer := inner.Poll();
      match answer {
        case Data(bytes) =>
          var actual := SaturatingAdd(seen, |bytes|);
          if limit.Some? && actual > limit.value {
            terminal := true;
            return Failed(LimitExceeded(limit.value, actual));
          }
          seen := actual;
          return answer;
        case Failed(_) =>
          terminal := true;
          return answer;
        case End =>
          terminal := true;
          return End;
        case _ => return answer;
      }
    }

    /** The next data frame; trailers are skipped and a pending poll is awaited. */
    method NextChunk() returns (r: Result<Option<Chunk>, BodyError>)
      modifies this`seen, this`terminal, inner
      ensures (Value(), inner.script, r) == NextChunkSpec(old(Value()), old(inner.script))
      ensures r.Ok? && r.value.Some? ==> !terminal && |inner.script| < |old(inner.script)|
    {
      while true
        invariant limit == old(limit)
        invariant NextChunkSpec(Value(), inner.script) == NextChunkSpec(old(Value()), old(inner.script))
        invariant |inner.script| <= |old(inner.script)|
        decreases |inner.script|, !terminal
      {
        var frame := PollFrame();
        match frame {
          case End => return Ok(None);
          case Failed(e) => return Err(e);
          case Data(bytes) => return Ok(Some(bytes));
          case _ =>
        }
      }
    }

    /** `room` is what the one result buffer can grow to; a buffer that would have to grow further panics. */
    method CollectBytes(room: nat) returns (r: Collected)
      modifies this`seen, this`terminal, inner
      ensures r == CollectSpec(old(Value()), old(inner.script), [], room)
    {
      var collected: seq<byte> := [];
      while true
        invariant limit == old(limit)
        invariant CollectSpec(Value(), inner.script, collected, room)
               == CollectSpec(old(Value()), old(inner.script), [], room)
        decreases |inner.script|, !terminal
      {
        var chunk := NextChunk();
        if chunk.Err? {
          return CollectFailed(chunk.error);
        }
        if chunk.value.None? {
          return Collected(collected);
        }
        if |collected| + |chunk.value.value| > room {
          return Overgrown;
        }
        collected := collected + chunk.value.value;
      }
    }
  }

  // ----- reading a whole response body

  function NextChunkSpec(m: Meter, script: Script): (r: (Meter, Script, Result<Option<Chunk>, BodyError>))
    ensures r.1 == script || |r.1| < |script|
    ensures r.2.Ok? && r.2.value.Some? ==> |r.1| < |script| && !r.0.terminal
    decreases |script|
  {
    var (m', script', out) := PollMeter(m, script);
    match out
    case End => (m', script', Ok(None))
    case Failed(e) => (m', script', Err(e))
    case Data(bytes) => (m', script', Ok(Some(bytes)))
    case _ => NextChunkSpec(m', script')
  }

  /** What collecting gives; `Overgrown` is the panic of a buffer that cannot grow. */
  datatype Collected = Collected(bytes: seq<byte>) | CollectFailed(error: BodyError) | Overgrown

  function CollectSpec(m: Meter, script: Script, collected: seq<byte>, room: nat): Collected
    decreases |script|
  {
    var (m', script', chunk) := NextChunkSpec(m, script);
    match chunk
    case Err(e) => CollectFailed(e)
    case Ok(None) => Collected(collected)
    case Ok(Some(bytes)) =>
      if |collected| + |bytes| > room then Overgrown else CollectSpec(m', script', collected + bytes, room)
  }

  // ----- the reference reading of a script

  function Bound(a: Adapter): Option<nat> {
    match a
    case ExactLength(expected) => Some(expected)
    case Limited(limit) => Some(limit)
    case Multipart(declared) => declared
    case Bounded(cap) => cap
  }

  /**
  The adapter counts up to its bound without losing bytes. A saturating counter
  stops at the largest 64-bit number, so a bound there is out of its reach; the
  limiter with the checked sum notices.
  */
  predicate Countable(a: Adapter) {
    if a.Limited? then a.limit <= U64_MAX else Bound(a).Some? ==> Bound(a).value < U64_MAX
  }

  predicate Over(bound: Option<nat>, total: nat) {
    bound.Some? && total > bound.value
  }

  /** The total length of the data frames. */
  function Total(script: Script): nat {
    if script == [] then 0 else (if script[0].Data? then |script[0].bytes| else 0) + Total(script[1..])
  }

  /** How many answers of the inner body pass through: up to an end, a failure, or the frame that breaks the bound. */
  function StopAt(bound: Option<nat>, seen: nat, script: Script): nat
    decreases |script|
  {
    if script == [] then 0
    else
      match script[0]
      case End => 0
      case Failed(_) => 0
      case Data(bytes) => if Over(bound, seen + |bytes|) then 0 else 1 + StopAt(bound, seen + |bytes|, script[1..])
      case _ => 1 + StopAt(bound, seen, script[1..])
  }

  /** The bytes that went through up to the stop, on top of `seen`. */
  function SeenAt(bound: Option<nat>, seen: nat, script: Script): nat
    decreases |script|
  {
    if script == [] then seen
    else
      match script[0]
      case End => seen
      case Failed(_) => seen
      case Data(bytes) => if Over(bound, seen + |bytes|) then seen else SeenAt(bound, seen + |bytes|, script[1..])
      case _ => SeenAt(bound, seen, script[1..])
  }

  /** The answer the adapter gives at the stop, after `seen` bytes went through. */
  function Verdict(a: Adapter, seen: nat, answer: Polled): Polled {
    match answer
    case Data(bytes) =>
      var observed := SaturatingAdd(seen, |bytes|);
      var bound := if Bound(a).Some? then Bound(a).value else 0;
      if a.Limited? || a.Bounded? then Failed(LimitExceeded(bound, observed))
      else Failed(LengthOverflow(bound, observed))
    case End =>
      if (a.ExactLength? || a.Multipart?) && Bound(a).Some? && Bound(a).value != seen
      then Failed(LengthUnderflow(Bound(a).value, seen)) else End
    case _ => answer
  }

  predicate Ends(out: Polled) {
    out.Failed? || out.End?
  }

  function At(script: Script, i: nat): Polled {
    if i < |script| then script[i] else End
  }

  /** What stops a run: an end, a failure, or a frame that breaks the bound. */
  predicate Stops(bound: Option<nat>, seen: nat, answer: Polled) {
    Ends(answer) || (answer.Data? && Over(bound, seen + |answer.bytes|))
  }

  lemma StopUnfolds(bound: Option<nat>, seen: nat, script: Script)
    requires script != []
    ensures var more := seen + |BytesOf(script[0])|;
            if Stops(bound, seen, script[0]) then
              StopAt(bound, seen, script) == 0 && SeenAt(bound, seen, script) == seen
            else
              && StopAt(bound, seen, script) == 1 + StopAt(bound, more, script[1..])
              && SeenAt(bound, seen, script) == SeenAt(bound, more, script[1..])
  {
  }

  /** The stop is at `k` after `total` bytes: nothing before it ends the run, and what is there does. */
  ghost predicate IsStop(bound: Option<nat>, seen: nat, script: Script, k: nat, total: nat) {
    && k <= |script|
    && (forall i :: 0 <= i < k ==> !Ends(script[i]))
    && total == seen + Total(script[..k])
    && (bound.Some? && seen <= bound.value ==> total <= bound.value)
    && Stops(bound, total, At(script, k))
  }

  lemma StopAfterOne(bound: Option<nat>, seen: nat, script: Script, k: nat, total: nat)
    requires script != [] && !Stops(bound, seen, script[0])
    requires IsStop(bound, seen + |BytesOf(script[0])|, script[1..], k, total)
    ensures IsStop(bound, seen, script, k + 1, total)
  {
    var rest := script[1..];
    assert script[..k + 1] == [script[0]] + rest[..k];
    assert forall i :: 1 <= i < k + 1 ==> script[i] == rest[i - 1];
    assert At(script, k + 1) == At(rest, k);
  }

  lemma {:induction false} StopIsInside(bound: Option<nat>, seen: nat, script: Script)
    ensures IsStop(bound, seen, script, StopAt(bound, seen, script), SeenAt(bound, seen, script))
    decreases |script|
  {
    assert script[..0] == [];
    if script != [] {
      StopUnfolds(bound, seen, script);
      if !Stops(bound, seen, script[0]) {
        var more := seen + |BytesOf(script[0])|;
        StopIsInside(bound, more, script[1..]);
        StopAfterOne(bound, seen, script, StopAt(bound, more, script[1..]), SeenAt(bound, more, script[1..]));
      }
    }
  }

  /** A run with its stop at `k`, after `total` bytes. */
  ghost predicate StopsAt(a: Adapter, script: Script, k: nat, total: nat, trace: seq<Polled>, polls: nat) {
    && k <= |script|
    && (forall i :: 0 <= i < |trace| && i < k ==> trace[i] == script[i])
    && (k < |trace| ==> trace[k] == Verdict(a, total, At(script, k)))
    && (forall i :: k < i < |trace| ==> trace[i] == End)
    && polls == Min(|trace|, k + 1)
  }

  /** The bytes an adapter with a bound counts up to its stop; without a bound nothing depends on them. */
  function CountAt(bound: Option<nat>, seen: nat, script: Script): nat {
    if bound.None? then 0 else SeenAt(bound, seen, script)
  }

  /** The whole behaviour of an adapter on a script. */
  ghost predicate Behaves(m: Meter, script: Script, trace: seq<Polled>, polls: nat) {
    var bound := Bound(m.adapter);
    StopsAt(m.adapter, script, StopAt(bound, m.seen, script), CountAt(bound, m.seen, script), trace, polls)
  }

  lemma {:induction false} TerminalIsSilent(m: Meter, script: Script, n: nat)
    requires m.terminal
    ensures |Trace(m, script, n)| == n && InnerPolls(m, script, n) == 0
    ensures forall i :: 0 <= i < n ==> Trace(m, script, n)[i] == End
  {
    if n > 0 {
      TerminalIsSilent(m, script, n - 1);
    }
  }

  /** Sums stay exact while the bound holds. */
  predicate Exact(m: Meter) {
    Bound(m.adapter).Some? ==> m.seen <= Bound(m.adapter).value
  }

  lemma StepCounts(m: Meter, bytes: Chunk)
    requires !m.terminal && Countable(m.adapter) && Exact(m)
    ensures var (m', out) := Step(m, Data(bytes));
            if Over(Bound(m.adapter), m.seen + |bytes|) then
              m'.terminal && out == Verdict(m.adapter, m.seen, Data(bytes))
            else
              && out == Data(bytes) && m' == m.(seen := m'.seen)
              && (Bound(m.adapter).Some? ==> m'.seen == m.seen + |bytes|)
  {
  }

  /** One answer passed through in front of a run moves its stop by one. */
  lemma StopsOneLater(a: Adapter, script: Script, k: nat, total: nat, rest: seq<Polled>, polls: nat)
    requires script != [] && k > 0 && StopsAt(a, script[1..], k - 1, total, rest, polls)
    ensures StopsAt(a, script, k, total, [script[0]] + rest, polls + 1)
  {
    assert At(script, k) == At(script[1..], k - 1);
  }

  /** A run that stops at once behaves. */
  lemma BehavesStop(m: Meter, m': Meter, script: Script, out: Polled, n: nat)
    requires m'.terminal && StopAt(Bound(m.adapter), m.seen, script) == 0
    requires out == Verdict(m.adapter, CountAt(Bound(m.adapter), m.seen, script), Next(script))
    ensures |Trace(m', Rest(script), n)| == n
    ensures Behaves(m, script, [out] + Trace(m', Rest(script), n), 1 + InnerPolls(m', Rest(script), n))
  {
    assert script[..0] == [];
    TerminalIsSilent(m', Rest(script), n);
  }

  /** The first poll either stops the run with its verdict or passes one answer through. */
  ghost predicate PollsFirst(m: Meter, script: Script, m': Meter, out: Polled) {
    var bound := Bound(m.adapter);
    if StopAt(bound, m.seen, script) == 0 then
      m'.terminal && out == Verdict(m.adapter, CountAt(bound, m.seen, script), Next(script))
    else
      && script != [] && out == script[0]
      && m' == m.(seen := m'.seen) && Exact(m')
      && StopAt(bound, m'.seen, Rest(script)) == StopAt(bound, m.seen, script) - 1
      && CountAt(bound, m'.seen, Rest(script)) == CountAt(bound, m.seen, script)
  }

  lemma {:induction false} StopIgnoresSeen(a: nat, b: nat, script: Script)
    ensures StopAt(None, a, script) == StopAt(None, b, script)
    decreases |script|
  {
    if script != [] {
      var length := |BytesOf(script[0])|;
      StopIgnoresSeen(a + length, b + length, script[1..]);
      StopIgnoresSeen(a, b, script[1..]);
    }
  }

  lemma FirstData(m: Meter, script: Script, bytes: Chunk)
    requires !m.terminal && Countable(m.adapter) && Exact(m)
    requires script != [] && script[0] == Data(bytes)
    ensures PollsFirst(m, script, Step(m, Data(bytes)).0, Step(m, Data(bytes)).1)
  {
    StepCounts(m, bytes);
    var bound, more := Bound(m.adapter), m.seen + |bytes|;
    if !Over(bound, more) {
      assert StopAt(bound, m.seen, script) == 1 + StopAt(bound, more, script[1..]);
      StopIgnoresSeen(more, Step(m, Data(bytes)).0.seen, script[1..]);
    }
  }

  lemma FirstOther(m: Meter, script: Script)
    requires !m.terminal && Exact(m) && !Next(script).Data?
    ensures PollsFirst(m, script, Step(m, Next(script)).0, Step(m, Next(script)).1)
  {
    if script != [] {
      var bound := Bound(m.adapter);
      if !Ends(script[0]) {
        assert StopAt(bound, m.seen, script) == 1 + StopAt(bound, m.seen, script[1..]);
      }
    }
  }

  lemma FirstPoll(m: Meter, script: Script)
    requires !m.terminal && Countable(m.adapter) && Exact(m)
    ensures PollsFirst(m, script, Step(m, Next(script)).0, Step(m, Next(script)).1)
  {
    if Next(script).Data? {
      FirstData(m, script, script[0].bytes);
    } else {
      FirstOther(m, script);
    }
  }

  lemma TraceUnfolds(m: Meter, script: Script, n: nat)
    requires !m.terminal && n > 0
    ensures var m', out := Step(m, Next(script)).0, Step(m, Next(script)).1;
            && Trace(m, script, n) == [out] + Trace(m', Rest(script), n - 1)
            && InnerPolls(m, script, n) == 1 + InnerPolls(m', Rest(script), n - 1)
  {
  }

  /** A run that passes its first answer through behaves if the rest does. */
  lemma BehavesLater(m: Meter, m': Meter, script: Script, out: Polled, rest: seq<Polled>, polls: nat)
    requires PollsFirst(m, script, m', out) && StopAt(Bound(m.adapter), m.seen, script) > 0
    requires Behaves(m', Rest(script), rest, polls)
    ensures Behaves(m, script, [out] + rest, 1 + polls)
  {
    StopsOneLater(m.adapter, script, StopAt(Bound(m.adapter), m.seen, script),
                  CountAt(Bound(m.adapter), m.seen, script), rest, polls);
  }

  /** The first `n` polls have the behaviour of the adapter. */
  ghost predicate RunBehaves(m: Meter, script: Script, n: nat) {
    |Trace(m, script, n)| == n && Behaves(m, script, Trace(m, script, n), InnerPolls(m, script, n))
  }

  /** A run behaves if its first poll does and, where that passes an answer through, the rest does. */
  lemma OnePollBehaves(m: Meter, script: Script, n: nat, m': Meter, out: Polled)
    requires !m.terminal && n > 0 && (m', out) == Step(m, Next(script)) && PollsFirst(m, script, m', out)
    requires StopAt(Bound(m.adapter), m.seen, script) > 0 ==> RunBehaves(m', Rest(script), n - 1)
    ensures RunBehaves(m, script, n)
  {
    TraceUnfolds(m, script, n);
    if StopAt(Bound(m.adapter), m.seen, script) == 0 {
      BehavesStop(m, m', script, out, n - 1);
    } else {
      BehavesLater(m, m', script, out, Trace(m', Rest(script), n - 1), InnerPolls(m', Rest(script), n - 1));
    }
  }

  /**
  For every script and every number of polls, an adapter with a bound in its
  reach, or with none, passes answers through unchanged up to the stop, gives its
  verdict once, and then ends for ever without polling its inner body again.
  */
  lemma {:induction false} AdapterBehaves(m: Meter, script: Script, n: nat)
    requires !m.terminal && Countable(m.adapter) && Exact(m)
    ensures RunBehaves(m, script, n)
    decreases n
  {
    if n == 0 {
      StopIsInside(Bound(m.adapter), m.seen, script);
    } else {
      FirstPoll(m, script);
      var (m', out) := Step(m, Next(script));
      if StopAt(Bound(m.adapter), m.seen, script) > 0 {
        AdapterBehaves(m', Rest(script), n - 1);
      }
      OnePollBehaves(m, script, n, m', out);
    }
  }

  function Fresh(a: Adapter): Meter {
    Meter(a, 0, false)
  }

  // ----- exact length

  lemma {:induction false} TotalAppend(a: Script, b: Script)
    ensures Total(a + b) == Total(a) + Total(b)
  {
    if a == [] {
      assert a + b == b;
    } else {
      assert (a + b)[1..] == a[1..] + b;
      TotalAppend(a[1..], b);
    }
  }

  lemma {:induction false} TotalOfSilence(s: Script)
    requires forall i :: 0 <= i < |s| ==> !s[i].Data?
    ensures Total(s) == 0
  {
    if s != [] {
      TotalOfSilence(s[1..]);
    }
  }

  lemma TotalOfPrefix(script: Script, k: nat, stop: nat)
    requires k <= stop <= |script|
    ensures Total(script[..k]) <= Total(script[..stop])
  {
    assert script[..stop] == script[..k] + script[k..stop];
    TotalAppend(script[..k], script[k..stop]);
  }

  /** What reaches the consumer is the passed prefix: everything at and after the stop carries no data. */
  lemma StopDelivers(a: Adapter, script: Script, k: nat, total: nat, trace: seq<Polled>, polls: nat)
    requires StopsAt(a, script, k, total, trace, polls) && !Verdict(a, total, At(script, k)).Data?
    ensures trace[..Min(|trace|, k)] == script[..Min(|trace|, k)]
    ensures Total(trace) == Total(script[..Min(|trace|, k)])
  {
    var p := Min(|trace|, k);
    assert trace == trace[..p] + trace[p..];
    TotalAppend(trace[..p], trace[p..]);
    assert trace[..p] == script[..p];
    TotalOfSilence(trace[p..]);
  }

  /** What any adapter delivers is a prefix of the script, within the bound if there is one. */
  lemma DeliveredIsPrefix(m: Meter, script: Script, n: nat)
    requires !m.terminal && Countable(m.adapter) && Exact(m)
    ensures var k := Min(n, StopAt(Bound(m.adapter), m.seen, script));
            && k <= |script| && k <= |Trace(m, script, n)|
            && Trace(m, script, n)[..k] == script[..k]
            && Total(Trace(m, script, n)) == Total(script[..k])
            && (Bound(m.adapter).Some? ==> m.seen + Total(script[..k]) <= Bound(m.adapter).value)
  {
    AdapterBehaves(m, script, n);
    StopIsInside(Bound(m.adapter), m.seen, script);
    var stop := StopAt(Bound(m.adapter), m.seen, script);
    StopDelivers(m.adapter, script, stop, CountAt(Bound(m.adapter), m.seen, script),
                 Trace(m, script, n), InnerPolls(m, script, n));
    TotalOfPrefix(script, Min(n, stop), stop);
  }

  /** An end or a failure comes at the stop or later, so nothing but ends can follow it. */
  lemma StopIsFinal(a: Adapter, script: Script, k: nat, total: nat, trace: seq<Polled>, polls: nat)
    requires StopsAt(a, script, k, total, trace, polls)
    requires forall i :: 0 <= i < k ==> !Ends(script[i])
    ensures forall i :: 0 <= i < |trace| && Ends(trace[i]) ==> i >= k && polls <= i + 1
    ensures forall i, j :: 0 <= i < j < |trace| && Ends(trace[i]) ==> trace[j].End?
  {
  }

  /** Frames are delivered up to the declared length, and a clean end means all of it was delivered. */
  ghost predicate DeliversExactly(expected: nat, trace: seq<Polled>) {
    && Total(trace) <= expected
    && (forall i :: 0 <= i < |trace| && trace[i].End? && NoFailure(trace[..i]) ==> Total(trace) == expected)
  }

  /** One error at most; after an error or an end only ends, with the inner body left alone. */
  ghost predicate EndsOnce(trace: seq<Polled>, polls: nat) {
    && (forall i, j :: 0 <= i < j < |trace| && Ends(trace[i]) ==> trace[j].End?)
    && (forall i :: 0 <= i < |trace| && Ends(trace[i]) ==> polls <= i + 1)
  }

  /** Every adapter fails at most once and is silent after a failure or an end. */
  lemma AdapterEndsOnce(a: Adapter, script: Script, n: nat)
    requires Countable(a)
    ensures |Trace(Fresh(a), script, n)| == n
    ensures EndsOnce(Trace(Fresh(a), script, n), InnerPolls(Fresh(a), script, n))
  {
    AdapterBehaves(Fresh(a), script, n);
    StopIsInside(Bound(a), 0, script);
    StopIsFinal(a, script, StopAt(Bound(a), 0, script), CountAt(Bound(a), 0, script),
                Trace(Fresh(a), script, n), InnerPolls(Fresh(a), script, n));
  }

  lemma CleanEndIsExact(expected: nat, script: Script, k: nat, total: nat, trace: seq<Polled>, polls: nat, i: nat)
    requires StopsAt(ExactLength(expected), script, k, total, trace, polls)
    requires Ends(At(script, k)) || At(script, k).Data?
    requires k <= i < |trace| && trace[i].End? && NoFailure(trace[..i])
    ensures total == expected
  {
    if i > k {
      assert !trace[..i][k].Failed?;
    }
  }

  /**
  An exact-length body never delivers more than it declared, ends cleanly only
  after exactly the declared length, fails at most once, and after an end or a
  failure is silent and leaves its inner body alone.
  */
  lemma ExactLengthHolds(expected: nat, script: Script, n: nat)
    requires expected < U64_MAX
    ensures |Trace(Fresh(ExactLength(expected)), script, n)| == n
    ensures DeliversExactly(expected, Trace(Fresh(ExactLength(expected)), script, n))
    ensures EndsOnce(Trace(Fresh(ExactLength(expected)), script, n),
                     InnerPolls(Fresh(ExactLength(expected)), script, n))
  {
    var m := Fresh(ExactLength(expected));
    AdapterBehaves(m, script, n);
    DeliveredIsPrefix(m, script, n);
    StopIsInside(Some(expected), 0, script);
    var k, total := StopAt(Some(expected), 0, script), SeenAt(Some(expected), 0, script);
    var trace, polls := Trace(m, script, n), InnerPolls(m, script, n);
    StopIsFinal(m.adapter, script, k, total, trace, polls);
    forall i | 0 <= i < |trace| && trace[i].End? && NoFailure(trace[..i])
      ensures Total(trace) == expected
    {
      CleanEndIsExact(expected, script, k, total, trace, polls, i);
    }
  }

  /** A declared length of 2^64-1 is not enforced: saturated sums never exceed it. */
  lemma ExactLengthNeedsHeadroom(expected: nat)
    requires expected <= U64_MAX
    ensures expected < U64_MAX <==>
              forall script: Script, n: nat :: Total(Trace(Fresh(ExactLength(expected)), script, n)) <= expected
  {
    if expected < U64_MAX {
      forall script: Script, n: nat
        ensures Total(Trace(Fresh(ExactLength(expected)), script, n)) <= expected
      {
        ExactLengthHolds(expected, script, n);
      }
    } else {
      var script := ThreeLargest();
      assert Total(Trace(Fresh(ExactLength(expected)), script, 3)) > expected by {
        OverdeliversAtTop(ExactLength(expected), script);
      }
    }
  }

  /** Three data frames of the largest size. */
  function ThreeLargest(): Script {
    var largest: Chunk := seq(ISIZE_MAX, _ => 0);
    [Data(largest), Data(largest), Data(largest)]
  }

  /** The adapter's counter stays at the top instead of passing a bound there. */
  predicate Saturates(a: Adapter) {
    a == ExactLength(U64_MAX) || a == Bounded(Some(U64_MAX))
  }

  lemma OverdeliversAtTop(a: Adapter, script: Script)
    requires script == ThreeLargest() && Saturates(a)
    ensures Trace(Fresh(a), script, 3) == script && Total(script) > U64_MAX
  {
    var m1, m2 := Meter(a, ISIZE_MAX, false), Meter(a, 2 * ISIZE_MAX, false);
    assert PollMeter(Fresh(a), script) == (m1, script[1..], script[0]);
    assert PollMeter(m1, script[1..]) == (m2, script[2..], script[1]);
    assert PollMeter(m2, script[2..]) == (Meter(a, U64_MAX, false), script[3..], script[2]);
    assert Trace(m2, script[2..], 1) == [script[2]];
    assert Trace(m1, script[1..], 2) == [script[1], script[2]];
    assert Total(script[2..]) == ISIZE_MAX && Total(script[1..]) == 2 * ISIZE_MAX;
  }

  /** A multipart part with a declared length behaves like an exact-length body on every script. */
  lemma {:induction false} MultipartAgrees(expected: nat, seen: nat, terminal: bool, script: Script, n: nat)
    ensures Trace(Meter(Multipart(Some(expected)), seen, terminal), script, n)
         == Trace(Meter(ExactLength(expected), seen, terminal), script, n)
    ensures InnerPolls(Meter(Multipart(Some(expected)), seen, terminal), script, n)
         == InnerPolls(Meter(ExactLength(expected), seen, terminal), script, n)
    decreases n
  {
    if n > 0 {
      var (m, rest, _) := PollMeter(Meter(Multipart(Some(expected)), seen, terminal), script);
      MultipartAgrees(expected, m.seen, m.terminal, rest, n - 1);
    }
  }

  // ----- limits

  lemma {:induction false} LimitedAgreesWithBounded(limit: nat, seen: nat, terminal: bool, script: Script, n: nat)
    requires seen <= limit < U64_MAX
    ensures Trace(Meter(Limited(limit), seen, terminal), script, n)
         == Trace(Meter(Bounded(Some(limit)), seen, terminal), script, n)
    ensures InnerPolls(Meter(Limited(limit), seen, terminal), script, n)
         == InnerPolls(Meter(Bounded(Some(limit)), seen, terminal), script, n)
    decreases n
  {
    if n > 0 {
      var (m, rest, _) := PollMeter(Meter(Limited(limit), seen, terminal), script);
      LimitedAgreesWithBounded(limit, m.seen, m.terminal, rest, n - 1);
    }
  }

  /** The request limiter and the response limiter are the same machine exactly below 2^64-1. */
  lemma LimitersAgreeBelowTop(limit: nat)
    requires limit <= U64_MAX
    ensures limit < U64_MAX <==>
              forall script: Script, n: nat ::
                Trace(Fresh(Limited(limit)), script, n) == Trace(Fresh(Bounded(Some(limit))), script, n)
  {
    if limit < U64_MAX {
      forall script: Script, n: nat
        ensures Trace(Fresh(Limited(limit)), script, n) == Trace(Fresh(Bounded(Some(limit))), script, n)
      {
        LimitedAgreesWithBounded(limit, 0, false, script, n);
      }
    } else {
      var script := ThreeLargest();
      OverdeliversAtTop(Bounded(Some(limit)), script);
      RequestLimitHolds(limit, script, 3);
    }
  }

  /** A request limit is enforced on every script, the largest one included. */
  lemma RequestLimitHolds(limit: nat, script: Script, n: nat)
    requires limit <= U64_MAX
    ensures Total(Trace(Fresh(Limited(limit)), script, n)) <= limit
  {
    DeliveredIsPrefix(Fresh(Limited(limit)), script, n);
  }

  /** A response limit is enforced on every script exactly below 2^64-1. */
  lemma ResponseLimitHoldsIff(limit: nat)
    requires limit <= U64_MAX
    ensures limit < U64_MAX <==>
              forall script: Script, n: nat :: Total(Trace(Fresh(Bounded(Some(limit))), script, n)) <= limit
  {
    if limit < U64_MAX {
      forall script: Script, n: nat
        ensures Total(Trace(Fresh(Bounded(Some(limit))), script, n)) <= limit
      {
        DeliveredIsPrefix(Fresh(Bounded(Some(limit))), script, n);
      }
    } else {
      var script := ThreeLargest();
      OverdeliversAtTop(Bounded(Some(limit)), script);
      assert Total(Trace(Fresh(Bounded(Some(limit))), script, 3)) > limit;
    }
  }

  // ----- collecting a response body

  /** The answers before the first end of stream. */
  function UpToEnd(script: Script): Script {
    if script == [] || script[0].End? then [] else [script[0]] + UpToEnd(script[1..])
  }

  function DataOf(script: Script): seq<byte> {
    if script == [] then [] else (if script[0].Data? then script[0].bytes else []) + DataOf(script[1..])
  }

  predicate NoFailure(script: Script) {
    forall i :: 0 <= i < |script| ==> !script[i].Failed?
  }

  lemma CollectOnePoll(m: Meter, script: Script, collected: seq<byte>, room: nat)
    requires |collected| <= room
    ensures var (m', script', out) := PollMeter(m, script);
            CollectSpec(m, script, collected, room) ==
              if out.End? then Collected(collected)
              else if out.Failed? then CollectFailed(out.error)
              else if |collected| + |BytesOf(out)| > room then Overgrown
              else CollectSpec(m', script', collected + BytesOf(out), room)
  {
    assert collected + [] == collected;
  }

  /** The body reports no error and its data, on top of `seen`, fit the limit and the buffer. */
  predicate Collectable(cap: Option<nat>, room: nat, seen: nat, body: Script) {
    NoFailure(body) && !Over(cap, seen + Total(body)) && seen + Total(body) <= room
  }

  lemma CollectableCons(cap: Option<nat>, room: nat, seen: nat, body: Script)
    requires body != []
    ensures var more := seen + |BytesOf(body[0])|;
            Collectable(cap, room, seen, body) <==> !body[0].Failed? && Collectable(cap, room, more, body[1..])
  {
    assert forall i :: 1 <= i < |body| ==> body[i] == body[1..][i - 1];
  }

  /** The bytes of one answer. */
  function BytesOf(answer: Polled): seq<byte> {
    if answer.Data? then answer.bytes else []
  }

  /**
  One poll of an open response whose count so far a buffer could hold: it fails
  on a failure or an oversized frame, and otherwise passes the answer on and
  counts exactly.
  */
  lemma BoundedPoll(m: Meter, script: Script)
    requires m.adapter.Bounded? && !m.terminal && m.seen <= ISIZE_MAX
    requires script != [] && !script[0].End?
    ensures var (m', script', out) := PollMeter(m, script);
            var more := m.seen + |BytesOf(script[0])|;
            && script' == script[1..] && m'.adapter == m.adapter
            && (out.Failed? ==> script[0].Failed? || Over(m.adapter.cap, more))
            && (!out.Failed? ==>
                  out == script[0] && !m'.terminal && m'.seen == more && (out.Data? ==> !Over(m.adapter.cap, more)))
  {
  }

  /** `r` is what collecting `body` must give after `collected`. */
  ghost predicate CollectsAs(r: Collected, cap: Option<nat>, room: nat, body: Script, collected: seq<byte>) {
    && (r.Collected? <==> Collectable(cap, room, |collected|, body))
    && (r.Collected? ==> r.bytes == collected + DataOf(body))
    && (r.Overgrown? ==> cap.Some? ==> room < cap.value)
  }

  /** One passed answer in front of a body. */
  lemma CollectsOneMore(r: Collected, cap: Option<nat>, room: nat, body: Script, collected: seq<byte>)
    requires body != [] && !body[0].Failed?
    requires CollectsAs(r, cap, room, body[1..], collected + BytesOf(body[0]))
    ensures CollectsAs(r, cap, room, body, collected)
  {
    CollectableCons(cap, room, |collected|, body);
    assert collected + BytesOf(body[0]) + DataOf(body[1..]) == collected + (BytesOf(body[0]) + DataOf(body[1..]));
  }

  /** An answer that ends the collection early. */
  lemma CollectStops(r: Collected, cap: Option<nat>, room: nat, body: Script, collected: seq<byte>)
    requires body != [] && !r.Collected?
    requires var more := |collected| + |BytesOf(body[0])|;
             && (body[0].Failed? || Over(cap, more) || more > room)
             && (r.Overgrown? ==> !Over(cap, more) && more > room)
    ensures CollectsAs(r, cap, room, body, collected)
  {
    CollectableCons(cap, room, |collected|, body);
  }

  lemma {:induction false} CollectFrom(m: Meter, script: Script, collected: seq<byte>, room: nat)
    requires m.adapter.Bounded? && !m.terminal && m.seen == |collected| <= room <= ISIZE_MAX
    requires !Over(m.adapter.cap, m.seen)
    ensures CollectsAs(CollectSpec(m, script, collected, room), m.adapter.cap, room, UpToEnd(script), collected)
    decreases |script|
  {
    CollectOnePoll(m, script, collected, room);
    var body := UpToEnd(script);
    if body == [] {
      assert collected + DataOf(body) == collected;
    } else {
      var (m', script', out) := PollMeter(m, script);
      assert body[0] == script[0] && body[1..] == UpToEnd(script[1..]);
      BoundedPoll(m, script);
      if out.Failed? || |collected| + |BytesOf(out)| > room {
        CollectStops(CollectSpec(m, script, collected, room), m.adapter.cap, room, body, collected);
      } else {
        CollectFrom(m', script', collected + BytesOf(out), room);
        CollectsOneMore(CollectSpec(m, script, collected, room), m.adapter.cap, room, body, collected);
      }
    }
  }

  /**
  Collecting a response succeeds exactly when the body reports no error and its
  data fit both the limit and what one buffer can hold, and then returns all of
  the data. With a limit the buffer can hold, it never overgrows.
  */
  lemma CollectIsExact(cap: Option<nat>, room: nat, script: Script)
    requires room <= ISIZE_MAX
    ensures var r, body := CollectSpec(Fresh(Bounded(cap)), script, [], room), UpToEnd(script);
            && (r.Collected? <==> NoFailure(body) && !Over(cap, Total(body)) && Total(body) <= room)
            && (r.Collected? ==> r.bytes == DataOf(body))
            && (r.Overgrown? && cap.Some? ==> room < cap.value)
  {
    CollectFrom(Fresh(Bounded(cap)), script, [], room);
  }

  /**
  Which of the three outcomes collecting has, read off the point where the stream
  stops: it overgrows when the bytes up to there do not fit the buffer, fails with
  the stream's own verdict when it stops on a failure or on the frame that breaks
  the limit, and otherwise collects.
  */
  ghost predicate CollectEnds(r: Collected, cap: Option<nat>, room: nat, seen: nat, script: Script) {
    var total := SeenAt(cap, seen, script);
    var verdict := Verdict(Bounded(cap), total, At(script, StopAt(cap, seen, script)));
    if total > room then r.Overgrown?
    else if verdict.Failed? then r == CollectFailed(verdict.error)
    else r.Collected?
  }

  lemma CollectEndsLater(r: Collected, cap: Option<nat>, room: nat, seen: nat, script: Script)
    requires script != [] && !Stops(cap, seen, script[0])
    requires CollectEnds(r, cap, room, seen + |BytesOf(script[0])|, script[1..])
    ensures CollectEnds(r, cap, room, seen, script)
  {
    StopUnfolds(cap, seen, script);
    var k := StopAt(cap, seen, script);
    assert At(script, k) == At(script[1..], k - 1);
  }

  lemma {:induction false} SeenGrows(cap: Option<nat>, seen: nat, script: Script)
    ensures seen <= SeenAt(cap, seen, script)
  {
    StopIsInside(cap, seen, script);
  }

  lemma {:induction false} CollectEndsFrom(m: Meter, script: Script, collected: seq<byte>, room: nat)
    requires m.adapter.Bounded? && !m.terminal && m.seen == |collected| <= room <= ISIZE_MAX
    requires !Over(m.adapter.cap, m.seen)
    ensures CollectEnds(CollectSpec(m, script, collected, room), m.adapter.cap, room, m.seen, script)
    decreases |script|
  {
    var cap, r := m.adapter.cap, CollectSpec(m, script, collected, room);
    CollectOnePoll(m, script, collected, room);
    if script != [] && !script[0].End? {
      BoundedPoll(m, script);
      StopUnfolds(cap, m.seen, script);
      var (m', script', out) := PollMeter(m, script);
      if !Stops(cap, m.seen, script[0]) {
        if |collected| + |BytesOf(out)| > room {
          SeenGrows(cap, m.seen + |BytesOf(script[0])|, script[1..]);
        } else {
          CollectEndsFrom(m', script', collected + BytesOf(out), room);
          CollectEndsLater(r, cap, room, m.seen, script);
        }
      }
    }
  }

  /** Collecting a response ends as the point where its stream stops says. */
  lemma CollectOutcomeIsExact(cap: Option<nat>, room: nat, script: Script)
    requires room <= ISIZE_MAX
    ensures CollectEnds(CollectSpec(Fresh(Bounded(cap)), script, [], room), cap, room, 0, script)
  {
    CollectEndsFrom(Fresh(Bounded(cap)), script, [], room);
  }

  lemma {:induction false} DataLength(script: Script)
    ensures |DataOf(script)| == Total(script)
  {
    if script != [] {
      DataLength(script[1..]);
    }
  }

  /** Collected data fit every limit, 2^64-1 included: no buffer is long enough for the counter to saturate. */
  lemma CollectedFits(limit: nat, room: nat, script: Script)
    requires room <= ISIZE_MAX
    ensures var r := CollectSpec(Fresh(Bounded(Some(limit))), script, [], room);
            r.Collected? ==> |r.bytes| <= limit
  {
    CollectIsExact(Some(limit), room, script);
    DataLength(UpToEnd(script));
  }

  // ----- the first error of a request body

  class RequestBodyErrorSlot {
    var first: Option<BodyError>

    constructor ()
      ensures first == None
    {
      first := None;
    }

    method Record(error: BodyError)
      modifies this
      ensures first == Recorded(old(first), Failed(error))
    {
      if first.None? {
        first := Some(error);
      }
    }
  }

  class ObservedRequestBody {
    const inner: ScriptedBody
    const errors: RequestBodyErrorSlot

    constructor (inner: ScriptedBody, errors: RequestBodyErrorSlot)
      ensures this.inner == inner && this.errors == errors
    {
      this.inner, this.errors := inner, errors;
    }

    /** Every answer passes through; an error is recorded on its way. */
    method PollFrame() returns (out: Polled)
      modifies inner, errors
      ensures out == Next(old(inner.script)) && inner.script == Rest(old(inner.script))
      ensures errors.first == Recorded(old(errors.first), out)
    {
      out := inner.Poll();
      if out.Failed? {
        errors.Record(out.error);
      }
    }
  }

  /** What the slot of an observed body holds after one more answer. */
  function Recorded(slot: Option<BodyError>, out: Polled): Option<BodyError> {
    if out.Failed? && slot.None? then Some(out.error) else slot
  }

  function RecordedAll(slot: Option<BodyError>, trace: seq<Polled>): Option<BodyError>
    decreases |trace|
  {
    if trace == [] then slot else RecordedAll(Recorded(slot, trace[0]), trace[1..])
  }

  lemma {:induction false} RecordedKeeps(slot: Option<BodyError>, trace: seq<Polled>)
    ensures slot.Some? ==> RecordedAll(slot, trace) == slot
    ensures slot.None? && NoFailure(trace) ==> RecordedAll(slot, trace) == None
    ensures forall i :: 0 <= i < |trace| && trace[i].Failed? && NoFailure(trace[..i]) && slot.None? ==>
              RecordedAll(slot, trace) == Some(trace[i].error)
    decreases |trace|
  {
    if trace != [] {
      RecordedKeeps(Recorded(slot, trace[0]), trace[1..]);
      forall i | 0 <= i < |trace| && trace[i].Failed? && NoFailure(trace[..i]) && slot.None?
        ensures RecordedAll(slot, trace) == Some(trace[i].error)
      {
        if i > 0 {
          assert !trace[..i][0].Failed?;
          assert trace[1..][..i - 1] == trace[..i][1..];
          assert trace[1..][i - 1] == trace[i];
        }
      }
    }
  }

  /** Whatever body is observed, the slot holds its first error, and stays empty exactly when there was none. */
  lemma FirstErrorIsRecorded(trace: seq<Polled>)
    ensures RecordedAll(None, trace).None? <==> NoFailure(trace)
    ensures forall i :: 0 <= i < |trace| && trace[i].Failed? && NoFailure(trace[..i]) ==>
              RecordedAll(None, trace) == Some(trace[i].error)
  {
    RecordedKeeps(None, trace);
    if !NoFailure(trace) {
      FirstFailure(trace);
    }
  }

  lemma {:induction false} FirstFailure(trace: seq<Polled>)
    requires !NoFailure(trace)
    ensures exists i :: 0 <= i < |trace| && trace[i].Failed? && NoFailure(trace[..i])
  {
    var j :| 0 <= j < |trace| && trace[j].Failed?;
    if !NoFailure(trace[..j]) {
      FirstFailure(trace[..j]);
      var i :| 0 <= i < j && trace[..j][i].Failed? && NoFailure(trace[..j][..i]);
      assert trace[..j][..i] == trace[..i];
    }
  }

  /**
  An observed adapter leaves the reason of its failure in the slot: every error
  it ever returned is the recorded one.
  */
  lemma ObservedErrorIsTheError(a: Adapter, script: Script, n: nat)
    requires Countable(a)
    ensures var trace := Trace(Fresh(a), script, n);
            forall i :: 0 <= i < |trace| && trace[i].Failed? ==> RecordedAll(None, trace) == Some(trace[i].error)
  {
    var trace := Trace(Fresh(a), script, n);
    AdapterEndsOnce(a, script, n);
    FirstErrorIsRecorded(trace);
    forall i | 0 <= i < |trace| && trace[i].Failed?
      ensures RecordedAll(None, trace) == Some(trace[i].error)
    {
      assert NoFailure(trace[..i]);
    }
  }

  // ----- the shortcut for bodies already in memory

  function ValidateReusableExactLength(actual: nat, exact: Option<nat>): Option<BodyError> {
    match exact
    case None => None
    case Some(expected) =>
      if actual < expected then Some(LengthUnderflow(expected, actual))
      else if actual > expected then Some(LengthOverflow(expected, actual))
      else None
  }

  /** Checking a buffer's length up front reports exactly what streaming it through an exact-length body would. */
  lemma ReusableLengthAgrees(bytes: Chunk, expected: nat, n: nat)
    requires expected <= U64_MAX && n >= 2
    ensures RecordedAll(None, Trace(Fresh(ExactLength(expected)), [Data(bytes)], n))
         == ValidateReusableExactLength(|bytes|, Some(expected))
  {
    var m := Fresh(ExactLength(expected));
    var script: Script := [Data(bytes)];
    var (m1, s1, out1) := PollMeter(m, script);
    var (m2, s2, out2) := PollMeter(m1, s1);
    TerminalIsSilent(m2, s2, n - 2);
    var quiet := Trace(m2, s2, n - 2);
    assert Trace(m1, s1, n - 1) == [out2] + quiet;
    assert Trace(m, script, n) == [out1] + ([out2] + quiet);
    assert NoFailure(quiet);
    RecordedKeeps(Recorded(Recorded(None, out1), out2), quiet);
    assert ([out1] + ([out2] + quiet))[1..] == [out2] + quiet && ([out2] + quiet)[1..] == quiet;
  }
}
