/** Prepared request bodies: which of them can be produced again. */
module BodyReplay {
  import opened Prelude
  import opened BodyAdapters
  import opened BodyHints

  datatype PartBody = TextPart(text: string) | BytesPart(bytes: seq<byte>) | StreamPart(source: nat)

  datatype Part = Part(name: string, fileName: Option<string>, contentType: Option<string>, body: PartBody)

  datatype MediaType = Fixed(value: string) | Dynamic

  datatype Terminal =
    | NoBody
    | BytesBody(bytes: seq<byte>)
    | StreamBody(source: nat)
    | HttpBody(source: nat)
    | FormBody(parts: seq<Part>)

  /** One-shot sources sit in an option that a production takes them out of. */
  datatype Recipe =
    | EmptyRecipe
    | ReusableBytes(bytes: seq<byte>)
    | OneShotByteStream(stream: Option<nat>)
    | OneShotHttpBody(body: Option<nat>)
    | RequestBodyFactory
    | MultipartRecipe(form: Option<seq<Part>>)

  datatype ProductionError = AlreadyConsumed | FactoryFailure(error: BodyError)

  datatype Produced = Produced(terminal: Terminal, mediaType: Option<string>, exactLength: Option<nat>)

  datatype Prepared = Prepared(recipe: Recipe, mediaType: Option<MediaType>, sizeHint: Hint)

  // ----- multipart forms

  predicate IsReconstructible(parts: seq<Part>) {
    forall i :: 0 <= i < |parts| ==> !parts[i].body.StreamPart?
  }

  function ClonePartBody(body: PartBody): Option<PartBody> {
    match body
    case TextPart(text) => Some(TextPart(text))
    case BytesPart(bytes) => Some(BytesPart(bytes))
    case StreamPart(_) => None
  }

  /** Cloning part by part gives the whole form back, or nothing if some part is a stream. */
  method CloneIfReconstructible(parts: seq<Part>) returns (clone: Option<seq<Part>>)
    ensures clone == if IsReconstructible(parts) then Some(parts) else None
  {
    var cloned: seq<Part> := [];
    for i := 0 to |parts|
      invariant cloned == parts[..i]
      invariant IsReconstructible(parts[..i])
    {
      var body := ClonePartBody(parts[i].body);
      if body.None? {
        assert parts[i].body.StreamPart?;
        return None;
      }
      cloned := cloned + [Part(parts[i].name, parts[i].fileName, parts[i].contentType, body.value)];
      assert parts[..i + 1] == parts[..i] + [parts[i]];
    }
    assert parts[..|parts|] == parts;
    return Some(cloned);
  }

  // ----- production

  function FixedMediaType(b: Prepared): Option<string> {
    match b.mediaType
    case Some(Fixed(value)) => Some(value)
    case _ => None
  }

  /** `SizeHint::exact`. */
  function ExactOf(h: Hint): Option<nat> {
    if h.upper == Some(h.lower) then Some(h.lower) else None
  }

  function TerminalExactLength(terminal: Terminal, hint: Hint): Option<nat> {
    if terminal.FormBody? then None else ExactOf(hint)
  }

  predicate IsReplayable(b: Prepared) {
    match b.recipe
    case EmptyRecipe => true
    case ReusableBytes(_) => true
    case RequestBodyFactory => true
    case MultipartRecipe(Some(parts)) => IsReconstructible(parts)
    case _ => false
  }

  /** One production; `factory` is what the recipe's factory returns, if it has one. */
  function Produce(b: Prepared, factory: Result<Terminal, BodyError>): (Prepared, Result<Produced, ProductionError>) {
    match b.recipe
    case EmptyRecipe => (b, Ok(Produced(NoBody, None, None)))
    case ReusableBytes(bytes) => (b, Ok(Produced(BytesBody(bytes), FixedMediaType(b), None)))
    case OneShotByteStream(None) => (b, Err(AlreadyConsumed))
    case OneShotByteStream(Some(source)) =>
      (b.(recipe := OneShotByteStream(None)), Ok(Produced(StreamBody(source), FixedMediaType(b), ExactOf(b.sizeHint))))
    case OneShotHttpBody(None) => (b, Err(AlreadyConsumed))
    case OneShotHttpBody(Some(source)) =>
      (b.(recipe := OneShotHttpBody(None)), Ok(Produced(HttpBody(source), FixedMediaType(b), ExactOf(b.sizeHint))))
    case RequestBodyFactory => (
      match factory
      case Err(e) => (b, Err(FactoryFailure(e)))
      case Ok(terminal) =>
        (b, Ok(Produced(terminal, FixedMediaType(b), TerminalExactLength(terminal, b.sizeHint)))))
    case MultipartRecipe(None) => (b, Err(AlreadyConsumed))
    case MultipartRecipe(Some(parts)) =>
      (if IsReconstructible(parts) then b else b.(recipe := MultipartRecipe(None)),
       Ok(Produced(FormBody(parts), None, None)))
  }

  class PreparedBody {
    var recipe: Recipe
    const mediaType: Option<MediaType>
    const sizeHint: Hint

    constructor (b: Prepared)
      ensures Value() == b
    {
      recipe, mediaType, sizeHint := b.recipe, b.mediaType, b.sizeHint;
    }

    ghost function Value(): Prepared
      reads this
    {
      Prepared(recipe, mediaType, sizeHint)
    }

    method ProduceForExecution(factory: Result<Terminal, BodyError>) returns (r: Result<Produced, ProductionError>)
      modifies this
      ensures (Value(), r) == Produce(old(Value()), factory)
    {
      var fixed := if mediaType.Some? && mediaType.value.Fixed? then Some(mediaType.value.value) else None;
      match recipe {
        case EmptyRecipe => return Ok(Produced(NoBody, None, None));
        case ReusableBytes(bytes) => return Ok(Produced(BytesBody(bytes), fixed, None));
        case OneShotByteStream(stream) =>
          if stream.None? {
            return Err(AlreadyConsumed);
          }
          recipe := OneShotByteStream(None);
          return Ok(Produced(StreamBody(stream.value), fixed, ExactOf(sizeHint)));
        case OneShotHttpBody(body) =>
          if body.None? {
            return Err(AlreadyConsumed);
          }
          recipe := OneShotHttpBody(None);
          return Ok(Produced(HttpBody(body.value), fixed, ExactOf(sizeHint)));
        case RequestBodyFactory =>
          if factory.Err? {
            return Err(FactoryFailure(factory.error));
          }
          return Ok(Produced(factory.value, fixed, TerminalExactLength(factory.value, sizeHint)));
        case MultipartRecipe(form) =>
          if form.None? {
            return Err(AlreadyConsumed);
          }
          var clone := CloneIfReconstructible(form.value);
          if clone.None? {
            recipe := MultipartRecipe(None);
            clone := form;
          }
          return Ok(Produced(FormBody(clone.value), None, None));
      }
    }
  }

  // ----- any number of productions

  /** The body after productions with the given factory results. */
  function After(b: Prepared, factories: seq<Result<Terminal, BodyError>>): Prepared
    decreases |factories|
  {
    if factories == [] then b else After(Produce(b, factories[0]).0, factories[1..])
  }

  function Productions(b: Prepared, factories: seq<Result<Terminal, BodyError>>)
    : (r: seq<Result<Produced, ProductionError>>)
    ensures |r| == |factories|
    decreases |factories|
  {
    if factories == [] then []
    else
      var (b', first) := Produce(b, factories[0]);
      [first] + Productions(b', factories[1..])
  }

  /** The source of a one-shot body is gone. */
  predicate Consumed(b: Prepared) {
    match b.recipe
    case OneShotByteStream(None) => true
    case OneShotHttpBody(None) => true
    case MultipartRecipe(None) => true
    case _ => false
  }

  /** A replayable body is left as it was by any production; any other is consumed by its first. */
  lemma ProduceOnce(b: Prepared, factory: Result<Terminal, BodyError>)
    ensures IsReplayable(b) ==> Produce(b, factory).0 == b && Produce(b, factory).1 != Err(AlreadyConsumed)
    ensures !IsReplayable(b) ==> Consumed(Produce(b, factory).0) && !IsReplayable(Produce(b, factory).0)
    ensures Consumed(b) <==> Produce(b, factory).1 == Err(AlreadyConsumed)
  {
  }

  lemma {:induction false} ReplayableForever(b: Prepared, factories: seq<Result<Terminal, BodyError>>)
    requires IsReplayable(b)
    ensures After(b, factories) == b
    ensures forall i :: 0 <= i < |factories| ==> Productions(b, factories)[i] == Produce(b, factories[i]).1
    decreases |factories|
  {
    if factories != [] {
      ProduceOnce(b, factories[0]);
      ReplayableForever(b, factories[1..]);
      assert forall i :: 1 <= i < |factories| ==> Productions(b, factories)[i] == Productions(b, factories[1..])[i - 1];
    }
  }

  lemma {:induction false} ConsumedForever(b: Prepared, factories: seq<Result<Terminal, BodyError>>)
    requires Consumed(b)
    ensures After(b, factories) == b
    ensures forall i :: 0 <= i < |factories| ==> Productions(b, factories)[i] == Err(AlreadyConsumed)
    decreases |factories|
  {
    if factories != [] {
      ConsumedForever(b, factories[1..]);
    }
  }

  /**
  A body reports replayable exactly when no list of productions, of any length,
  meets AlreadyConsumed; a replayable body makes each production depend only on
  its factory; any other body produces at most once; and the report never
  changes.
  */
  lemma ReplayableIffNeverConsumed(b: Prepared)
    ensures IsReplayable(b) <==>
              forall factories: seq<Result<Terminal, BodyError>>, i :: 0 <= i < |factories| ==>
                Productions(b, factories)[i] != Err(AlreadyConsumed)
    ensures forall factories: seq<Result<Terminal, BodyError>> :: IsReplayable(After(b, factories)) == IsReplayable(b)
    ensures !IsReplayable(b) ==>
              forall factories: seq<Result<Terminal, BodyError>>, i :: 1 <= i < |factories| ==>
                Productions(b, factories)[i] == Err(AlreadyConsumed)
  {
    if IsReplayable(b) {
      forall factories: seq<Result<Terminal, BodyError>>
        ensures After(b, factories) == b
        ensures forall i :: 0 <= i < |factories| ==> Productions(b, factories)[i] != Err(AlreadyConsumed)
      {
        ReplayableForever(b, factories);
        forall i | 0 <= i < |factories|
          ensures Productions(b, factories)[i] != Err(AlreadyConsumed)
        {
          ProduceOnce(b, factories[i]);
        }
      }
    } else {
      forall factories: seq<Result<Terminal, BodyError>>
        ensures !IsReplayable(After(b, factories))
        ensures forall i :: 1 <= i < |factories| ==> Productions(b, factories)[i] == Err(AlreadyConsumed)
      {
        SecondProductionFails(b, factories);
      }
      var twice: seq<Result<Terminal, BodyError>> := [Ok(NoBody), Ok(NoBody)];
      SecondProductionFails(b, twice);
      assert Productions(b, twice)[1] == Err(AlreadyConsumed);
    }
  }

  lemma SecondProductionFails(b: Prepared, factories: seq<Result<Terminal, BodyError>>)
    requires !IsReplayable(b)
    ensures !IsReplayable(After(b, factories))
    ensures forall i :: 1 <= i < |factories| ==> Productions(b, factories)[i] == Err(AlreadyConsumed)
  {
    if factories != [] {
      ProduceOnce(b, factories[0]);
      var b' := Produce(b, factories[0]).0;
      ConsumedForever(b', factories[1..]);
      assert forall i :: 1 <= i < |factories| ==>
               Productions(b, factories)[i] == Productions(b', factories[1..])[i - 1];
    }
  }

  // ----- what a production carries

  /** The content the body was prepared with; a factory's content comes from the factory. */
  function Original(b: Prepared, factory: Result<Terminal, BodyError>): Option<Terminal> {
    match b.recipe
    case EmptyRecipe => Some(NoBody)
    case ReusableBytes(bytes) => Some(BytesBody(bytes))
    case OneShotByteStream(stream) => if stream.Some? then Some(StreamBody(stream.value)) else None
    case OneShotHttpBody(body) => if body.Some? then Some(HttpBody(body.value)) else None
    case RequestBodyFactory => if factory.Ok? then Some(factory.value) else None
    case MultipartRecipe(form) => if form.Some? then Some(FormBody(form.value)) else None
  }

  /** The content type the body was prepared with, for bodies that are not empty and do not make their own. */
  ghost predicate CarriesMediaType(b: Prepared, mediaType: Option<string>) {
    forall value :: mediaType == Some(value) <==>
      b.mediaType == Some(Fixed(value)) && !b.recipe.EmptyRecipe? && !b.recipe.MultipartRecipe?
  }

  /** A length is enforced exactly where a stream was declared with lower and upper bound equal. */
  ghost predicate CarriesLength(b: Prepared, produced: Produced) {
    forall n: nat :: produced.exactLength == Some(n) <==>
      && b.sizeHint == Hint(n, Some(n)) && !produced.terminal.FormBody?
      && (b.recipe.OneShotByteStream? || b.recipe.OneShotHttpBody? || b.recipe.RequestBodyFactory?)
  }

  /** What one successful production of `b` looks like. */
  ghost predicate Faithful(b: Prepared, factory: Result<Terminal, BodyError>, produced: Produced) {
    && Original(b, factory) == Some(produced.terminal)
    && CarriesMediaType(b, produced.mediaType)
    && CarriesLength(b, produced)
  }

  /** A production succeeds exactly when there is content, and then carries it. */
  lemma ProductionIsFaithful(b: Prepared, factory: Result<Terminal, BodyError>)
    ensures var (after, r) := Produce(b, factory);
            && (r.Ok? <==> Original(b, factory).Some?)
            && (r.Ok? ==> Faithful(b, factory, r.value))
            && (r.Err? ==>
                  r.error == if b.recipe.RequestBodyFactory? then FactoryFailure(factory.error) else AlreadyConsumed)
            && after.mediaType == b.mediaType && after.sizeHint == b.sizeHint
  {
  }

  /**
  However often a body is produced, each production that succeeds carries the
  content, the media type and the declared length it was prepared with.
  */
  lemma EveryProductionIsFaithful(b: Prepared, factories: seq<Result<Terminal, BodyError>>, i: nat)
    requires i < |factories| && Productions(b, factories)[i].Ok?
    ensures Faithful(b, factories[i], Productions(b, factories)[i].value)
  {
    if IsReplayable(b) {
      ReplayableForever(b, factories);
    } else {
      SecondProductionFails(b, factories);
      assert i == 0;
    }
    ProductionIsFaithful(b, factories[i]);
  }
}
