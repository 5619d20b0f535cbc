/**
The offset/limit controller behind the runtime adapter, and the proof that it
walks an honest server's list.
*/
module PaginationControllers {
  import opened Prelude
  import opened RequestIdentity
  import opened Pagination
  import opened HonestPagination

  // ----- the runtime adapter

  /** An adapter (no controller before `init`) together with the endpoint fields it is bound to. */
  datatype Bound<C> = Bound(pagination: Option<C>, endpoint: C)

  function AdapterInit<C>(b: Bound<C>): Result<Bound<C>, PaginationError> {
    if b.pagination.Some? then Err(RuntimeAlreadyInitialized) else Ok(b.(pagination := Some(b.endpoint)))
  }

  /** A controller's `apply` or `advance`: the state it leaves, which it may have changed before failing. */
  type ControllerStep<!C> = C -> (C, Option<PaginationError>)

  /** Run a controller step, and store the state it leaves back into the endpoint if it succeeds. */
  function AdapterStep<C>(b: Bound<C>, step: ControllerStep<C>): (Bound<C>, Option<PaginationError>) {
    if b.pagination.None? then (b, Some(RuntimeNotInitialized))
    else
      var (c, failure) := step(b.pagination.value);
      (Bound(Some(c), if failure.Some? then b.endpoint else c), failure)
  }

  function AsResult<C>(stepped: (Bound<C>, Option<PaginationError>)): Result<Bound<C>, PaginationError> {
    if stepped.1.Some? then Err(stepped.1.value) else Ok(stepped.0)
  }

  class BoundEndpoint<C> {
    var fields: C

    constructor (fields: C)
      ensures this.fields == fields
    {
      this.fields := fields;
    }
  }

  class PaginationRuntimeAdapter<C> {
    var pagination: Option<C>

    constructor ()
      ensures pagination == None
    {
      pagination := None;
    }

    method Init(endpoint: BoundEndpoint<C>) returns (r: Option<PaginationError>)
      modifies this
      ensures match AdapterInit(Bound(old(pagination), endpoint.fields))
              case Err(e) => r == Some(e) && pagination == old(pagination)
              case Ok(b) => r == None && b == Bound(pagination, endpoint.fields)
    {
      if pagination.Some? {
        return Some(RuntimeAlreadyInitialized);
      }
      pagination := Some(endpoint.fields);
      return None;
    }

    /** A failing controller step leaves the endpoint alone, and the controller as the step left it. */
    method Step(endpoint: BoundEndpoint<C>, step: ControllerStep<C>) returns (r: Option<PaginationError>)
      modifies this, endpoint
      ensures (Bound(pagination, endpoint.fields), r)
           == AdapterStep(Bound(old(pagination), old(endpoint.fields)), step)
    {
      if pagination.None? {
        return Some(RuntimeNotInitialized);
      }
      var stepped := step(pagination.value);
      pagination := Some(stepped.0);
      if stepped.1.Some? {
        return stepped.1;
      }
      endpoint.fields := stepped.0;
      return None;
    }
  }

  // ----- the offset/limit controller

  function ValidatePageSize(size: nat): Option<PaginationError> {
    if size > USIZE_MAX then Some(Overflow) else if size == 0 then Some(InvalidSize) else None
  }

  function ExpectedItems(size: nat): Option<nat> {
    if 0 < size <= USIZE_MAX then Some(size) else None
  }

  datatype OffsetLimit = OffsetLimit(offset: nat, limit: nat)

  function OffsetApply(c: OffsetLimit): (OffsetLimit, Option<PaginationError>) {
    (c, ValidatePageSize(c.limit))
  }

  function OffsetAdvance(c: OffsetLimit): (OffsetLimit, Option<PaginationError>) {
    if ValidatePageSize(c.limit).Some? then (c, ValidatePageSize(c.limit))
    else if c.offset + c.limit > U64_MAX then (c, Some(Overflow))
    else (c.(offset := c.offset + c.limit), None)
  }

  class OffsetLimitPagination {
    var offset: nat
    var limit: nat

    constructor (offset: nat, limit: nat)
      ensures this.offset == offset && this.limit == limit
    {
      this.offset, this.limit := offset, limit;
    }

    method Advance() returns (r: Option<PaginationError>)
      modifies this`offset
      ensures (OffsetLimit(offset, limit), r) == OffsetAdvance(OffsetLimit(old(offset), limit))
    {
      r := ValidatePageSize(limit);
      if r.Some? {
        return;
      }
      if offset + limit > U64_MAX {
        return Some(Overflow);
      }
      offset := offset + limit;
    }
  }

  /**
  A controller moves on by its limit or says why not: a limit of zero, one that
  is no size, or an offset out of range. Preparing a request only checks the limit.
  */
  lemma OffsetMovesOrFails(c: OffsetLimit)
    ensures var (after, failure) := OffsetAdvance(c);
            && (c.limit == 0 ==> failure == Some(InvalidSize))
            && (c.limit > U64_MAX ==> failure == Some(Overflow))
            && (0 < c.limit <= U64_MAX < c.offset + c.limit ==> failure == Some(Overflow))
            && (0 < c.limit && c.offset + c.limit <= U64_MAX ==>
                  failure == None && after == OffsetLimit(c.offset + c.limit, c.limit))
            && (failure.Some? ==> after == c)
    ensures OffsetApply(c).0 == c && (OffsetApply(c).1 == None <==> 0 < c.limit <= U64_MAX)
    ensures ExpectedItems(c.limit) == if 0 < c.limit <= U64_MAX then Some(c.limit) else None
  {
  }

  /** The endpoint gets the controller's fields exactly when a step succeeds; before initialisation nothing happens. */
  lemma StepsReachEndpoint<C>(b: Bound<C>, step: ControllerStep<C>)
    ensures var (after, failure) := AdapterStep(b, step);
            && (b.pagination.None? ==> after == b && failure == Some(RuntimeNotInitialized))
            && (b.pagination.Some? ==>
                  && after.pagination == Some(step(b.pagination.value).0) && failure == step(b.pagination.value).1
                  && after.endpoint == if failure == None then step(b.pagination.value).0 else b.endpoint)
    ensures AdapterInit(b).Ok? <==> b.pagination.None?
    ensures AdapterInit(b).Ok? ==> AdapterInit(b).value == Bound(Some(b.endpoint), b.endpoint)
  {
  }

  // ----- the controller, an endpoint that renders its fields, and a server

  function BoundApply(b: Bound<OffsetLimit>): Result<Bound<OffsetLimit>, PaginationError> {
    AsResult(AdapterStep(b, c => OffsetApply(c)))
  }

  function BoundAdvance(b: Bound<OffsetLimit>): Result<(Bound<OffsetLimit>, Control), PaginationError> {
    match AsResult(AdapterStep(b, c => OffsetAdvance(c)))
    case Err(e) => Err(e)
    case Ok(b') => Ok((b', Continue))
  }

  function BoundKey(b: Bound<OffsetLimit>): Option<ProgressKey> {
    if b.pagination.Some? then Some(U64Key(b.pagination.value.offset)) else None
  }

  function BoundExpected(b: Bound<OffsetLimit>): Option<nat> {
    if b.pagination.Some? then ExpectedItems(b.pagination.value.limit) else None
  }

  function OffsetSite<T>(render: OffsetLimit -> RequestPlan, options: RequestOptions,
                         execute: seq<RequestPlan> -> Result<seq<T>, PaginationError>)
    : Site<Bound<OffsetLimit>, seq<T>, T>
  {
    Site(
      init := b => AdapterInit(b),
      key := b => BoundKey(b),
      apply := (b, _) => BoundApply(b),
      expected := b => BoundExpected(b),
      plan := (b: Bound<OffsetLimit>) => Ok(render(b.endpoint)),
      options := options,
      execute := execute,
      count := (page: seq<T>) => |page|,
      items := (page: seq<T>) => page,
      advance := (b, _, _, _) => BoundAdvance(b))
  }

  predicate TellsApart(render: OffsetLimit -> RequestPlan, limit: nat, a: nat, b: nat) {
    IdentityOf(render(OffsetLimit(a, limit))) == IdentityOf(render(OffsetLimit(b, limit))) ==> a == b
  }

  /** The endpoint renders different offsets into requests with different identities. */
  ghost predicate RendersApart(render: OffsetLimit -> RequestPlan, limit: nat) {
    forall a: nat, b: nat :: TellsApart(render, limit, a, b)
  }

  predicate AnswersOffset<T(==)>(
    execute: seq<RequestPlan> -> Result<seq<T>, PaginationError>, render: OffsetLimit -> RequestPlan,
    items: seq<T>, limit: nat, sent: seq<RequestPlan>, o: nat)
  {
    |sent| > 0 && SameRequest(sent[|sent| - 1], render(OffsetLimit(o, limit))) ==>
      execute(sent) == Ok(Slice(items, o, limit))
  }

  /** The server answers the request for an offset with the slice that starts there. */
  ghost predicate AnswersHonestly<T(!new)>(
    execute: seq<RequestPlan> -> Result<seq<T>, PaginationError>, render: OffsetLimit -> RequestPlan,
    items: seq<T>, limit: nat)
  {
    forall sent: seq<RequestPlan>, o: nat :: AnswersOffset(execute, render, items, limit, sent, o)
  }

  function OffsetWalk(render: OffsetLimit -> RequestPlan, limit: nat): Walk<Bound<OffsetLimit>> {
    Walk((b: Bound<OffsetLimit>) =>
           if b.pagination.Some? && b.pagination.value.limit == limit then Some(b.pagination.value.offset) else None,
         (o: nat) => U64Key(o),
         (o: nat) => render(OffsetLimit(o, limit)))
  }

  /** An initialised adapter whose controller stands at `offset`. */
  predicate StandsAt(b: Bound<OffsetLimit>, offset: nat, limit: nat) {
    b.pagination == Some(OffsetLimit(offset, limit))
  }

  lemma OffsetMoves(b: Bound<OffsetLimit>, offset: nat, limit: nat)
    requires StandsAt(b, offset, limit) && 0 < limit <= USIZE_MAX
    ensures BoundKey(b) == Some(U64Key(offset)) && BoundExpected(b) == Some(limit)
    ensures BoundApply(b) == Ok(Bound(b.pagination, OffsetLimit(offset, limit)))
    ensures offset + limit <= U64_MAX ==>
              && BoundAdvance(b).Ok? && BoundAdvance(b).value.1 == Continue
              && StandsAt(BoundAdvance(b).value.0, offset + limit, limit)
  {
  }

  lemma OffsetAppliesAt<T>(
    render: OffsetLimit -> RequestPlan, options: RequestOptions,
    execute: seq<RequestPlan> -> Result<seq<T>, PaginationError>, limit: nat, s: Bound<OffsetLimit>, i: nat)
    requires 0 < limit <= USIZE_MAX
    ensures AppliesAt(OffsetSite(render, options, execute), OffsetWalk(render, limit), limit, s, i)
  {
    if OffsetWalk(render, limit).at(s).Some? {
      var offset := OffsetWalk(render, limit).at(s).value;
      assert s.pagination.value == OffsetLimit(offset, limit);
      OffsetMoves(s, offset, limit);
      OffsetMoves(BoundApply(s).value, offset, limit);
    }
  }

  lemma OffsetAdvancesAt<T>(
    render: OffsetLimit -> RequestPlan, options: RequestOptions,
    execute: seq<RequestPlan> -> Result<seq<T>, PaginationError>, total: nat, limit: nat,
    s: Bound<OffsetLimit>, page: seq<T>, i: nat)
    requires 0 < limit <= USIZE_MAX && total <= USIZE_MAX
    ensures AdvancesAt(OffsetSite(render, options, execute), OffsetWalk(render, limit), total, limit, s, page, i)
  {
    if OffsetWalk(render, limit).at(s).Some? {
      var offset := OffsetWalk(render, limit).at(s).value;
      assert s.pagination.value == OffsetLimit(offset, limit);
      OffsetMoves(s, offset, limit);
    }
  }

  lemma OffsetServerSlices<T(!new)>(
    render: OffsetLimit -> RequestPlan, options: RequestOptions,
    execute: seq<RequestPlan> -> Result<seq<T>, PaginationError>, items: seq<T>, limit: nat)
    requires AnswersHonestly(execute, render, items, limit)
    ensures ServesSlices(OffsetSite(render, options, execute), OffsetWalk(render, limit), items, limit)
  {
    var site, walk := OffsetSite(render, options, execute), OffsetWalk(render, limit);
    forall sent: seq<RequestPlan>, o: nat
      ensures AnswersSlice(site, walk, items, limit, sent, o)
    {
      assert AnswersOffset(execute, render, items, limit, sent, o);
    }
  }

  lemma OffsetsStayApart(render: OffsetLimit -> RequestPlan, limit: nat)
    requires RendersApart(render, limit)
    ensures Injective(OffsetWalk(render, limit))
  {
    forall a: nat, b: nat
      ensures Separates(OffsetWalk(render, limit), a, b)
    {
      assert TellsApart(render, limit, a, b);
    }
  }

  /** The offset/limit controller walks the list, for every rendering of the endpoint that tells offsets apart. */
  lemma OffsetLimitWalks<T(!new)>(
    render: OffsetLimit -> RequestPlan, options: RequestOptions,
    execute: seq<RequestPlan> -> Result<seq<T>, PaginationError>, items: seq<T>, limit: nat)
    requires 0 < limit <= USIZE_MAX && |items| <= USIZE_MAX
    requires RendersApart(render, limit) && AnswersHonestly(execute, render, items, limit)
    ensures Walks(OffsetSite(render, options, execute), OffsetWalk(render, limit), items, limit)
  {
    var site, walk := OffsetSite(render, options, execute), OffsetWalk(render, limit);
    forall s: Bound<OffsetLimit>, i: nat
      ensures AppliesAt(site, walk, limit, s, i)
    {
      OffsetAppliesAt(render, options, execute, limit, s, i);
    }
    forall s: Bound<OffsetLimit>, page: seq<T>, i: nat
      ensures AdvancesAt(site, walk, |items|, limit, s, page, i)
    {
      OffsetAdvancesAt(render, options, execute, |items|, limit, s, page, i);
    }
    OffsetsStayApart(render, limit);
    OffsetServerSlices(render, options, execute, items, limit);
  }

  /** A fresh adapter over an endpoint starts at the endpoint's offset. */
  lemma OffsetStarts<T>(render: OffsetLimit -> RequestPlan, options: RequestOptions,
                        execute: seq<RequestPlan> -> Result<seq<T>, PaginationError>, start: nat, limit: nat)
    ensures var site, endpoint := OffsetSite(render, options, execute), Bound(None, OffsetLimit(start, limit));
            && site.plan(endpoint).Ok? && site.init(endpoint).Ok?
            && OffsetWalk(render, limit).at(site.init(endpoint).value) == Some(start)
  {
  }

  /**
  Offset/limit pagination over an honest server, end to end: the run is a slice
  of the list that starts at the endpoint's offset, unless it wants more than
  2^32 full pages.
  */
  lemma OffsetLimitCollects<T(!new)>(
    render: OffsetLimit -> RequestPlan, options: RequestOptions,
    execute: seq<RequestPlan> -> Result<seq<T>, PaginationError>, items: seq<T>, start: nat, limit: nat, caps: Caps)
    requires 0 < limit <= USIZE_MAX && |items| <= USIZE_MAX
    requires RendersApart(render, limit) && AnswersHonestly(execute, render, items, limit)
    requires caps.termination.HardPageCap? || caps.termination.HardItemCap? ==> caps.termination.max > 0
    ensures var site := OffsetSite(render, options, execute);
            var run := CollectSpec(site, caps, Bound(None, OffsetLimit(start, limit)), true);
            && run.result == HonestResult(caps.termination, items, start, limit, CounterSpan(limit), U32_MAX + 1)
            && (caps.termination.TakeItems? ==> |run.sent| <= CeilDiv(caps.termination.max, limit))
  {
    OffsetLimitWalks(render, options, execute, items, limit);
    OffsetStarts(render, options, execute, start, limit);
    HonestCollect(OffsetSite(render, options, execute), OffsetWalk(render, limit), items, start, limit, caps,
                  Bound(None, OffsetLimit(start, limit)));
  }

  // ----- one concrete endpoint and server

  /** Decimal text of a number. */
  function Decimal(n: nat): string {
    if n < 10 then [(n + '0' as int) as char] else Decimal(n / 10) + [(n % 10 + '0' as int) as char]
  }

  function ParseDecimal(s: string): nat {
    if s == "" then 0
    else 10 * ParseDecimal(s[..|s| - 1]) + SaturatingSub(s[|s| - 1] as int, '0' as int)
  }

  lemma {:induction false} DecimalRoundTrip(n: nat)
    ensures ParseDecimal(Decimal(n)) == n
  {
    var digit := (n % 10 + '0' as int) as char;
    if n < 10 {
      assert [digit][..0] == "";
    } else {
      DecimalRoundTrip(n / 10);
      assert (Decimal(n / 10) + [digit])[..|Decimal(n / 10)|] == Decimal(n / 10);
    }
  }

  /** An endpoint that sends its offset and limit as query parameters. */
  function QueryRender(c: OffsetLimit): RequestPlan {
    RequestPlan("List", "GET", "https", "example.com", "/items",
                [("offset", Decimal(c.offset)), ("limit", Decimal(c.limit))], [], Overrides(None, None, 0))
  }

  /** A server that answers with the slice at the requested offset. */
  function SliceServer<T>(items: seq<T>): seq<RequestPlan> -> Result<seq<T>, PaginationError> {
    (sent: seq<RequestPlan>) =>
      if |sent| > 0 && |sent[|sent| - 1].query| == 2 then
        var query := sent[|sent| - 1].query;
        Ok(Slice(items, ParseDecimal(query[0].1), ParseDecimal(query[1].1)))
      else Err(Execution("bad request"))
  }

  lemma SliceServerIsHonest<T(!new)>(items: seq<T>, limit: nat)
    ensures RendersApart(c => QueryRender(c), limit)
    ensures AnswersHonestly(SliceServer(items), c => QueryRender(c), items, limit)
  {
    var render := c => QueryRender(c);
    forall a: nat, b: nat
      ensures TellsApart(render, limit, a, b)
    {
      DecimalRoundTrip(a);
      DecimalRoundTrip(b);
      var left, right := IdentityOf(QueryRender(OffsetLimit(a, limit))), IdentityOf(QueryRender(OffsetLimit(b, limit)));
      assert left.query[0].1 == Decimal(a) && right.query[0].1 == Decimal(b);
    }
    DecimalRoundTrip(limit);
    forall sent: seq<RequestPlan>, o: nat
      ensures AnswersOffset(SliceServer(items), render, items, limit, sent, o)
    {
      DecimalRoundTrip(o);
    }
  }

  /** Taking more than 2^32 one-item pages of 2^32 items is out of the page counter's range, but not the list's. */
  lemma TooManyPages<T>(items: seq<T>, pages: nat)
    requires pages == U32_MAX + 1 == |items|
    ensures HonestResult(TakePages(pages + 1), items, 0, 1, CounterSpan(1), pages) == Err(Overflow)
    ensures ListResult(TakePages(pages + 1), items, 0, 1) == Ok(items)
  {
    assert Slice(items, 0, (pages + 1) * 1) == items;
  }

  /**
  The page counter overflows on a real list: with one item a page and 2^32
  items, taking 2^32+1 pages fails, where the list would give all of its items.
  */
  lemma PageCounterOverflows<T(!new)>(items: seq<T>, pages: nat, options: RequestOptions, detectLoops: bool)
    requires pages == U32_MAX + 1 == |items|
    ensures var site := OffsetSite(c => QueryRender(c), options, SliceServer(items));
            var run := CollectSpec(site, Caps(TakePages(pages + 1), detectLoops), Bound(None, OffsetLimit(0, 1)), true);
            run.result == Err(Overflow) && ListResult(TakePages(pages + 1), items, 0, 1) == Ok(items)
  {
    SliceServerIsHonest(items, 1);
    OffsetLimitCollects(c => QueryRender(c), options, SliceServer(items), items, 0, 1,
                        Caps(TakePages(pages + 1), detectLoops));
    TooManyPages(items, pages);
  }
}
