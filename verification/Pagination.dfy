/**
The collect loop of a paginated request, for any pagination controller and any
server.

The controller and the server are records of functions. A server answers the
list of requests sent so far, so it may remember anything and answer the same
request differently each time.
*/
module Pagination {
  import opened Prelude
  import opened RequestIdentity

  datatype Termination =
    | HardPageCap(max: nat)
    | HardItemCap(max: nat)
    | TakePages(max: nat)
    | TakeItems(max: nat)

  datatype ProgressKey = U64Key(number: nat) | StrKey(text: string) | BytesKey(bytes: seq<byte>)

  datatype Control = Continue | Stop

  datatype PaginationError =
    | NonProgress
    | Overflow
    | InvalidSize
    | PageLimitExceeded
    | ItemLimitExceeded
    | UnsupportedPagination
    | RuntimeAlreadyInitialized
    | RuntimeNotInitialized
    | Planning(reason: string)
    | Execution(reason: string)

  datatype TimeoutOverride = Inherit | Clear | Set(timeout: nat)

  /** What the caller set on the pending request; it goes into every page's plan. */
  datatype RequestOptions = RequestOptions(timeout: TimeoutOverride, debugLevel: Option<nat>)

  /** A controller with its endpoint (state `S`) and a server that answers with pages `P` of items `T`. */
  datatype Site<!S, !P, !T> = Site(
    init: S -> Result<S, PaginationError>,
    key: S -> Option<ProgressKey>,
    apply: (S, nat) -> Result<S, PaginationError>,
    expected: S -> Option<nat>,
    plan: S -> Result<RequestPlan, PaginationError>,
    options: RequestOptions,
    execute: seq<RequestPlan> -> Result<P, PaginationError>,
    count: P -> nat,
    items: P -> seq<T>,
    advance: (S, P, nat, nat) -> Result<(S, Control), PaginationError>)

  datatype Caps = Caps(termination: Termination, detectLoops: bool)

  /** The variables of the loop, with the requests sent and the pages received so far. */
  datatype Progress<S, P, T> = Progress(
    state: S, seenKeys: set<ProgressKey>, seenIdentities: set<Identity>,
    itemsCount: nat, pageIndex: nat, out: seq<T>, sent: seq<RequestPlan>, pages: seq<P>, starts: seq<S>)

  /** A finished run: `starts` holds the controller's state at the start of each turn that sent a request. */
  datatype Outcome<S, P, T> = Outcome(
    result: Result<seq<T>, PaginationError>, sent: seq<RequestPlan>, pages: seq<P>, starts: seq<S>)

  datatype Turned<S, P, T> = Done(outcome: Outcome<S, P, T>) | Again(progress: Progress<S, P, T>)

  // ----- pure decisions

  predicate CommonContentStop(count: nat, expected: Option<nat>) {
    count == 0 || (expected.Some? && count < expected.value)
  }

  predicate TakeItemsDone(termination: Termination, itemsCount: nat, count: nat) {
    termination.TakeItems? && count >= SaturatingSub(termination.max, itemsCount)
  }

  predicate HardItemCapExceeded(termination: Termination, total: nat) {
    termination.HardItemCap? && total > termination.max
  }

  function ValidateTermination(t: Termination): Option<PaginationError> {
    if (t.HardPageCap? || t.HardItemCap?) && t.max == 0 then Some(InvalidSize) else None
  }

  function Take<T>(s: seq<T>, n: nat): seq<T> {
    s[..Min(n, |s|)]
  }

  function ApplyOptions(options: RequestOptions, plan: RequestPlan, pageIndex: nat): RequestPlan {
    var timeout :=
      match options.timeout
      case Inherit => plan.overrides.timeout
      case Clear => None
      case Set(d) => Some(d);
    plan.(overrides := Overrides(timeout, options.debugLevel, pageIndex))
  }

  // ----- one turn of the loop

  function Failed<S, P, T>(p: Progress<S, P, T>, e: PaginationError): Turned<S, P, T> {
    Done(Outcome(Err(e), p.sent, p.pages, p.starts))
  }

  function Finished<S, P, T>(p: Progress<S, P, T>): Turned<S, P, T> {
    Done(Outcome(Ok(p.out), p.sent, p.pages, p.starts))
  }

  /** The first half of a turn: both loop guards, the controller's state, the request and its answer. */
  function Fetch<S, P, T>(site: Site<S, P, T>, detectLoops: bool, p: Progress<S, P, T>)
    : Result<(Progress<S, P, T>, P), Outcome<S, P, T>>
  {
    var key := if detectLoops then site.key(p.state) else None;
    if key.Some? && key.value in p.seenKeys then Err(Outcome(Err(NonProgress), p.sent, p.pages, p.starts))
    else
      match site.apply(p.state, p.pageIndex)
      case Err(e) => Err(Outcome(Err(e), p.sent, p.pages, p.starts))
      case Ok(state) =>
        match site.plan(state)
        case Err(e) => Err(Outcome(Err(e), p.sent, p.pages, p.starts))
        case Ok(planned) =>
          var plan := ApplyOptions(site.options, planned, p.pageIndex);
          var identity := IdentityOf(plan);
          if identity in p.seenIdentities then Err(Outcome(Err(NonProgress), p.sent, p.pages, p.starts))
          else
            var sent, starts := p.sent + [plan], p.starts + [p.state];
            match site.execute(sent)
            case Err(e) => Err(Outcome(Err(e), sent, p.pages, starts))
            case Ok(page) =>
              var keys := if key.Some? then p.seenKeys + {key.value} else p.seenKeys;
              Ok((p.(state := state, seenKeys := keys, seenIdentities := p.seenIdentities + {identity},
                     sent := sent, pages := p.pages + [page], starts := starts),
                  page))
  }

  /** The second half: account for the page, let the controller advance, and decide whether to go on. */
  function Settle<S, P, T>(site: Site<S, P, T>, termination: Termination, p: Progress<S, P, T>, page: P)
    : Turned<S, P, T>
  {
    var expected := site.expected(p.state);
    var count := site.count(page);
    var total := p.itemsCount + count;
    if total > USIZE_MAX then Failed(p, Overflow)
    else if HardItemCapExceeded(termination, total) then Failed(p, ItemLimitExceeded)
    else
      var stop := CommonContentStop(count, expected);
      var advanced :=
        if stop || TakeItemsDone(termination, p.itemsCount, count) then Ok((p.state, Stop))
        else site.advance(p.state, page, p.pageIndex, count);
      if advanced.Err? then Failed(p, advanced.error)
      else if count == 0 then Finished(p)
      else if termination.TakeItems? && termination.max < p.itemsCount then Failed(p, Overflow)
      else if termination.TakeItems? && count >= termination.max - p.itemsCount then
        Finished(p.(out := p.out + Take(site.items(page), termination.max - p.itemsCount)))
      else
        var q := p.(state := advanced.value.0, itemsCount := total, out := p.out + site.items(page));
        var fetched := p.pageIndex + 1;
        if stop || advanced.value.1.Stop? then Finished(q)
        else if termination.HardPageCap? && fetched >= termination.max then Failed(q, PageLimitExceeded)
        else if termination.TakePages? && fetched >= termination.max then Finished(q)
        else if p.pageIndex >= U32_MAX then Failed(q, Overflow)
        else Again(q.(pageIndex := fetched))
  }

  function Turn<S, P, T>(site: Site<S, P, T>, caps: Caps, p: Progress<S, P, T>): (r: Turned<S, P, T>)
    ensures r.Again? ==> p.pageIndex < r.progress.pageIndex <= U32_MAX
  {
    match Fetch(site, caps.detectLoops, p)
    case Err(outcome) => Done(outcome)
    case Ok((q, page)) => Settle(site, caps.termination, q, page)
  }

  function Loop<S, P, T>(site: Site<S, P, T>, caps: Caps, p: Progress<S, P, T>): Outcome<S, P, T>
    decreases if p.pageIndex <= U32_MAX then U32_MAX - p.pageIndex else 0
  {
    match Turn(site, caps, p)
    case Done(outcome) => outcome
    case Again(q) => Loop(site, caps, q)
  }

  function Fresh<S, P, T>(state: S): Progress<S, P, T> {
    Progress(state, {}, {}, 0, 0, [], [], [], [])
  }

  /** Initialise the controller and run the loop from there. */
  function RuntimeSpec<S, P, T>(site: Site<S, P, T>, caps: Caps, endpoint: S): Outcome<S, P, T> {
    if site.init(endpoint).Err? then Outcome(Err(site.init(endpoint).error), [], [], [])
    else Loop(site, caps, Fresh(site.init(endpoint).value))
  }

  /** The whole run, from the endpoint as the caller prepared it; `paginated` says whether it has a controller. */
  function CollectSpec<S, P, T>(site: Site<S, P, T>, caps: Caps, endpoint: S, paginated: bool): Outcome<S, P, T> {
    var failed := (e: PaginationError) => Outcome(Err(e), [], [], []);
    if site.plan(endpoint).Err? then failed(site.plan(endpoint).error)
    else if ValidateTermination(caps.termination).Some? then failed(ValidateTermination(caps.termination).value)
    else if (caps.termination.TakePages? || caps.termination.TakeItems?) && caps.termination.max == 0 then
      Outcome(Ok([]), [], [], [])
    else if !paginated then failed(UnsupportedPagination)
    else RuntimeSpec(site, caps, endpoint)
  }

  /** The first half of the loop body: guards, controller, request, answer. */
  method FetchPage<S, P, T>(site: Site<S, P, T>, detectLoops: bool, p: Progress<S, P, T>)
    returns (r: Result<(Progress<S, P, T>, P), Outcome<S, P, T>>)
    ensures r == Fetch(site, detectLoops, p)
  {
    var seen := p.seenKeys;
    if detectLoops {
      var key := site.key(p.state);
      if key.Some? {
        if key.value in seen {
          return Err(Outcome(Err(NonProgress), p.sent, p.pages, p.starts));
        }
        seen := seen + {key.value};
      }
    }
    var applied := site.apply(p.state, p.pageIndex);
    if applied.Err? {
      return Err(Outcome(Err(applied.error), p.sent, p.pages, p.starts));
    }
    var planned := site.plan(applied.value);
    if planned.Err? {
      return Err(Outcome(Err(planned.error), p.sent, p.pages, p.starts));
    }
    var plan := ApplyOptions(site.options, planned.value, p.pageIndex);
    var identity := IdentityOf(plan);
    if identity in p.seenIdentities {
      return Err(Outcome(Err(NonProgress), p.sent, p.pages, p.starts));
    }
    var sent, starts := p.sent + [plan], p.starts + [p.state];
    var response := site.execute(sent);
    if response.Err? {
      return Err(Outcome(Err(response.error), sent, p.pages, starts));
    }
    return Ok((p.(state := applied.value, seenKeys := seen, seenIdentities := p.seenIdentities + {identity},
                  sent := sent, pages := p.pages + [response.value], starts := starts),
               response.value));
  }

  /** The second half: counters, caps, the controller's advance and the decision to go on. */
  method SettlePage<S, P, T>(site: Site<S, P, T>, termination: Termination, p: Progress<S, P, T>, page: P)
    returns (turned: Turned<S, P, T>)
    ensures turned == Settle(site, termination, p, page)
  {
    var expected := site.expected(p.state);
    var pageLen := site.count(page);
    if p.itemsCount + pageLen > USIZE_MAX {
      return Failed(p, Overflow);
    }
    if HardItemCapExceeded(termination, p.itemsCount + pageLen) {
      return Failed(p, ItemLimitExceeded);
    }
    var state, control := p.state, Stop;
    if !CommonContentStop(pageLen, expected) && !TakeItemsDone(termination, p.itemsCount, pageLen) {
      var advanced := site.advance(state, page, p.pageIndex, pageLen);
      if advanced.Err? {
        return Failed(p, advanced.error);
      }
      state, control := advanced.value.0, advanced.value.1;
    }
    if pageLen == 0 {
      return Finished(p);
    }
    if termination.TakeItems? {
      if termination.max < p.itemsCount {
        return Failed(p, Overflow);
      }
      var remaining := termination.max - p.itemsCount;
      if pageLen >= remaining {
        return Finished(p.(out := p.out + Take(site.items(page), remaining)));
      }
    }
    var q := p.(state := state, itemsCount := p.itemsCount + pageLen, out := p.out + site.items(page));
    if CommonContentStop(pageLen, expected) || control.Stop? {
      return Finished(q);
    }
    if termination.HardPageCap? && p.pageIndex + 1 >= termination.max {
      return Failed(q, PageLimitExceeded);
    }
    if termination.TakePages? && p.pageIndex + 1 >= termination.max {
      return Finished(q);
    }
    if p.pageIndex >= U32_MAX {
      return Failed(q, Overflow);
    }
    return Again(q.(pageIndex := p.pageIndex + 1));
  }

  /** `collect_with_pagination_runtime`: the loop and its variables. */
  method CollectWithRuntime<S, P, T>(site: Site<S, P, T>, caps: Caps, endpoint: S)
    returns (outcome: Outcome<S, P, T>)
    ensures outcome == RuntimeSpec(site, caps, endpoint)
  {
    var initialized := site.init(endpoint);
    if initialized.Err? {
      return Outcome(Err(initialized.error), [], [], []);
    }
    var progress: Progress<S, P, T> := Fresh(initialized.value);
    while true
      invariant progress.pageIndex <= U32_MAX
      invariant Loop(site, caps, progress) == RuntimeSpec(site, caps, endpoint)
      decreases U32_MAX - progress.pageIndex
    {
      var fetched := FetchPage(site, caps.detectLoops, progress);
      if fetched.Err? {
        return fetched.error;
      }
      var turned := SettlePage(site, caps.termination, fetched.value.0, fetched.value.1);
      if turned.Done? {
        return turned.outcome;
      }
      progress := turned.progress;
    }
  }

  method Collect<S, P, T>(site: Site<S, P, T>, caps: Caps, endpoint: S, paginated: bool)
    returns (outcome: Outcome<S, P, T>)
    ensures outcome == CollectSpec(site, caps, endpoint, paginated)
  {
    var first := site.plan(endpoint);
    if first.Err? {
      return Outcome(Err(first.error), [], [], []);
    }
    match caps.termination {
      case HardPageCap(0) => return Outcome(Err(InvalidSize), [], [], []);
      case HardItemCap(0) => return Outcome(Err(InvalidSize), [], [], []);
      case TakePages(0) => return Outcome(Ok([]), [], [], []);
      case TakeItems(0) => return Outcome(Ok([]), [], [], []);
      case _ =>
    }
    if !paginated {
      return Outcome(Err(UnsupportedPagination), [], [], []);
    }
    outcome := CollectWithRuntime(site, caps, endpoint);
  }

  // ----- every server, every controller

  function Concat<P, T>(items: P -> seq<T>, pages: seq<P>): seq<T> {
    if pages == [] then [] else Concat(items, pages[..|pages| - 1]) + items(pages[|pages| - 1])
  }

  /** Pages report their exact size. */
  ghost predicate ExactCounts<S, P(!new), T>(site: Site<S, P, T>) {
    forall page: P :: site.count(page) == |site.items(page)|
  }

  ghost predicate Distinct(sent: seq<RequestPlan>) {
    forall i, j :: 0 <= i < j < |sent| ==> IdentityOf(sent[i]) != IdentityOf(sent[j])
  }

  /** Every page received is the server's answer to the requests up to its own. */
  ghost predicate Answered<S, P, T>(site: Site<S, P, T>, sent: seq<RequestPlan>, pages: seq<P>) {
    && |pages| <= |sent| <= |pages| + 1
    && forall i :: 0 <= i < |pages| ==> site.execute(sent[..i + 1]) == Ok(pages[i])
  }

  /** Requests carry the index of their page. */
  ghost predicate Numbered(sent: seq<RequestPlan>) {
    forall k :: 0 <= k < |sent| ==> sent[k].overrides.pageIndex == k
  }

  /** The loop between two turns. */
  ghost predicate Running<S, P, T>(site: Site<S, P, T>, termination: Termination, p: Progress<S, P, T>) {
    && |p.sent| == |p.pages| == p.pageIndex
    && Answered(site, p.sent, p.pages)
    && Distinct(p.sent) && Numbered(p.sent)
    && (forall i :: 0 <= i < |p.sent| ==> IdentityOf(p.sent[i]) in p.seenIdentities)
    && p.out == Concat(site.items, p.pages)
    && p.pageIndex <= p.itemsCount
    && (if termination.TakeItems? then p.itemsCount < termination.max
        else if termination.HardItemCap? then p.itemsCount <= termination.max
        else p.pageIndex < termination.max)
  }

  /** The most requests a run may send. */
  function RequestBound(t: Termination): nat {
    if t.HardItemCap? then t.max + 1 else t.max
  }

  function Cut<T>(t: Termination, items: seq<T>): seq<T> {
    if t.TakeItems? then Take(items, t.max) else items
  }

  /** What every finished run guarantees. */
  ghost predicate GoodOutcome<S, P(!new), T>(site: Site<S, P, T>, termination: Termination, o: Outcome<S, P, T>) {
    && |o.sent| <= RequestBound(termination)
    && Distinct(o.sent) && Numbered(o.sent)
    && Answered(site, o.sent, o.pages)
    && (o.result.Ok? && ExactCounts(site) ==>
          && |o.sent| == |o.pages| && o.result.value == Cut(termination, Concat(site.items, o.pages))
          && (termination.HardItemCap? ==> |o.result.value| <= termination.max))
  }

  /** The loop after a fetch and before the page is accounted for. */
  ghost predicate Fetched<S, P, T>(site: Site<S, P, T>, t: Termination, p: Progress<S, P, T>, page: P) {
    && p.pages != [] && p.pages[|p.pages| - 1] == page
    && |p.sent| == |p.pages| == p.pageIndex + 1
    && Answered(site, p.sent, p.pages)
    && Distinct(p.sent) && Numbered(p.sent)
    && (forall i :: 0 <= i < |p.sent| ==> IdentityOf(p.sent[i]) in p.seenIdentities)
    && p.out == Concat(site.items, p.pages[..|p.pages| - 1])
    && p.pageIndex <= p.itemsCount
    && (if t.TakeItems? then p.itemsCount < t.max
        else if t.HardItemCap? then p.itemsCount <= t.max
        else p.pageIndex < t.max)
  }

  lemma AnsweredExtends<S, P, T>(site: Site<S, P, T>, sent: seq<RequestPlan>, pages: seq<P>, plan: RequestPlan)
    requires Answered(site, sent, pages) && |sent| == |pages|
    ensures Answered(site, sent + [plan], pages)
    ensures site.execute(sent + [plan]).Ok? ==>
              Answered(site, sent + [plan], pages + [site.execute(sent + [plan]).value])
  {
    var more := sent + [plan];
    forall i | 0 <= i < |pages|
      ensures site.execute(more[..i + 1]) == Ok(pages[i])
    {
      assert more[..i + 1] == sent[..i + 1];
    }
    assert more[..|pages| + 1] == more;
  }

  lemma FetchExtends<S, P(!new), T>(site: Site<S, P, T>, detect: bool, t: Termination, p: Progress<S, P, T>)
    requires Running(site, t, p)
    ensures match Fetch(site, detect, p)
            case Ok((q, page)) => Fetched(site, t, q, page)
            case Err(o) => o.result.Err? && GoodOutcome(site, t, o)
  {
    match Fetch(site, detect, p) {
      case Ok((q, page)) =>
        AnsweredExtends(site, p.sent, p.pages, q.sent[|p.sent|]);
        assert q.pages[..|q.pages| - 1] == p.pages;
      case Err(o) =>
        if o.sent != p.sent {
          AnsweredExtends(site, p.sent, p.pages, o.sent[|p.sent|]);
        }
    }
  }

  /** The items of all pages, and of all pages cut at the item limit, in terms of the pages before the last. */
  lemma LastPageItems<S, P, T>(site: Site<S, P, T>, t: Termination, p: Progress<S, P, T>, page: P)
    requires Fetched(site, t, p, page)
    ensures p.out + site.items(page) == Concat(site.items, p.pages)
    ensures t.TakeItems? && p.itemsCount == |p.out| ==>
              p.out + Take(site.items(page), t.max - p.itemsCount) == Cut(t, Concat(site.items, p.pages))
  {
  }

  lemma SettleIsGood<S, P(!new), T>(site: Site<S, P, T>, t: Termination, p: Progress<S, P, T>, page: P)
    requires Fetched(site, t, p, page)
    requires ExactCounts(site) ==> p.itemsCount == |p.out|
    ensures TurnedWell(site, t, Settle(site, t, p, page))
  {
    LastPageItems(site, t, p, page);
  }

  ghost predicate TurnedWell<S, P(!new), T>(site: Site<S, P, T>, t: Termination, turned: Turned<S, P, T>) {
    match turned
    case Done(o) => GoodOutcome(site, t, o)
    case Again(q) => Running(site, t, q) && (ExactCounts(site) ==> q.itemsCount == |q.out|)
  }

  lemma TurnIsGood<S, P(!new), T>(site: Site<S, P, T>, caps: Caps, p: Progress<S, P, T>)
    requires Running(site, caps.termination, p)
    requires ExactCounts(site) ==> p.itemsCount == |p.out|
    ensures TurnedWell(site, caps.termination, Turn(site, caps, p))
  {
    FetchExtends(site, caps.detectLoops, caps.termination, p);
    match Fetch(site, caps.detectLoops, p) {
      case Err(_) =>
      case Ok((q, page)) => SettleIsGood(site, caps.termination, q, page);
    }
  }

  lemma {:induction false} LoopIsGood<S, P(!new), T>(site: Site<S, P, T>, caps: Caps, p: Progress<S, P, T>)
    requires TurnedWell(site, caps.termination, Again(p))
    ensures GoodOutcome(site, caps.termination, Loop(site, caps, p))
    decreases if p.pageIndex <= U32_MAX then U32_MAX - p.pageIndex else 0
  {
    TurnIsGood(site, caps, p);
    match Turn(site, caps, p) {
      case Done(_) =>
      case Again(r) => LoopIsGood(site, caps, r);
    }
  }

  /**
  Whatever the server and the controller do, a run sends no more requests than
  its termination allows, numbers them by page, never sends two requests with one
  identity; a hard item cap is kept; and a successful run returns the pages it
  received, in order, cut at the item limit.
  */
  lemma CollectIsGood<S, P(!new), T>(site: Site<S, P, T>, caps: Caps, endpoint: S, paginated: bool)
    ensures GoodOutcome(site, caps.termination, CollectSpec(site, caps, endpoint, paginated))
  {
    if site.init(endpoint).Ok? && caps.termination.max > 0 {
      LoopIsGood(site, caps, Fresh(site.init(endpoint).value));
    }
  }
}
