/**
Pagination against an honest server: when the controller walks a list in steps
of `limit` and the server answers with the slices it is asked for, a collect run
is exactly a slice of the list.
*/
module HonestPagination {
  import opened Prelude
  import opened RequestIdentity
  import opened Pagination

  function Slice<T>(items: seq<T>, from: nat, length: nat): seq<T> {
    items[Min(from, |items|)..Min(from + length, |items|)]
  }

  /** How a controller's state maps to a position in the list. */
  datatype Walk<!S> = Walk(at: S -> Option<nat>, keyOf: nat -> ProgressKey, planOf: nat -> RequestPlan)

  /** Preparing a request keeps the position and renders it. */
  predicate AppliesAt<S, T>(site: Site<S, seq<T>, T>, walk: Walk<S>, limit: nat, s: S, i: nat) {
    walk.at(s).Some? ==>
      && site.key(s) == Some(walk.keyOf(walk.at(s).value))
      && site.apply(s, i).Ok?
      && walk.at(site.apply(s, i).value) == walk.at(s)
      && site.expected(site.apply(s, i).value) == Some(limit)
      && site.plan(site.apply(s, i).value) == Ok(walk.planOf(walk.at(s).value))
  }

  /** Advancing over a full page moves on by one page. */
  predicate AdvancesAt<S, T>(site: Site<S, seq<T>, T>, walk: Walk<S>, total: nat, limit: nat, s: S, page: seq<T>,
                             i: nat) {
    walk.at(s).Some? && walk.at(s).value + limit <= total ==>
      && site.advance(s, page, i, limit).Ok?
      && site.advance(s, page, i, limit).value.1 == Continue
      && walk.at(site.advance(s, page, i, limit).value.0) == Some(walk.at(s).value + limit)
  }

  ghost predicate ControllerWalks<S(!new), T(!new)>(
    site: Site<S, seq<T>, T>, walk: Walk<S>, total: nat, limit: nat)
  {
    && (forall s: S, i: nat :: AppliesAt(site, walk, limit, s, i))
    && (forall s: S, page: seq<T>, i: nat :: AdvancesAt(site, walk, total, limit, s, page, i))
  }

  predicate Separates<S>(walk: Walk<S>, a: nat, b: nat) {
    && (walk.keyOf(a) == walk.keyOf(b) ==> a == b)
    && (IdentityOf(walk.planOf(a)) == IdentityOf(walk.planOf(b)) ==> a == b)
  }

  /** Different positions have different keys and requests with different identities. */
  ghost predicate Injective<S>(walk: Walk<S>) {
    forall a: nat, b: nat :: Separates(walk, a, b)
  }

  /** The same request, whatever the overrides of its execution. */
  predicate SameRequest(a: RequestPlan, b: RequestPlan) {
    a.(overrides := b.overrides) == b
  }

  predicate AnswersSlice<S, T(==)>(site: Site<S, seq<T>, T>, walk: Walk<S>, items: seq<T>, limit: nat,
                                   sent: seq<RequestPlan>, o: nat) {
    |sent| > 0 && SameRequest(sent[|sent| - 1], walk.planOf(o)) ==> site.execute(sent) == Ok(Slice(items, o, limit))
  }

  ghost predicate ServesSlices<S, T(!new)>(
    site: Site<S, seq<T>, T>, walk: Walk<S>, items: seq<T>, limit: nat)
  {
    && (forall page: seq<T> :: site.count(page) == |page| && site.items(page) == page)
    && (forall sent: seq<RequestPlan>, o: nat :: AnswersSlice(site, walk, items, limit, sent, o))
  }

  ghost predicate Walks<S(!new), T(!new)>(site: Site<S, seq<T>, T>, walk: Walk<S>, items: seq<T>, limit: nat) {
    && 0 < limit && |items| <= USIZE_MAX
    && ControllerWalks(site, walk, |items|, limit)
    && Injective(walk)
    && ServesSlices(site, walk, items, limit)
  }

  /**
  The page counter does not overflow: fewer than `pages` full pages remain, or
  the run is over by then. `span` is the length of `pages` pages.
  */
  predicate Roomy(t: Termination, total: nat, start: nat, span: nat, pages: nat) {
    || total < start + span
    || (t.TakeItems? && t.max <= span)
    || (t.HardItemCap? && t.max < span)
    || ((t.TakePages? || t.HardPageCap?) && t.max <= pages)
  }

  /** What the run should return, read off the list. */
  function HonestResult<T>(t: Termination, items: seq<T>, start: nat, limit: nat, span: nat, pages: nat)
    : Result<seq<T>, PaginationError>
  {
    if Roomy(t, |items|, start, span, pages) then ListResult(t, items, start, limit) else Err(Overflow)
  }

  /** What the termination asks for, with no counters in the way. */
  function ListResult<T>(t: Termination, items: seq<T>, start: nat, limit: nat): Result<seq<T>, PaginationError> {
    var remaining := SaturatingSub(|items|, start);
    match t
    case TakeItems(n) => Ok(Slice(items, start, n))
    case TakePages(m) => Ok(Slice(items, start, m * limit))
    case HardPageCap(m) => if remaining < m * limit then Ok(Slice(items, start, |items|)) else Err(PageLimitExceeded)
    case HardItemCap(m) => if remaining <= m then Ok(Slice(items, start, |items|)) else Err(ItemLimitExceeded)
  }

  ghost predicate OlderKey<S>(walk: Walk<S>, o: nat, k: ProgressKey) {
    exists b: nat :: b < o && k == walk.keyOf(b)
  }

  ghost predicate OlderIdentity<S>(walk: Walk<S>, o: nat, k: Identity) {
    exists b: nat :: b < o && k == IdentityOf(walk.planOf(b))
  }

  /** Everything a loop guard remembers belongs to a position before `o`. */
  ghost predicate OnlyOlder<S>(walk: Walk<S>, o: nat, keys: set<ProgressKey>, identities: set<Identity>) {
    && (forall k :: k in keys ==> OlderKey(walk, o, k))
    && (forall k :: k in identities ==> OlderIdentity(walk, o, k))
  }

  lemma OnlyOlderGrows<S>(walk: Walk<S>, o: nat, limit: nat, keys: set<ProgressKey>, identities: set<Identity>,
                          keys': set<ProgressKey>)
    requires 0 < limit && OnlyOlder(walk, o, keys, identities) && keys' <= keys + {walk.keyOf(o)}
    ensures OnlyOlder(walk, o + limit, keys', identities + {IdentityOf(walk.planOf(o))})
  {
    forall k | k in keys'
      ensures OlderKey(walk, o + limit, k)
    {
      var b: nat :| b <= o && k == walk.keyOf(b);
      assert b < o + limit;
    }
    forall k | k in identities + {IdentityOf(walk.planOf(o))}
      ensures OlderIdentity(walk, o + limit, k)
    {
      var b: nat :| b <= o && k == IdentityOf(walk.planOf(b));
      assert b < o + limit;
    }
  }

  lemma OlderIsNotCurrent<S>(walk: Walk<S>, o: nat, keys: set<ProgressKey>, identities: set<Identity>)
    requires Injective(walk) && OnlyOlder(walk, o, keys, identities)
    ensures walk.keyOf(o) !in keys && IdentityOf(walk.planOf(o)) !in identities
  {
    forall b: nat | b < o
      ensures walk.keyOf(b) != walk.keyOf(o) && IdentityOf(walk.planOf(b)) != IdentityOf(walk.planOf(o))
    {
      assert Separates(walk, b, o);
    }
  }

  /**
  Between two turns the run stands at `start + itemsCount`, has full pages behind
  it and only older keys and requests.
  */
  ghost predicate Honest<S(!new), T(!new)>(
    walk: Walk<S>, items: seq<T>, start: nat, limit: nat, t: Termination, p: Progress<S, seq<T>, T>)
  {
    var o := start + p.itemsCount;
    && walk.at(p.state) == Some(o)
    && (p.itemsCount == 0 || o <= |items|)
    && p.out == Slice(items, start, p.itemsCount)
    && |p.sent| == p.pageIndex <= U32_MAX && Span(p.pageIndex, limit) == p.itemsCount
    && OnlyOlder(walk, o, p.seenKeys, p.seenIdentities)
    && (if t.TakeItems? then p.itemsCount < t.max
        else if t.HardItemCap? then p.itemsCount <= t.max
        else p.pageIndex < t.max)
  }

  /** `q` is `p` with one more request sent from position `o`. */
  ghost predicate FetchedAt<S(!new), T(!new)>(site: Site<S, seq<T>, T>, walk: Walk<S>, o: nat, limit: nat,
                                              p: Progress<S, seq<T>, T>, q: Progress<S, seq<T>, T>)
  {
    && q == p.(state := q.state, seenKeys := q.seenKeys, seenIdentities := q.seenIdentities,
               sent := q.sent, pages := q.pages, starts := q.starts)
    && |q.sent| == |p.sent| + 1
    && walk.at(q.state) == Some(o) && site.expected(q.state) == Some(limit)
    && q.seenKeys <= p.seenKeys + {walk.keyOf(o)}
    && q.seenIdentities == p.seenIdentities + {IdentityOf(walk.planOf(o))}
  }

  /** The loop guards stay silent and the page is the slice at the run's position. */
  lemma HonestFetch<S(!new), T(!new)>(
    site: Site<S, seq<T>, T>, walk: Walk<S>, items: seq<T>, start: nat, limit: nat, caps: Caps,
    p: Progress<S, seq<T>, T>)
    requires Walks(site, walk, items, limit) && Honest(walk, items, start, limit, caps.termination, p)
    ensures var fetch := Fetch(site, caps.detectLoops, p);
            && fetch.Ok? && fetch.value.1 == Slice(items, start + p.itemsCount, limit)
            && FetchedAt(site, walk, start + p.itemsCount, limit, p, fetch.value.0)
  {
    var o := start + p.itemsCount;
    assert AppliesAt(site, walk, limit, p.state, p.pageIndex);
    OlderIsNotCurrent(walk, o, p.seenKeys, p.seenIdentities);
    var sent := p.sent + [ApplyOptions(site.options, walk.planOf(o), p.pageIndex)];
    assert AnswersSlice(site, walk, items, limit, sent, o);
  }

  lemma SliceAppend<T>(items: seq<T>, from: nat, a: nat, b: nat)
    ensures a == 0 || from + a <= |items| ==>
              Slice(items, from, a) + Slice(items, from + a, b) == Slice(items, from, a + b)
    ensures |Slice(items, from, b)| == Min(b, SaturatingSub(|items|, from))
  {
  }

  lemma TakeSlice<T>(items: seq<T>, from: nat, a: nat, b: nat)
    requires b <= a
    ensures Take(Slice(items, from, a), b) == Slice(items, from, b)
  {
    var left, right := Take(Slice(items, from, a), b), Slice(items, from, b);
    assert |left| == |right|;
    forall i | 0 <= i < |left|
      ensures left[i] == right[i]
    {
      assert left[i] == items[Min(from, |items|) + i] == right[i];
    }
  }

  /** The length of `k` full pages. */
  function Span(k: nat, limit: nat): nat {
    if k == 0 then 0 else Span(k - 1, limit) + limit
  }

  lemma {:induction false} SpanIsProduct(k: nat, limit: nat)
    ensures Span(k, limit) == k * limit
  {
    if k > 0 {
      SpanIsProduct(k - 1, limit);
      assert k * limit == (k - 1) * limit + limit;
    }
  }

  lemma {:induction false} SpanMonotone(k: nat, m: nat, limit: nat)
    requires k <= m
    ensures Span(k, limit) <= Span(m, limit)
  {
    if k < m {
      SpanMonotone(k, m - 1, limit);
    }
  }

  /** One full page further, everything the run has seen is still older. */
  lemma HonestAdvance<S(!new), T(!new)>(
    walk: Walk<S>, items: seq<T>, start: nat, limit: nat, t: Termination,
    p: Progress<S, seq<T>, T>, r: Progress<S, seq<T>, T>)
    requires 0 < limit && Honest(walk, items, start, limit, t, p)
    requires var o := start + p.itemsCount;
             && o + limit <= |items|
             && walk.at(r.state) == Some(o + limit) && r.itemsCount == p.itemsCount + limit
             && r.pageIndex == p.pageIndex + 1 <= U32_MAX && |r.sent| == |p.sent| + 1
             && r.out == p.out + Slice(items, o, limit)
             && r.seenKeys <= p.seenKeys + {walk.keyOf(o)}
             && r.seenIdentities == p.seenIdentities + {IdentityOf(walk.planOf(o))}
    requires if t.TakeItems? then r.itemsCount < t.max
             else if t.HardItemCap? then r.itemsCount <= t.max
             else r.pageIndex < t.max
    ensures Honest(walk, items, start, limit, t, r)
  {
    assert Span(r.pageIndex, limit) == Span(p.pageIndex, limit) + limit;
    SliceAppend(items, start, p.itemsCount, limit);
    OnlyOlderGrows(walk, start + p.itemsCount, limit, p.seenKeys, p.seenIdentities, r.seenKeys);
  }

  lemma SliceToEnd<T>(items: seq<T>, from: nat, a: nat, b: nat)
    requires |items| <= from + a && |items| <= from + b
    ensures Slice(items, from, a) == Slice(items, from, b)
  {
  }

  /** A page shorter than the limit ends the list, however much more could have been taken. */
  lemma ShortPage<T>(items: seq<T>, start: nat, limit: nat, count: nat, wanted: nat)
    requires (count == 0 || start + count <= |items|) && |Slice(items, start + count, limit)| < limit
    requires count + limit <= wanted || (count <= wanted && |Slice(items, start + count, limit)| <= wanted - count)
             || |items| <= wanted
    ensures |items| < start + count + limit
    ensures Slice(items, start, count) + Slice(items, start + count, limit) == Slice(items, start, wanted)
    ensures count + |Slice(items, start + count, limit)| == SaturatingSub(|items|, start)
  {
    SliceAppend(items, start, count, limit);
    SliceAppend(items, start + count, 0, limit);
    SliceToEnd(items, start, count + limit, wanted);
  }

  /** The conclusion a turn that ends the run draws from its page. */
  ghost predicate Concludes<T>(items: seq<T>, start: nat, limit: nat, t: Termination, count: nat, pageIndex: nat,
                               r: Result<seq<T>, PaginationError>)
  {
    var out, page := Slice(items, start, count), Slice(items, start + count, limit);
    if t.TakeItems? then
      && count < t.max
      && if |page| >= t.max - count then r == Ok(out + Take(page, t.max - count))
         else |page| < limit && r == Ok(out + page)
    else if t.HardItemCap? then
      && count <= t.max
      && if count + |page| > t.max then r == Err(ItemLimitExceeded) else |page| < limit && r == Ok(out + page)
    else
      && pageIndex < t.max
      && if |page| < limit then r == Ok(out + page)
         else pageIndex + 1 >= t.max && r == if t.TakePages? then Ok(out + page) else Err(PageLimitExceeded)
  }

  lemma LastOfItems<T>(items: seq<T>, start: nat, limit: nat, t: Termination, count: nat, pageIndex: nat,
                       r: Result<seq<T>, PaginationError>)
    requires 0 < limit && (count == 0 || start + count <= |items|)
    requires t.TakeItems? && Concludes(items, start, limit, t, count, pageIndex, r)
    ensures r == ListResult(t, items, start, limit)
  {
    var page, wanted := Slice(items, start + count, limit), t.max - count;
    SliceAppend(items, start + count, 0, limit);
    if |page| >= wanted {
      TakeSlice(items, start + count, limit, wanted);
      SliceAppend(items, start, count, wanted);
    } else {
      ShortPage(items, start, limit, count, t.max);
    }
  }

  lemma LastUnderItemCap<T>(items: seq<T>, start: nat, limit: nat, t: Termination, count: nat, pageIndex: nat,
                            r: Result<seq<T>, PaginationError>)
    requires 0 < limit && (count == 0 || start + count <= |items|)
    requires t.HardItemCap? && Concludes(items, start, limit, t, count, pageIndex, r)
    ensures r == ListResult(t, items, start, limit)
  {
    SliceAppend(items, start + count, 0, limit);
    if count + |Slice(items, start + count, limit)| <= t.max {
      ShortPage(items, start, limit, count, |items|);
    }
  }

  lemma LastOfPages<T>(items: seq<T>, start: nat, limit: nat, t: Termination, count: nat, pageIndex: nat,
                       r: Result<seq<T>, PaginationError>)
    requires 0 < limit && (count == 0 || start + count <= |items|) && Span(pageIndex, limit) == count
    requires (t.TakePages? || t.HardPageCap?) && Concludes(items, start, limit, t, count, pageIndex, r)
    ensures r == ListResult(t, items, start, limit)
  {
    SliceAppend(items, start + count, 0, limit);
    SpanMonotone(pageIndex + 1, t.max, limit);
    SpanIsProduct(t.max, limit);
    var span := t.max * limit;
    if |Slice(items, start + count, limit)| < limit {
      ShortPage(items, start, limit, count, if t.TakePages? then span else |items|);
    } else {
      assert t.max == pageIndex + 1;
      SliceAppend(items, start, count, limit);
    }
  }

  /** A run that stops by itself had room for its pages. */
  lemma StopIsRoomy<T>(items: seq<T>, start: nat, limit: nat, cap: nat, t: Termination, count: nat, pageIndex: nat,
                       r: Result<seq<T>, PaginationError>)
    requires (count == 0 || start + count <= |items|) && Span(pageIndex, limit) == count && pageIndex < cap
    requires Concludes(items, start, limit, t, count, pageIndex, r)
    ensures Roomy(t, |items|, start, Span(cap, limit), cap)
  {
    SliceAppend(items, start + count, 0, limit);
    SpanMonotone(pageIndex + 1, cap, limit);
  }

  /** A turn that ends the run ends it with the result read off the list. */
  lemma LastPage<T>(items: seq<T>, start: nat, limit: nat, cap: nat, t: Termination, count: nat, pageIndex: nat,
                    r: Result<seq<T>, PaginationError>)
    requires 0 < limit && (count == 0 || start + count <= |items|)
    requires Span(pageIndex, limit) == count && pageIndex < cap
    requires Concludes(items, start, limit, t, count, pageIndex, r)
    ensures r == HonestResult(t, items, start, limit, Span(cap, limit), cap)
  {
    StopIsRoomy(items, start, limit, cap, t, count, pageIndex, r);
    match t {
      case TakeItems(_) => LastOfItems(items, start, limit, t, count, pageIndex, r);
      case HardItemCap(_) => LastUnderItemCap(items, start, limit, t, count, pageIndex, r);
      case _ => LastOfPages(items, start, limit, t, count, pageIndex, r);
    }
  }

  /** The run still wants more after a full page. */
  predicate WantsMore(limit: nat, t: Termination, count: nat, pageIndex: nat) {
    && (t.TakeItems? ==> count + limit < t.max)
    && (t.HardItemCap? ==> count + limit <= t.max)
    && (t.TakePages? || t.HardPageCap? ==> pageIndex + 1 < t.max)
  }

  /** How a turn with an honest page ends; `next` is the controller's next state. */
  ghost predicate SettledOn<S(!new), T(!new)>(limit: nat, t: Termination, q: Progress<S, seq<T>, T>, page: seq<T>,
                                              next: S, settled: Turned<S, seq<T>, T>)
    requires t.TakeItems? ==> q.itemsCount < t.max
  {
    match settled
    case Again(r) =>
      && |page| == limit && q.pageIndex < U32_MAX && WantsMore(limit, t, q.itemsCount, q.pageIndex)
      && r == q.(state := next, itemsCount := q.itemsCount + limit, pageIndex := q.pageIndex + 1,
                 out := q.out + page)
    case Done(out) =>
      && out.sent == q.sent
      && if t.HardItemCap? && q.itemsCount + |page| > t.max then out.result == Err(ItemLimitExceeded)
         else if t.TakeItems? && |page| >= t.max - q.itemsCount then
           out.result == Ok(q.out + Take(page, t.max - q.itemsCount))
         else if |page| < limit then out.result == Ok(q.out + page)
         else if (t.TakePages? || t.HardPageCap?) && q.pageIndex + 1 >= t.max then
           out.result == if t.TakePages? then Ok(q.out + page) else Err(PageLimitExceeded)
         else
           && |page| == limit && q.pageIndex >= U32_MAX && WantsMore(limit, t, q.itemsCount, q.pageIndex)
           && out.result == Err(Overflow)
  }

  /** The second half of a turn with an honest page, before any arithmetic. */
  lemma HonestSettle<S(!new), T(!new)>(site: Site<S, seq<T>, T>, limit: nat, t: Termination, q: Progress<S, seq<T>, T>,
                           page: seq<T>, next: S)
    requires site.count(page) == |page| <= limit && site.items(page) == page
    requires 0 < limit && site.expected(q.state) == Some(limit)
    requires |page| == limit ==> site.advance(q.state, page, q.pageIndex, limit) == Ok((next, Continue))
    requires q.itemsCount + |page| <= USIZE_MAX && (t.TakeItems? ==> q.itemsCount < t.max)
    ensures SettledOn(limit, t, q, page, next, Settle(site, t, q, page))
  {
    if |page| == 0 {
      assert q.out + page == q.out;
    }
  }

  /** The page at the run's position meets what the second half of a turn needs. */
  lemma HonestPage<S(!new), T(!new)>(
    site: Site<S, seq<T>, T>, walk: Walk<S>, items: seq<T>, start: nat, limit: nat, t: Termination,
    p: Progress<S, seq<T>, T>, state: S) returns (next: S)
    requires Walks(site, walk, items, limit) && Honest(walk, items, start, limit, t, p)
    requires walk.at(state) == Some(start + p.itemsCount)
    ensures var page := Slice(items, start + p.itemsCount, limit);
            && site.count(page) == |page| <= limit && site.items(page) == page
            && p.itemsCount + |page| <= USIZE_MAX
            && (|page| == limit ==>
                  && start + p.itemsCount + limit <= |items|
                  && site.advance(state, page, p.pageIndex, limit) == Ok((next, Continue))
                  && walk.at(next) == Some(start + p.itemsCount + limit))
  {
    var o, page := start + p.itemsCount, Slice(items, start + p.itemsCount, limit);
    SliceAppend(items, o, 0, limit);
    next := state;
    if |page| == limit {
      assert AdvancesAt(site, walk, |items|, limit, state, page, p.pageIndex);
      next := site.advance(state, page, p.pageIndex, limit).value.0;
    }
  }

  /** What a turn leaves: the answer read off the list, or a run one full page further. */
  ghost predicate TurnedHonestly<S(!new), T(!new)>(
    walk: Walk<S>, items: seq<T>, start: nat, limit: nat, cap: nat, t: Termination, pageIndex: nat,
    turned: Turned<S, seq<T>, T>)
  {
    match turned
    case Done(o) => o.result == HonestResult(t, items, start, limit, Span(cap, limit), cap) && |o.sent| == pageIndex + 1
    case Again(r) => Honest(walk, items, start, limit, t, r)
  }

  lemma SettledIsHonest<S(!new), T(!new)>(
    site: Site<S, seq<T>, T>, walk: Walk<S>, items: seq<T>, start: nat, limit: nat, cap: nat, t: Termination,
    p: Progress<S, seq<T>, T>, q: Progress<S, seq<T>, T>, next: S, settled: Turned<S, seq<T>, T>)
    requires 0 < limit && cap == U32_MAX + 1 && Honest(walk, items, start, limit, t, p)
    requires var o := start + p.itemsCount;
             var page := Slice(items, o, limit);
             && FetchedAt(site, walk, o, limit, p, q) && (t.TakeItems? ==> q.itemsCount < t.max)
             && SettledOn(limit, t, q, page, next, settled)
             && (|page| == limit ==> o + limit <= |items| && walk.at(next) == Some(o + limit))
    ensures TurnedHonestly(walk, items, start, limit, cap, t, p.pageIndex, settled)
  {
    match settled {
      case Again(r) => HonestAdvance(walk, items, start, limit, t, p, r);
      case Done(out) =>
        if out.result == Err(Overflow) {
          assert p.pageIndex + 1 == cap && Span(cap, limit) == p.itemsCount + limit;
        } else {
          LastPage(items, start, limit, cap, t, p.itemsCount, p.pageIndex, out.result);
        }
    }
  }

  lemma HonestTurn<S(!new), T(!new)>(
    site: Site<S, seq<T>, T>, walk: Walk<S>, items: seq<T>, start: nat, limit: nat, cap: nat, caps: Caps,
    p: Progress<S, seq<T>, T>)
    requires Walks(site, walk, items, limit) && Honest(walk, items, start, limit, caps.termination, p)
    requires cap == U32_MAX + 1
    ensures TurnedHonestly(walk, items, start, limit, cap, caps.termination, p.pageIndex, Turn(site, caps, p))
  {
    HonestFetch(site, walk, items, start, limit, caps, p);
    var (q, page) := Fetch(site, caps.detectLoops, p).value;
    var t := caps.termination;
    var next := HonestPage(site, walk, items, start, limit, t, p, q.state);
    HonestSettle(site, limit, t, q, page, next);
    SettledIsHonest(site, walk, items, start, limit, cap, t, p, q, next, Settle(site, t, q, page));
  }

  lemma {:induction false} HonestLoop<S(!new), T(!new)>(
    site: Site<S, seq<T>, T>, walk: Walk<S>, items: seq<T>, start: nat, limit: nat, cap: nat, caps: Caps,
    p: Progress<S, seq<T>, T>)
    requires Walks(site, walk, items, limit) && Honest(walk, items, start, limit, caps.termination, p)
    requires cap == U32_MAX + 1
    ensures Loop(site, caps, p).result == HonestResult(caps.termination, items, start, limit, Span(cap, limit), cap)
    ensures caps.termination.TakeItems? ==>
              |Loop(site, caps, p).sent| > 0 && Span(|Loop(site, caps, p).sent| - 1, limit) < caps.termination.max
    decreases if p.pageIndex <= U32_MAX then U32_MAX - p.pageIndex else 0
  {
    HonestTurn(site, walk, items, start, limit, cap, caps, p);
    match Turn(site, caps, p) {
      case Done(o) => assert |o.sent| - 1 == p.pageIndex;
      case Again(r) => HonestLoop(site, walk, items, start, limit, cap, caps, r);
    }
  }

  function CeilDiv(n: nat, d: nat): nat
    requires d > 0
  {
    (n + d - 1) / d
  }

  lemma CeilDivBound(r: nat, n: nat, d: nat)
    requires d > 0 && r > 0 && Span(r - 1, d) < n
    ensures r <= CeilDiv(n, d)
  {
    var c := CeilDiv(n, d);
    SpanIsProduct(c, d);
    assert n <= c * d;
    if c < r {
      SpanMonotone(c, r - 1, d);
      assert false;
    }
  }

  lemma FreshIsHonest<S(!new), T(!new)>(
    walk: Walk<S>, items: seq<T>, start: nat, limit: nat, t: Termination, p: Progress<S, seq<T>, T>)
    requires p == Fresh(p.state) && walk.at(p.state) == Some(start) && t.max > 0
    ensures Honest(walk, items, start, limit, t, p)
  {
  }

  /** The length of all the pages that the page counter can count. */
  function CounterSpan(limit: nat): nat {
    (U32_MAX + 1) * limit
  }

  lemma HonestRun<S(!new), T(!new)>(
    site: Site<S, seq<T>, T>, walk: Walk<S>, items: seq<T>, start: nat, limit: nat, cap: nat, caps: Caps, state: S)
    requires Walks(site, walk, items, limit) && walk.at(state) == Some(start) && caps.termination.max > 0
    requires cap == U32_MAX + 1
    ensures var run := Loop(site, caps, Fresh(state));
            && run.result == HonestResult(caps.termination, items, start, limit, Span(cap, limit), cap)
            && (caps.termination.TakeItems? ==> |run.sent| <= CeilDiv(caps.termination.max, limit))
  {
    var p: Progress<S, seq<T>, T> := Fresh(state);
    FreshIsHonest(walk, items, start, limit, caps.termination, p);
    HonestLoop(site, walk, items, start, limit, cap, caps, p);
    if caps.termination.TakeItems? {
      CeilDivBound(|Loop(site, caps, p).sent|, caps.termination.max, limit);
    }
  }

  /**
  Against an honest server a run is a slice of the list: items and pages are
  taken exactly, hard caps succeed exactly when everything that remains fits,
  and no loop guard ever fires. The one exception is a run that wants more than
  2^32 full pages: it ends with an overflow of the page counter. Taking n items
  needs at most ceil(n/limit) requests.
  */
  lemma HonestCollect<S(!new), T(!new)>(
    site: Site<S, seq<T>, T>, walk: Walk<S>, items: seq<T>, start: nat, limit: nat, caps: Caps, endpoint: S)
    requires Walks(site, walk, items, limit)
    requires site.plan(endpoint).Ok? && site.init(endpoint).Ok? && walk.at(site.init(endpoint).value) == Some(start)
    requires caps.termination.HardPageCap? || caps.termination.HardItemCap? ==> caps.termination.max > 0
    ensures var run := CollectSpec(site, caps, endpoint, true);
            && run.result == HonestResult(caps.termination, items, start, limit, CounterSpan(limit), U32_MAX + 1)
            && (caps.termination.TakeItems? ==> |run.sent| <= CeilDiv(caps.termination.max, limit))
  {
    var cap := U32_MAX + 1;
    if caps.termination.max > 0 {
      SpanIsProduct(cap, limit);
      assert Span(cap, limit) == CounterSpan(limit);
      HonestRun(site, walk, items, start, limit, cap, caps, site.init(endpoint).value);
    } else {
      assert caps.termination.max * limit == 0;
      assert Slice(items, start, 0) == [];
    }
  }
}
