/**
The whole history of a collect run, for any controller and any server: how each
turn follows from the one before it, why a run goes on, and why it ends.

Everything here is said about what was sent, what came back and the states the
controller went through, without the variables of the loop.
*/
module PaginationRuns {
  import opened Prelude
  import opened RequestIdentity
  import opened Pagination

  // ----- one turn, read off the history

  /** The controller's state while it prepares request `i`. */
  predicate Prepares<S, P, T>(site: Site<S, P, T>, start: S, i: nat, plan: RequestPlan) {
    && site.apply(start, i).Ok?
    && site.plan(site.apply(start, i).value).Ok?
    && SentAs(site.options, site.plan(site.apply(start, i).value).value, i, plan)
  }

  /** The planned request goes out as it is, with the caller's timeout and debug level and its page's index. */
  predicate SentAs(options: RequestOptions, planned: RequestPlan, i: nat, plan: RequestPlan) {
    && plan.endpoint == planned.endpoint && plan.verb == planned.verb && plan.scheme == planned.scheme
    && plan.host == planned.host && plan.path == planned.path
    && plan.query == planned.query && plan.headers == planned.headers
    && plan.overrides.pageIndex == i && plan.overrides.debugLevel == options.debugLevel
    && (options.timeout == Inherit ==> plan.overrides.timeout == planned.overrides.timeout)
    && (options.timeout == Clear ==> plan.overrides.timeout == None)
    && (options.timeout.Set? ==> plan.overrides.timeout == Some(options.timeout.timeout))
  }

  function CountAll<S, P, T>(site: Site<S, P, T>, pages: seq<P>): nat {
    if pages == [] then 0 else CountAll(site, pages[..|pages| - 1]) + site.count(pages[|pages| - 1])
  }

  /** The page has items, and no fewer than the controller expected. */
  predicate IsFull<S, P, T>(site: Site<S, P, T>, state: S, page: P) {
    site.count(page) > 0 && (site.expected(state).Some? ==> site.expected(state).value <= site.count(page))
  }

  /** The counters and caps leave room for another page after `i` with `total` items in all. */
  predicate WantsMore(t: Termination, i: nat, total: nat) {
    && total <= USIZE_MAX && i < U32_MAX
    && match t
       case TakeItems(n) => total < n
       case HardItemCap(n) => total <= n
       case TakePages(n) => i + 1 < n
       case HardPageCap(n) => i + 1 < n
  }

  /**
  The run went on after the last of `pages`, which began in `start`: the page was
  full, nothing was reached, and the controller said to continue in `next`.
  */
  ghost predicate GoesOn<S, P, T>(site: Site<S, P, T>, t: Termination, start: S, pages: seq<P>, next: S)
    requires pages != []
  {
    var i := |pages| - 1;
    && site.apply(start, i).Ok?
    && var state, page := site.apply(start, i).value, pages[i];
       && IsFull(site, state, page) && WantsMore(t, i, CountAll(site, pages))
       && site.advance(state, page, i, site.count(page)) == Ok((next, Continue))
  }

  // ----- why a run ends after a page

  /** Neither the item counter nor a hard item cap is passed. */
  predicate Fits(t: Termination, total: nat) {
    total <= USIZE_MAX && (t.HardItemCap? ==> total <= t.max)
  }

  /** The result of a run that ends with the page whose turn began in `start`. */
  ghost predicate EndsOnPage<S, P, T>(site: Site<S, P, T>, t: Termination, start: S, pages: seq<P>,
                                      result: Result<seq<T>, PaginationError>)
    requires pages != []
  {
    var i := |pages| - 1;
    var page, before, total := pages[i], CountAll(site, pages[..i]), CountAll(site, pages);
    var earlier, all := Concat(site.items, pages[..i]), Concat(site.items, pages);
    && site.apply(start, i).Ok?
    && var state := site.apply(start, i).value;
       var advanced := site.advance(state, page, i, site.count(page));
       if total > USIZE_MAX then result == Err(Overflow)
       else if !Fits(t, total) then result == Err(ItemLimitExceeded)
       else if site.count(page) == 0 then result == Ok(earlier)
       else if t.TakeItems? && before <= t.max <= total then
         result == Ok(earlier + Take(site.items(page), t.max - before))
       else if !IsFull(site, state, page) then result == Ok(all)
       else if advanced.Err? then result == Err(advanced.error)
       else if advanced.value.1.Stop? then result == Ok(all)
       else if t.TakePages? && i + 1 >= t.max then result == Ok(all)
       else if t.HardPageCap? && i + 1 >= t.max then result == Err(PageLimitExceeded)
       else i >= U32_MAX && result == Err(Overflow)
  }

  // ----- why a run ends before a page

  /** An earlier turn began with the same progress key. */
  ghost predicate KeySeen<S, P, T>(site: Site<S, P, T>, starts: seq<S>, start: S) {
    site.key(start).Some? && exists j :: 0 <= j < |starts| && site.key(starts[j]) == site.key(start)
  }

  ghost predicate IdentitySeen(sent: seq<RequestPlan>, plan: RequestPlan) {
    exists j :: 0 <= j < |sent| && IdentityOf(sent[j]) == IdentityOf(plan)
  }

  /** The error of a run whose next turn would begin in `start` and sends nothing. */
  ghost predicate EndsUnsent<S, P, T>(site: Site<S, P, T>, detectLoops: bool, start: S, sent: seq<RequestPlan>,
                                      starts: seq<S>, result: Result<seq<T>, PaginationError>)
  {
    var i := |sent|;
    if detectLoops && KeySeen(site, starts, start) then result == Err(NonProgress)
    else if site.apply(start, i).Err? then result == Err(site.apply(start, i).error)
    else
      var planned := site.plan(site.apply(start, i).value);
      if planned.Err? then result == Err(planned.error)
      else result == Err(NonProgress) && IdentitySeen(sent, planned.value)
  }

  // ----- a whole run

  /** Where the turn after the first `n` begins. */
  function NextStart<S, P, T>(site: Site<S, P, T>, init: S, starts: seq<S>, pages: seq<P>, n: nat): Option<S>
    requires n <= |starts| && n <= |pages|
  {
    if n == 0 then Some(init)
    else
      var applied := site.apply(starts[n - 1], n - 1);
      if applied.Err? then None
      else
        var advanced := site.advance(applied.value, pages[n - 1], n - 1, site.count(pages[n - 1]));
        if advanced.Ok? then Some(advanced.value.0) else None
  }

  /** Turn `i` begins where the turn before it left the controller, and sends what it prepares there. */
  ghost predicate LinkedAt<S, P, T>(site: Site<S, P, T>, init: S, sent: seq<RequestPlan>, pages: seq<P>,
                                    starts: seq<S>, i: nat)
    requires i < |sent| == |starts| && i <= |pages|
  {
    NextStart(site, init, starts, pages, i) == Some(starts[i]) && Prepares(site, starts[i], i, sent[i])
  }

  /** The run went on after each of the first `n` pages. */
  ghost predicate WentOn<S, P, T>(site: Site<S, P, T>, t: Termination, init: S, pages: seq<P>, starts: seq<S>, n: nat)
    requires n <= |starts| && n <= |pages|
  {
    forall i :: 0 < i <= n ==>
      NextStart(site, init, starts, pages, i).Some?
      && GoesOn(site, t, starts[i - 1], pages[..i], NextStart(site, init, starts, pages, i).value)
  }

  /** The requests that were sent and what came back, turn by turn. */
  ghost predicate History<S, P, T>(site: Site<S, P, T>, init: S, sent: seq<RequestPlan>, pages: seq<P>,
                                   starts: seq<S>)
  {
    && |pages| <= |sent| == |starts| <= |pages| + 1
    && (forall i :: 0 <= i < |sent| ==> LinkedAt(site, init, sent, pages, starts, i))
    && Answered(site, sent, pages)
  }

  /** With loop detection no two turns began with the same progress key. */
  ghost predicate KeysDistinct<S, P, T>(site: Site<S, P, T>, detectLoops: bool, starts: seq<S>) {
    detectLoops ==>
      forall i, j :: 0 <= i < j < |starts| && site.key(starts[i]).Some? ==> site.key(starts[i]) != site.key(starts[j])
  }

  /**
  The run is exactly what the controller, the server and the caps determine: a
  linked history that went on after every page but the last, and an end for one
  of three reasons.
  */
  ghost predicate ExactRun<S, P, T>(site: Site<S, P, T>, caps: Caps, init: S, o: Outcome<S, P, T>) {
    var n := |o.pages|;
    && History(site, init, o.sent, o.pages, o.starts)
    && Distinct(o.sent) && KeysDistinct(site, caps.detectLoops, o.starts)
    && if |o.sent| > n then
         && WentOn(site, caps.termination, init, o.pages, o.starts, n)
         && site.execute(o.sent).Err? && o.result == Err(site.execute(o.sent).error)
       else
         || (&& WentOn(site, caps.termination, init, o.pages, o.starts, n)
             && NextStart(site, init, o.starts, o.pages, n).Some?
             && EndsUnsent(site, caps.detectLoops, NextStart(site, init, o.starts, o.pages, n).value,
                           o.sent, o.starts, o.result))
         || (&& n > 0 && WentOn(site, caps.termination, init, o.pages, o.starts, n - 1)
             && EndsOnPage(site, caps.termination, o.starts[n - 1], o.pages, o.result))
  }

  // ----- the loop's variables and the history

  /** The sets of the two loop guards are what was seen. */
  ghost predicate GuardsTell<S, P, T>(site: Site<S, P, T>, detectLoops: bool, p: Progress<S, P, T>) {
    && (detectLoops ==>
          forall k :: k in p.seenKeys <==> exists j :: 0 <= j < |p.starts| && site.key(p.starts[j]) == Some(k))
    && (forall d :: d in p.seenIdentities <==> exists j :: 0 <= j < |p.sent| && IdentityOf(p.sent[j]) == d)
  }

  /** The loop after its last full turn. */
  ghost predicate Follows<S, P, T>(site: Site<S, P, T>, caps: Caps, init: S, p: Progress<S, P, T>) {
    && |p.sent| == |p.pages| == p.pageIndex
    && History(site, init, p.sent, p.pages, p.starts)
    && WentOn(site, caps.termination, init, p.pages, p.starts, p.pageIndex)
    && NextStart(site, init, p.starts, p.pages, p.pageIndex) == Some(p.state)
    && Distinct(p.sent) && KeysDistinct(site, caps.detectLoops, p.starts)
    && GuardsTell(site, caps.detectLoops, p)
    && p.itemsCount == CountAll(site, p.pages) && p.out == Concat(site.items, p.pages)
  }

  /** The loop with a page in hand. */
  ghost predicate FollowsPage<S, P, T>(site: Site<S, P, T>, caps: Caps, init: S, p: Progress<S, P, T>, page: P) {
    && |p.sent| == |p.pages| == p.pageIndex + 1 && page == p.pages[p.pageIndex]
    && History(site, init, p.sent, p.pages, p.starts)
    && WentOn(site, caps.termination, init, p.pages, p.starts, p.pageIndex)
    && site.apply(p.starts[p.pageIndex], p.pageIndex) == Ok(p.state)
    && Distinct(p.sent) && KeysDistinct(site, caps.detectLoops, p.starts)
    && GuardsTell(site, caps.detectLoops, p)
    && p.itemsCount == CountAll(site, p.pages[..p.pageIndex])
    && p.out == Concat(site.items, p.pages[..p.pageIndex])
  }

  // ----- more of a history

  lemma NextStartKeeps<S, P, T>(site: Site<S, P, T>, init: S, starts: seq<S>, pages: seq<P>,
                                moreStarts: seq<S>, morePages: seq<P>, n: nat)
    requires n <= |starts| && n <= |pages|
    ensures NextStart(site, init, starts + moreStarts, pages + morePages, n) == NextStart(site, init, starts, pages, n)
  {
  }

  lemma WentOnKeeps<S, P, T>(site: Site<S, P, T>, t: Termination, init: S, pages: seq<P>, starts: seq<S>,
                             morePages: seq<P>, moreStarts: seq<S>, n: nat)
    requires n <= |starts| && n <= |pages| && WentOn(site, t, init, pages, starts, n)
    ensures WentOn(site, t, init, pages + morePages, starts + moreStarts, n)
  {
    forall i | 0 < i <= n
      ensures NextStart(site, init, starts + moreStarts, pages + morePages, i).Some?
      ensures GoesOn(site, t, (starts + moreStarts)[i - 1], (pages + morePages)[..i],
                     NextStart(site, init, starts + moreStarts, pages + morePages, i).value)
    {
      NextStartKeeps(site, init, starts, pages, moreStarts, morePages, i);
      assert (pages + morePages)[..i] == pages[..i];
    }
  }

  lemma HistoryGrows<S, P, T>(site: Site<S, P, T>, init: S, sent: seq<RequestPlan>, pages: seq<P>, starts: seq<S>,
                              start: S, plan: RequestPlan)
    requires |sent| == |pages| && History(site, init, sent, pages, starts)
    requires NextStart(site, init, starts, pages, |sent|) == Some(start) && Prepares(site, start, |sent|, plan)
    ensures History(site, init, sent + [plan], pages, starts + [start])
    ensures site.execute(sent + [plan]).Ok? ==>
              History(site, init, sent + [plan], pages + [site.execute(sent + [plan]).value], starts + [start])
  {
    AnsweredExtends(site, sent, pages, plan);
    var pieces: seq<P> := if site.execute(sent + [plan]).Ok? then [site.execute(sent + [plan]).value] else [];
    forall i | 0 <= i <= |sent|
      ensures LinkedAt(site, init, sent + [plan], pages, starts + [start], i)
      ensures LinkedAt(site, init, sent + [plan], pages + pieces, starts + [start], i)
    {
      assert i < |sent| ==> LinkedAt(site, init, sent, pages, starts, i);
      NextStartKeeps(site, init, starts, pages, [start], pieces, i);
      NextStartKeeps(site, init, starts, pages, [start], [], i);
      assert pages + [] == pages;
    }
  }

  lemma GuardsGrow<S, P, T>(site: Site<S, P, T>, detectLoops: bool, p: Progress<S, P, T>, q: Progress<S, P, T>,
                            plan: RequestPlan)
    requires GuardsTell(site, detectLoops, p) && Distinct(p.sent) && KeysDistinct(site, detectLoops, p.starts)
    requires q.sent == p.sent + [plan] && q.starts == p.starts + [p.state]
    requires IdentityOf(plan) !in p.seenIdentities && q.seenIdentities == p.seenIdentities + {IdentityOf(plan)}
    requires var key := site.key(p.state);
             detectLoops ==>
               && (key.Some? ==> key.value !in p.seenKeys)
               && q.seenKeys == if key.Some? then p.seenKeys + {key.value} else p.seenKeys
    ensures GuardsTell(site, detectLoops, q) && Distinct(q.sent) && KeysDistinct(site, detectLoops, q.starts)
  {
    var n, m := |p.sent|, |p.starts|;
    assert q.sent[n] == plan && q.starts[m] == p.state;
    assert forall j :: 0 <= j < n ==> q.sent[j] == p.sent[j];
    assert forall j :: 0 <= j < m ==> q.starts[j] == p.starts[j];
    forall d
      ensures d in q.seenIdentities <==> exists j :: 0 <= j < |q.sent| && IdentityOf(q.sent[j]) == d
    {
      if d in p.seenIdentities {
        var j :| 0 <= j < n && IdentityOf(p.sent[j]) == d;
        assert IdentityOf(q.sent[j]) == d;
      }
    }
    if detectLoops {
      forall k
        ensures k in q.seenKeys <==> exists j :: 0 <= j < |q.starts| && site.key(q.starts[j]) == Some(k)
      {
        if k in p.seenKeys {
          var j :| 0 <= j < m && site.key(p.starts[j]) == Some(k);
          assert site.key(q.starts[j]) == Some(k);
        }
      }
    }
  }

  // ----- the two halves of a turn

  lemma OptionsSend(options: RequestOptions, planned: RequestPlan, i: nat)
    ensures SentAs(options, planned, i, ApplyOptions(options, planned, i))
    ensures IdentityOf(ApplyOptions(options, planned, i)) == IdentityOf(planned)
  {
  }

  /** A turn that sends nothing ends the run for one of the reasons of `EndsUnsent`. */
  lemma UnsentIsExact<S, P, T>(site: Site<S, P, T>, caps: Caps, init: S, p: Progress<S, P, T>)
    requires Follows(site, caps, init, p)
    requires var fetch := Fetch(site, caps.detectLoops, p);
             fetch.Err? && fetch.error.sent == p.sent
    ensures ExactRun(site, caps, init, Fetch(site, caps.detectLoops, p).error)
  {
    var o := Fetch(site, caps.detectLoops, p).error;
    var applied := site.apply(p.state, p.pageIndex);
    if applied.Ok? && site.plan(applied.value).Ok? {
      OptionsSend(site.options, site.plan(applied.value).value, p.pageIndex);
    }
    assert EndsUnsent(site, caps.detectLoops, p.state, p.sent, p.starts, o.result);
  }

  /** `q` is `p` with one more request sent. */
  ghost predicate SentOn<S, P, T>(site: Site<S, P, T>, detectLoops: bool, p: Progress<S, P, T>, q: Progress<S, P, T>,
                                  plan: RequestPlan) {
    var key := site.key(p.state);
    && q.sent == p.sent + [plan] && q.starts == p.starts + [p.state]
    && Prepares(site, p.state, p.pageIndex, plan)
    && IdentityOf(plan) !in p.seenIdentities && q.seenIdentities == p.seenIdentities + {IdentityOf(plan)}
    && (detectLoops ==>
          && (key.Some? ==> key.value !in p.seenKeys)
          && q.seenKeys == if key.Some? then p.seenKeys + {key.value} else p.seenKeys)
  }

  /** What a sent request adds to the history; `pieces` is the page that came back, if any. */
  lemma SendingFollows<S, P, T>(site: Site<S, P, T>, caps: Caps, init: S, p: Progress<S, P, T>, q: Progress<S, P, T>,
                                plan: RequestPlan, pieces: seq<P>)
    requires Follows(site, caps, init, p) && SentOn(site, caps.detectLoops, p, q, plan)
    requires pieces == if site.execute(q.sent).Ok? then [site.execute(q.sent).value] else []
    ensures History(site, init, q.sent, p.pages + pieces, q.starts)
    ensures WentOn(site, caps.termination, init, p.pages + pieces, q.starts, p.pageIndex)
    ensures Distinct(q.sent) && KeysDistinct(site, caps.detectLoops, q.starts) && GuardsTell(site, caps.detectLoops, q)
    ensures (p.pages + pieces)[..p.pageIndex] == p.pages
  {
    HistoryGrows(site, init, p.sent, p.pages, p.starts, p.state, plan);
    GuardsGrow(site, caps.detectLoops, p, q, plan);
    WentOnKeeps(site, caps.termination, init, p.pages, p.starts, pieces, [p.state], p.pageIndex);
    assert p.pages + [] == p.pages;
  }

  lemma FetchFollows<S, P, T>(site: Site<S, P, T>, caps: Caps, init: S, p: Progress<S, P, T>)
    requires Follows(site, caps, init, p)
    ensures var fetch := Fetch(site, caps.detectLoops, p);
            && (fetch.Err? ==> ExactRun(site, caps, init, fetch.error))
            && (fetch.Ok? ==> FollowsPage(site, caps, init, fetch.value.0, fetch.value.1))
  {
    var fetch := Fetch(site, caps.detectLoops, p);
    if fetch.Err? && fetch.error.sent == p.sent {
      UnsentIsExact(site, caps, init, p);
    } else {
      var planned := site.plan(site.apply(p.state, p.pageIndex).value).value;
      var plan := ApplyOptions(site.options, planned, p.pageIndex);
      OptionsSend(site.options, planned, p.pageIndex);
      if fetch.Ok? {
        SendingFollows(site, caps, init, p, fetch.value.0, plan, [fetch.value.1]);
      } else {
        var key := if caps.detectLoops then site.key(p.state) else None;
        var q := p.(sent := p.sent + [plan], starts := p.starts + [p.state],
                    seenKeys := if key.Some? then p.seenKeys + {key.value} else p.seenKeys,
                    seenIdentities := p.seenIdentities + {IdentityOf(plan)});
        SendingFollows(site, caps, init, p, q, plan, []);
        assert p.pages + [] == p.pages;
      }
    }
  }

  /** A decision about the last page: an end with its result, or another turn with the page accounted for. */
  ghost predicate PageDecided<S, P, T>(site: Site<S, P, T>, t: Termination, start: S, p: Progress<S, P, T>,
                                       turned: Turned<S, P, T>)
    requires p.pages != []
  {
    if turned.Done? then
      && turned.outcome.sent == p.sent && turned.outcome.pages == p.pages && turned.outcome.starts == p.starts
      && EndsOnPage(site, t, start, p.pages, turned.outcome.result)
    else
      var r := turned.progress;
      && r == p.(state := r.state, itemsCount := CountAll(site, p.pages), pageIndex := p.pageIndex + 1,
                 out := Concat(site.items, p.pages))
      && GoesOn(site, t, start, p.pages, r.state)
  }

  /** The decisions about a page are those of `GoesOn` and `EndsOnPage`. */
  lemma PageDecides<S, P, T>(site: Site<S, P, T>, t: Termination, start: S, p: Progress<S, P, T>, page: P)
    requires |p.pages| == p.pageIndex + 1 && page == p.pages[p.pageIndex]
    requires site.apply(start, p.pageIndex) == Ok(p.state)
    requires p.itemsCount == CountAll(site, p.pages[..p.pageIndex])
    requires p.out == Concat(site.items, p.pages[..p.pageIndex])
    requires t.TakeItems? ==> p.itemsCount <= t.max
    ensures PageDecided(site, t, start, p, Settle(site, t, p, page))
  {
    assert CountAll(site, p.pages) == p.itemsCount + site.count(page);
    assert Concat(site.items, p.pages) == p.out + site.items(page);
  }

  /** The items of the turns before the last stay below an item limit. */
  lemma ItemsStayBelow<S, P, T>(site: Site<S, P, T>, caps: Caps, init: S, p: Progress<S, P, T>, page: P)
    requires FollowsPage(site, caps, init, p, page) && caps.termination.TakeItems?
    ensures p.itemsCount <= caps.termination.max
  {
    var i := p.pageIndex;
    if i > 0 {
      assert GoesOn(site, caps.termination, p.starts[i - 1], p.pages[..i],
                    NextStart(site, init, p.starts, p.pages, i).value);
    } else {
      assert p.pages[..0] == [];
    }
  }

  lemma SettleFollows<S, P, T>(site: Site<S, P, T>, caps: Caps, init: S, p: Progress<S, P, T>, page: P)
    requires FollowsPage(site, caps, init, p, page)
    ensures var turned := Settle(site, caps.termination, p, page);
            && (turned.Done? ==> ExactRun(site, caps, init, turned.outcome))
            && (turned.Again? ==> Follows(site, caps, init, turned.progress))
  {
    var i := p.pageIndex;
    if caps.termination.TakeItems? {
      ItemsStayBelow(site, caps, init, p, page);
    }
    PageDecides(site, caps.termination, p.starts[i], p, page);
    assert p.pages[..i + 1] == p.pages;
  }

  lemma TurnFollows<S, P, T>(site: Site<S, P, T>, caps: Caps, init: S, p: Progress<S, P, T>)
    requires Follows(site, caps, init, p)
    ensures var turned := Turn(site, caps, p);
            && (turned.Done? ==> ExactRun(site, caps, init, turned.outcome))
            && (turned.Again? ==> Follows(site, caps, init, turned.progress))
  {
    FetchFollows(site, caps, init, p);
    var fetch := Fetch(site, caps.detectLoops, p);
    if fetch.Ok? {
      SettleFollows(site, caps, init, fetch.value.0, fetch.value.1);
    }
  }

  lemma {:induction false} LoopIsExact<S, P, T>(site: Site<S, P, T>, caps: Caps, init: S, p: Progress<S, P, T>)
    requires Follows(site, caps, init, p)
    ensures ExactRun(site, caps, init, Loop(site, caps, p))
    decreases if p.pageIndex <= U32_MAX then U32_MAX - p.pageIndex else 0
  {
    TurnFollows(site, caps, init, p);
    var turned := Turn(site, caps, p);
    if turned.Again? {
      LoopIsExact(site, caps, init, turned.progress);
    }
  }

  // ----- a run is determined

  lemma SentAsIsUnique(options: RequestOptions, planned: RequestPlan, i: nat, a: RequestPlan, b: RequestPlan)
    requires SentAs(options, planned, i, a) && SentAs(options, planned, i, b)
    ensures a == b && IdentityOf(a) == IdentityOf(planned)
  {
  }

  /** Two runs agree on their first `n` turns, and on the pages of those that came back. */
  ghost predicate Agree<S, P, T>(a: Outcome<S, P, T>, b: Outcome<S, P, T>, n: nat) {
    && n <= |a.sent| == |a.starts| && n <= |b.sent| == |b.starts|
    && a.sent[..n] == b.sent[..n] && a.starts[..n] == b.starts[..n]
    && forall i :: 0 <= i < n && i < |a.pages| && i < |b.pages| ==> a.pages[i] == b.pages[i]
  }

  lemma {:induction false} HistoriesAgree<S, P, T>(site: Site<S, P, T>, init: S, a: Outcome<S, P, T>,
                                                   b: Outcome<S, P, T>, n: nat)
    requires History(site, init, a.sent, a.pages, a.starts) && History(site, init, b.sent, b.pages, b.starts)
    requires n <= |a.sent| && n <= |b.sent|
    ensures Agree(a, b, n)
  {
    if n > 0 {
      var i := n - 1;
      HistoriesAgree(site, init, a, b, i);
      assert LinkedAt(site, init, a.sent, a.pages, a.starts, i) && LinkedAt(site, init, b.sent, b.pages, b.starts, i);
      SameNextStart(site, init, a, b, i);
      var planned := site.plan(site.apply(a.starts[i], i).value).value;
      SentAsIsUnique(site.options, planned, i, a.sent[i], b.sent[i]);
      assert a.sent[..n] == a.sent[..i] + [a.sent[i]] && b.sent[..n] == b.sent[..i] + [b.sent[i]];
      assert a.starts[..n] == a.starts[..i] + [a.starts[i]] && b.starts[..n] == b.starts[..i] + [b.starts[i]];
      assert i < |a.pages| ==> site.execute(a.sent[..i + 1]) == Ok(a.pages[i]);
      assert i < |b.pages| ==> site.execute(b.sent[..i + 1]) == Ok(b.pages[i]);
    }
  }

  lemma SameNextStart<S, P, T>(site: Site<S, P, T>, init: S, a: Outcome<S, P, T>, b: Outcome<S, P, T>, n: nat)
    requires Agree(a, b, n) && n <= |a.pages| && n <= |b.pages|
    ensures NextStart(site, init, a.starts, a.pages, n) == NextStart(site, init, b.starts, b.pages, n)
    ensures a.pages[..n] == b.pages[..n]
  {
    if n > 0 {
      assert a.starts[n - 1] == a.starts[..n][n - 1] == b.starts[..n][n - 1] == b.starts[n - 1];
    }
  }

  /** A run that goes on after a page does not end there. */
  lemma GoingOnExcludesEnd<S, P, T>(site: Site<S, P, T>, t: Termination, start: S, pages: seq<P>,
                                    result: Result<seq<T>, PaginationError>, next: S)
    requires pages != [] && GoesOn(site, t, start, pages, next)
    ensures !EndsOnPage(site, t, start, pages, result)
  {
  }

  /** A run that sends a new request does not end before it. */
  lemma SendingExcludesEnd<S, P, T>(site: Site<S, P, T>, detectLoops: bool, start: S, sent: seq<RequestPlan>,
                                    starts: seq<S>, result: Result<seq<T>, PaginationError>, plan: RequestPlan)
    requires Prepares(site, start, |sent|, plan) && !IdentitySeen(sent, plan)
    requires detectLoops ==> !KeySeen(site, starts, start)
    ensures !EndsUnsent(site, detectLoops, start, sent, starts, result)
  {
    SentAsIsUnique(site.options, site.plan(site.apply(start, |sent|).value).value, |sent|, plan, plan);
  }

  lemma SentIsAnswered<S, P, T>(site: Site<S, P, T>, init: S, o: Outcome<S, P, T>, n: nat)
    requires History(site, init, o.sent, o.pages, o.starts) && 0 < n < |o.sent|
    ensures site.execute(o.sent[..n]).Ok?
  {
    assert site.execute(o.sent[..n - 1 + 1]) == Ok(o.pages[n - 1]);
  }

  /** A run that sends request `n` went on after the pages before it, and the request is new. */
  lemma SendingGoesOn<S, P, T>(site: Site<S, P, T>, caps: Caps, init: S, o: Outcome<S, P, T>, n: nat)
    requires ExactRun(site, caps, init, o) && n < |o.sent|
    ensures n <= |o.pages| && NextStart(site, init, o.starts, o.pages, n) == Some(o.starts[n])
    ensures Prepares(site, o.starts[n], n, o.sent[n]) && !IdentitySeen(o.sent[..n], o.sent[n])
    ensures caps.detectLoops ==> !KeySeen(site, o.starts[..n], o.starts[n])
    ensures n > 0 ==> GoesOn(site, caps.termination, o.starts[n - 1], o.pages[..n], o.starts[n])
  {
    assert LinkedAt(site, init, o.sent, o.pages, o.starts, n);
  }

  /** The first `|part.sent|` requests of a run. */
  ghost predicate IsPart<S, P, T>(part: Outcome<S, P, T>, o: Outcome<S, P, T>) {
    && |part.sent| < |o.sent| == |o.starts|
    && part.sent == o.sent[..|part.sent|] && part.starts == o.starts[..|part.sent|]
    && |part.pages| <= |o.pages| && part.pages == o.pages[..|part.pages|]
  }

  lemma PartNextStart<S, P, T>(site: Site<S, P, T>, init: S, part: Outcome<S, P, T>, o: Outcome<S, P, T>)
    requires IsPart(part, o) && |part.pages| == |part.sent|
    ensures NextStart(site, init, part.starts, part.pages, |part.sent|)
         == NextStart(site, init, o.starts, o.pages, |part.sent|)
  {
  }

  lemma AnsweredPartIsNoRun<S, P, T>(site: Site<S, P, T>, caps: Caps, init: S, part: Outcome<S, P, T>,
                                     o: Outcome<S, P, T>)
    requires ExactRun(site, caps, init, o) && IsPart(part, o) && |part.pages| == |part.sent|
    ensures !ExactRun(site, caps, init, part)
  {
    var n := |part.sent|;
    SendingGoesOn(site, caps, init, o, n);
    PartNextStart(site, init, part, o);
    SendingExcludesEnd(site, caps.detectLoops, o.starts[n], part.sent, part.starts, part.result, o.sent[n]);
    if n > 0 {
      assert part.starts[n - 1] == o.starts[n - 1];
      GoingOnExcludesEnd(site, caps.termination, o.starts[n - 1], part.pages, part.result, o.starts[n]);
    }
  }

  /** The first part of a run that goes on is not a run of its own. */
  lemma PartIsNoRun<S, P, T>(site: Site<S, P, T>, caps: Caps, init: S, part: Outcome<S, P, T>, o: Outcome<S, P, T>)
    requires ExactRun(site, caps, init, o) && IsPart(part, o) && |part.sent| - 1 <= |part.pages| <= |part.sent|
    ensures !ExactRun(site, caps, init, part)
  {
    if |part.pages| < |part.sent| {
      SentIsAnswered(site, init, o, |part.sent|);
    } else {
      AnsweredPartIsNoRun(site, caps, init, part, o);
    }
  }

  lemma AgreeIsPart<S, P, T>(a: Outcome<S, P, T>, b: Outcome<S, P, T>)
    requires Agree(a, b, |a.sent|) && |a.sent| < |b.sent| && |a.pages| <= |a.sent| <= |b.pages|
    ensures IsPart(a, b)
  {
    assert a.sent == a.sent[..|a.sent|] && a.starts == a.starts[..|a.sent|];
  }

  lemma NoRunOutlastsAnother<S, P, T>(site: Site<S, P, T>, caps: Caps, init: S, a: Outcome<S, P, T>,
                                      b: Outcome<S, P, T>)
    requires ExactRun(site, caps, init, a) && ExactRun(site, caps, init, b)
    ensures |b.sent| <= |a.sent|
  {
    if |b.sent| > |a.sent| {
      HistoriesAgree(site, init, a, b, |a.sent|);
      AgreeIsPart(a, b);
      PartIsNoRun(site, caps, init, a, b);
    }
  }

  /** The controller, the server and the caps determine the whole run: there is only one. */
  lemma RunIsDetermined<S, P, T>(site: Site<S, P, T>, caps: Caps, init: S, a: Outcome<S, P, T>, b: Outcome<S, P, T>)
    requires ExactRun(site, caps, init, a) && ExactRun(site, caps, init, b)
    ensures a == b
  {
    NoRunOutlastsAnother(site, caps, init, a, b);
    NoRunOutlastsAnother(site, caps, init, b, a);
    var n := |a.sent|;
    HistoriesAgree(site, init, a, b, n);
    assert a.sent == a.sent[..n] == b.sent[..n] == b.sent;
    assert a.starts == a.starts[..n] == b.starts[..n] == b.starts;
    SamePages(site, caps, init, a, b);
    SameResult(site, caps, init, a, b);
  }

  lemma SamePages<S, P, T>(site: Site<S, P, T>, caps: Caps, init: S, a: Outcome<S, P, T>, b: Outcome<S, P, T>)
    requires ExactRun(site, caps, init, a) && ExactRun(site, caps, init, b)
    requires Agree(a, b, |a.sent|) && a.sent == b.sent
    ensures a.pages == b.pages
  {
    var n := |a.sent|;
    if |a.pages| == n && n > 0 {
      assert site.execute(a.sent[..n - 1 + 1]) == Ok(a.pages[n - 1]);
      assert a.sent[..n] == a.sent;
    }
    if |b.pages| == n && n > 0 {
      assert site.execute(b.sent[..n - 1 + 1]) == Ok(b.pages[n - 1]);
      assert b.sent[..n] == b.sent;
    }
    assert |a.pages| == |b.pages|;
  }

  lemma SameResult<S, P, T>(site: Site<S, P, T>, caps: Caps, init: S, a: Outcome<S, P, T>, b: Outcome<S, P, T>)
    requires ExactRun(site, caps, init, a) && ExactRun(site, caps, init, b)
    requires a.sent == b.sent && a.pages == b.pages && a.starts == b.starts
    ensures a.result == b.result
  {
    var n := |a.pages|;
    if |a.sent| == n && n > 0 && WentOn(site, caps.termination, init, a.pages, a.starts, n) {
      var next := NextStart(site, init, a.starts, a.pages, n).value;
      assert a.pages[..n] == a.pages;
      GoingOnExcludesEnd(site, caps.termination, a.starts[n - 1], a.pages, a.result, next);
      GoingOnExcludesEnd(site, caps.termination, a.starts[n - 1], a.pages, b.result, next);
    }
  }

  /** What is decided before a run starts, in order. */
  ghost predicate DecidedEarly<S, P, T>(site: Site<S, P, T>, t: Termination, endpoint: S, paginated: bool,
                                        result: Result<seq<T>, PaginationError>)
  {
    if site.plan(endpoint).Err? then result == Err(site.plan(endpoint).error)
    else if t == HardPageCap(0) || t == HardItemCap(0) then result == Err(InvalidSize)
    else if t == TakePages(0) || t == TakeItems(0) then result == Ok([])
    else if !paginated then result == Err(UnsupportedPagination)
    else site.init(endpoint).Err? && result == Err(site.init(endpoint).error)
  }

  /**
  Every collect is decided before its first request, or is an exact run from the
  initial state of its controller.
  */
  lemma CollectRunIsExact<S, P, T>(site: Site<S, P, T>, caps: Caps, endpoint: S, paginated: bool)
    ensures var o := CollectSpec(site, caps, endpoint, paginated);
            || (o.sent == [] && o.pages == [] && o.starts == []
                && DecidedEarly(site, caps.termination, endpoint, paginated, o.result))
            || (&& site.plan(endpoint).Ok? && caps.termination.max > 0 && paginated && site.init(endpoint).Ok?
                && ExactRun(site, caps, site.init(endpoint).value, o))
  {
    if site.init(endpoint).Ok? {
      var init := site.init(endpoint).value;
      var p: Progress<S, P, T> := Fresh(init);
      assert Follows(site, caps, init, p);
      LoopIsExact(site, caps, init, p);
    }
  }

  /**
  No request follows a page whose controller said Stop, or a page that was empty
  or shorter than expected.
  */
  lemma NothingAfterStop<S, P, T>(site: Site<S, P, T>, caps: Caps, endpoint: S, paginated: bool, i: nat)
    requires var o := CollectSpec(site, caps, endpoint, paginated);
             i < |o.pages| && i + 1 < |o.sent|
    ensures var o := CollectSpec(site, caps, endpoint, paginated);
            && |o.starts| == |o.sent| && site.apply(o.starts[i], i).Ok?
            && var state, count := site.apply(o.starts[i], i).value, site.count(o.pages[i]);
               && count > 0 && (site.expected(state).Some? ==> site.expected(state).value <= count)
               && site.advance(state, o.pages[i], i, count) == Ok((o.starts[i + 1], Continue))
  {
    CollectRunIsExact(site, caps, endpoint, paginated);
    var o := CollectSpec(site, caps, endpoint, paginated);
    var init := site.init(endpoint).value;
    assert LinkedAt(site, init, o.sent, o.pages, o.starts, i + 1);
    assert GoesOn(site, caps.termination, o.starts[i], o.pages[..i + 1],
                  NextStart(site, init, o.starts, o.pages, i + 1).value);
  }
}
