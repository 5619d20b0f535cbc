/** The canonical identity of a paginated request: its public head with the headers in sorted order. */
module RequestIdentity {
  import opened Prelude

  /** Header names and values as bytes, the way the original compares them. */
  datatype Header = Header(name: seq<byte>, value: seq<byte>)

  /** Settings of one execution that are not part of the request. */
  datatype Overrides = Overrides(timeout: Option<nat>, debugLevel: Option<nat>, pageIndex: nat)

  datatype RequestPlan = RequestPlan(
    endpoint: string, verb: string, scheme: string, host: string, path: string,
    query: seq<(string, string)>, headers: seq<Header>, overrides: Overrides)

  datatype Identity = Identity(
    endpoint: string, verb: string, scheme: string, host: string, path: string,
    query: seq<(string, string)>, headers: seq<Header>)

  // ----- the order on headers

  /** Lexicographic order on byte strings. */
  predicate LexLe(a: seq<byte>, b: seq<byte>) {
    a == [] || (b != [] && (a[0] < b[0] || (a[0] == b[0] && LexLe(a[1..], b[1..]))))
  }

  predicate HeaderLe(a: Header, b: Header) {
    if a.name == b.name then LexLe(a.value, b.value) else LexLe(a.name, b.name)
  }

  lemma {:induction false} LexTotal(a: seq<byte>, b: seq<byte>)
    ensures LexLe(a, b) || LexLe(b, a)
    ensures LexLe(a, b) && LexLe(b, a) ==> a == b
  {
    if a != [] && b != [] && a[0] == b[0] {
      LexTotal(a[1..], b[1..]);
      if a[1..] == b[1..] {
        assert a == [a[0]] + a[1..] && b == [b[0]] + b[1..];
      }
    }
  }

  lemma {:induction false} LexTransitive(a: seq<byte>, b: seq<byte>, c: seq<byte>)
    requires LexLe(a, b) && LexLe(b, c)
    ensures LexLe(a, c)
  {
    if a != [] && a[0] == b[0] == c[0] {
      LexTransitive(a[1..], b[1..], c[1..]);
    }
  }

  lemma HeaderOrder(a: Header, b: Header, c: Header)
    ensures HeaderLe(a, b) || HeaderLe(b, a)
    ensures HeaderLe(a, b) && HeaderLe(b, a) ==> a == b
    ensures HeaderLe(a, b) && HeaderLe(b, c) ==> HeaderLe(a, c)
  {
    LexTotal(a.name, b.name);
    LexTotal(a.value, b.value);
    LexTotal(b.name, c.name);
    if HeaderLe(a, b) && HeaderLe(b, c) {
      if a.name == b.name == c.name {
        LexTransitive(a.value, b.value, c.value);
      } else if a.name != b.name && b.name != c.name {
        LexTransitive(a.name, b.name, c.name);
      }
    }
  }

  // ----- sorting

  ghost predicate Sorted(s: seq<Header>) {
    forall i, j :: 0 <= i < j < |s| ==> HeaderLe(s[i], s[j])
  }

  function Insert(h: Header, s: seq<Header>): seq<Header> {
    if s == [] || HeaderLe(h, s[0]) then [h] + s else [s[0]] + Insert(h, s[1..])
  }

  function Sort(s: seq<Header>): seq<Header> {
    if s == [] then [] else Insert(s[0], Sort(s[1..]))
  }

  lemma {:induction false} InsertKeeps(h: Header, s: seq<Header>)
    ensures multiset(Insert(h, s)) == multiset(s) + multiset{h}
    ensures Sorted(s) ==> Sorted(Insert(h, s))
  {
    if s == [] || HeaderLe(h, s[0]) {
      if Sorted(s) {
        forall j | 0 <= j < |s|
          ensures HeaderLe(h, s[j])
        {
          HeaderOrder(h, s[0], s[j]);
        }
      }
    } else {
      var rest := Insert(h, s[1..]);
      InsertKeeps(h, s[1..]);
      assert s == [s[0]] + s[1..];
      HeaderOrder(h, s[0], h);
      if Sorted(s) {
        forall j | 0 <= j < |rest|
          ensures HeaderLe(s[0], rest[j])
        {
          assert rest[j] in multiset(rest);
          assert rest[j] == h || rest[j] in s[1..];
        }
      }
    }
  }

  lemma {:induction false} SortIsSorted(s: seq<Header>)
    ensures Sorted(Sort(s)) && multiset(Sort(s)) == multiset(s)
  {
    if s != [] {
      SortIsSorted(s[1..]);
      InsertKeeps(s[0], Sort(s[1..]));
      assert s == [s[0]] + s[1..];
    }
  }

  lemma HeadIsLeast(a: seq<Header>, h: Header)
    requires Sorted(a) && h in a
    ensures HeaderLe(a[0], h)
  {
    HeaderOrder(h, h, h);
  }

  lemma HeadsAgree(a: seq<Header>, b: seq<Header>)
    requires Sorted(a) && Sorted(b) && multiset(a) == multiset(b) && a != [] && b != []
    ensures a[0] == b[0]
  {
    assert a[0] in multiset(a) && b[0] in multiset(b);
    HeadIsLeast(b, a[0]);
    HeadIsLeast(a, b[0]);
    HeaderOrder(a[0], b[0], a[0]);
  }

  lemma TailsAgree(a: seq<Header>, b: seq<Header>)
    requires a != [] && b != [] && a[0] == b[0] && multiset(a) == multiset(b)
    ensures multiset(a[1..]) == multiset(b[1..])
  {
    assert a == [a[0]] + a[1..] && b == [b[0]] + b[1..];
    assert multiset(a[1..]) == multiset(a) - multiset{a[0]};
    assert multiset(b[1..]) == multiset(b) - multiset{b[0]};
  }

  /** Two sorted lists with the same elements are the same list. */
  lemma {:induction false} SortedIsUnique(a: seq<Header>, b: seq<Header>)
    requires Sorted(a) && Sorted(b) && multiset(a) == multiset(b)
    ensures a == b
  {
    assert |a| == |multiset(a)| == |multiset(b)| == |b|;
    if a != [] {
      HeadsAgree(a, b);
      TailsAgree(a, b);
      SortedIsUnique(a[1..], b[1..]);
      assert a == [a[0]] + a[1..] && b == [b[0]] + b[1..];
    }
  }

  // ----- the identity

  function IdentityOf(plan: RequestPlan): Identity {
    Identity(plan.endpoint, plan.verb, plan.scheme, plan.host, plan.path, plan.query, Sort(plan.headers))
  }

  /** Identity forgets the overrides and the order of the headers, and nothing else. */
  lemma IdentityIsCanonical(a: RequestPlan, b: RequestPlan)
    ensures IdentityOf(a) == IdentityOf(b) <==>
              && a.(headers := [], overrides := b.overrides) == b.(headers := [])
              && multiset(a.headers) == multiset(b.headers)
  {
    SortIsSorted(a.headers);
    SortIsSorted(b.headers);
    if multiset(a.headers) == multiset(b.headers) {
      SortedIsUnique(Sort(a.headers), Sort(b.headers));
    }
  }
}
