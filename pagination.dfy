/**
 * Paged results (pagination.go): a page of entries or projects remembers the
 * `Link` relations of the response it came from, can fetch the page a
 * relation points at, and can stream its items followed by those of every
 * later page.
 *
 * Entries pages and projects pages behave identically; one generic `Page`
 * stands for both, with the item decoder of its kind (`Json.entries` or
 * `Json.projects`) carried along.
 */
module Pagination {
  import opened Wrappers
  import Assoc
  import LinkHeader
  import opened Transport

  const FirstPage: string := "first"
  const LastPage: string := "last"
  const NextPage: string := "next"
  const PreviousPage: string := "prev"

  /** A page: its relations to other pages, its items, the client that fetched it and its item decoder. */
  datatype Page<T> = Page(links: map<string, string>, items: seq<T>, client: Freckle, decode: Decoder<seq<T>>)

  /** `emptyEntriesPage` / `emptyProjectsPage`: no relations and no items yet. */
  function EmptyPage<T>(f: Freckle, decode: Decoder<seq<T>>): (p: Page<T>)
    ensures !HasNext(p) && !HasPrevious(p) && p.items == []
    ensures forall id :: !Has(p, id) && Target(p, id) == ""
    ensures p.client == f && p.decode == decode
  {
    Page(map[], [], f, decode)
  }

  /**
   * `has`: whether the page's response named the relation. When it did not,
   * fetching the relation requests the empty URL.
   */
  predicate Has<T>(p: Page<T>, id: string)
    ensures Has(p, id) <==> id in p.links
    ensures !Has(p, id) ==> Target(p, id) == ""
  {
    id in p.links
  }

  /** `HasNext`: whether the page names a "next" relation, the one `Next` and `push` follow. */
  predicate HasNext<T>(p: Page<T>)
    ensures HasNext(p) <==> NextPage in p.links
    ensures HasNext(p) ==> Target(p, NextPage) == p.links[NextPage]
  {
    Has(p, NextPage)
  }

  /** `HasPrevious`: whether the page names a "prev" relation, the one `Previous` follows. */
  predicate HasPrevious<T>(p: Page<T>)
    ensures HasPrevious(p) <==> PreviousPage in p.links
    ensures HasPrevious(p) ==> Target(p, PreviousPage) == p.links[PreviousPage]
  {
    Has(p, PreviousPage)
  }

  /**
   * `onResponse`: the page takes the relations of the response's `Link`
   * header and whatever the decoder left of the items, and reports the
   * decoder's error. The relations are set even when decoding fails.
   */
  function OnResponse<T>(p: Page<T>, data: Bytes, resp: Response): (out: Outcome<Page<T>>)
    ensures out.value.links == LinkHeader.Links(resp.link)
    ensures out.value.items == p.decode(data).value && out.error == p.decode(data).error
    ensures out.value.client == p.client && out.value.decode == p.decode
  {
    var decoded := p.decode(data);
    Outcome(p.(links := LinkHeader.Links(resp.link), items := decoded.value), decoded.error)
  }

  /** The page's `onResponse` as a callback. */
  function Filler<T>(p: Page<T>): Handler<Page<T>>
  {
    (data, resp) => OnResponse(p, data, resp)
  }

  /** The URL a relation points at; a missing relation reads as "", as a Go map does. */
  function Target<T>(p: Page<T>, id: string): string
  {
    if id in p.links then p.links[id] else ""
  }

  /** `fetch` as a function: a GET of the relation's URL, filling a fresh page of the same kind. */
  function FetchPage<T>(p: Page<T>, id: string): Outcome<Page<T>>
  {
    var result := EmptyPage(p.client, p.decode);
    var url := Target(p, id);
    match p.client.net.reject(url)
    case Some(e) => Outcome(result, Some(e))
    case None => Exchange(p.client, Request("GET", url, map[], None), result, Filler(result))
  }

  /**
   * What fetching a relation yields: when the request is accepted and a
   * response below 400 comes back, a page holding exactly that response's
   * relations and decoded items, with the decoder's error; otherwise an empty
   * page and an error. Nothing of the current page but its client and kind is
   * carried over.
   */
  lemma FetchedPage<T>(p: Page<T>, id: string)
    ensures var out := FetchPage(p, id);
      var url := Target(p, id);
      var reply := p.client.net.send(Authenticate(p.client, Request("GET", url, map[], None)));
      if p.client.net.reject(url).None? && Accepted(reply) then
        && out.value == Page(LinkHeader.Links(reply.response.link), p.decode(reply.body).value, p.client, p.decode)
        && out.error == p.decode(reply.body).error
      else
        out.value == EmptyPage(p.client, p.decode) && out.error.Some?
  {
    var url := Target(p, id);
    var reply := p.client.net.send(Authenticate(p.client, Request("GET", url, map[], None)));
    var result := EmptyPage(p.client, p.decode);
    RespondDispatch(p.client.json, reply, result, Filler(result));
  }

  /**
   * What a listing call (`ListEntries`, `ListProjects`, `GetEntries`) yields:
   * the page filled from an accepted response, with the decoder's error, or
   * the empty page and an error. Either way the page keeps the client, so
   * its navigation requests are authenticated the same way.
   */
  lemma ListedPage<T>(f: Freckle, path: string, ps: Option<Parameters>, decode: Decoder<seq<T>>)
    ensures var init := EmptyPage(f, decode);
      var out := Perform(f, "GET", path, ps, None, init, Filler(init));
      var reply := f.net.send(Authenticate(f, Outgoing(f, "GET", path, ps, None)));
      && out.value.client == f && out.value.decode == decode
      && if Reaches(f, path, ps, None) && Accepted(reply) then
           && out.value == Page(LinkHeader.Links(reply.response.link), decode(reply.body).value, f, decode)
           && out.error == decode(reply.body).error
         else
           out.value == init && out.error.Some?
  {
    var init := EmptyPage(f, decode);
    var reply := f.net.send(Authenticate(f, Outgoing(f, "GET", path, ps, None)));
    PerformSends(f, "GET", path, ps, None, init, Filler(init));
    RespondDispatch(f.json, reply, init, Filler(init));
  }

  /** `fetch` does not consult `has`: a missing relation is a GET of the empty URL. */
  lemma FetchWithoutRelation<T>(p: Page<T>, q: Page<T>, id: string)
    requires !Has(p, id) && Has(q, id) && q.links[id] == ""
    requires q.client == p.client && q.decode == p.decode
    ensures FetchPage(p, id) == FetchPage(q, id)
  {
  }

  /** `fetch`. */
  method Fetch<T>(p: Page<T>, id: string) returns (out: Outcome<Page<T>>)
    ensures out == FetchPage(p, id)
  {
    var f := p.client;
    var result := EmptyPage(f, p.decode);
    var url := if id in p.links then p.links[id] else "";
    var rejected := f.net.reject(url);
    if rejected.Some? {
      return Outcome(result, rejected);
    }
    out := DoHttpRequest(f, Request("GET", url, map[], None), result, Filler(result));
  }

  method Next<T>(p: Page<T>) returns (out: Outcome<Page<T>>)
    ensures out == FetchPage(p, NextPage)
  {
    out := Fetch(p, NextPage);
  }

  method Previous<T>(p: Page<T>) returns (out: Outcome<Page<T>>)
    ensures out == FetchPage(p, PreviousPage)
  {
    out := Fetch(p, PreviousPage);
  }

  method First<T>(p: Page<T>) returns (out: Outcome<Page<T>>)
    ensures out == FetchPage(p, FirstPage)
  {
    out := Fetch(p, FirstPage);
  }

  method Last<T>(p: Page<T>) returns (out: Outcome<Page<T>>)
    ensures out == FetchPage(p, LastPage)
  {
    out := Fetch(p, LastPage);
  }

  /**
   * A page filled from a response has a next page exactly when some entry of
   * its `Link` header names the relation "next", and then points at the URL of
   * the last such entry; likewise for "prev".
   */
  lemma HasNextIffNextEntry<T>(p: Page<T>, data: Bytes, resp: Response)
    ensures var page := OnResponse(p, data, resp).value;
      var ms := LinkHeader.Matches(resp.link);
      && (HasNext(page) <==> exists i :: 0 <= i < |ms| && ms[i].0 == NextPage)
      && (HasPrevious(page) <==> exists i :: 0 <= i < |ms| && ms[i].0 == PreviousPage)
      && (forall i :: 0 <= i < |ms| && ms[i].0 == NextPage && (forall j :: i < j < |ms| ==> ms[j].0 != NextPage) ==>
            NextPage in page.links && page.links[NextPage] == ms[i].1)
      && (forall i :: 0 <= i < |ms| && ms[i].0 == PreviousPage && (forall j :: i < j < |ms| ==> ms[j].0 != PreviousPage) ==>
            PreviousPage in page.links && page.links[PreviousPage] == ms[i].1)
  {
    var page := OnResponse(p, data, resp).value;
    var ms := LinkHeader.Matches(resp.link);
    var links := LinkHeader.Links(resp.link);
    assert page.links == links;
    LinkHeader.LinksAreLastMatches(resp.link);
    assert HasNext(page) <==> NextPage in links;
    assert HasPrevious(page) <==> PreviousPage in links;
    forall i | 0 <= i < |ms| && ms[i].0 == NextPage && (forall j :: i < j < |ms| ==> ms[j].0 != NextPage)
      ensures NextPage in page.links && page.links[NextPage] == ms[i].1
    {
      assert Assoc.LastWith(ms, NextPage, i);
    }
    forall i | 0 <= i < |ms| && ms[i].0 == PreviousPage && (forall j :: i < j < |ms| ==> ms[j].0 != PreviousPage)
      ensures PreviousPage in page.links && page.links[PreviousPage] == ms[i].1
    {
      assert Assoc.LastWith(ms, PreviousPage, i);
    }
  }

  /** A response whose `Link` header is a single "next" entry leads on, and not back. */
  lemma SingleNextLink<T>(p: Page<T>, data: Bytes, status: int, url: string)
    requires LinkHeader.WellFormed((NextPage, url))
    ensures var page := OnResponse(p, data, Response(status, LinkHeader.EntryText((NextPage, url)))).value;
      HasNext(page) && !HasPrevious(page) && page.links == map[NextPage := url]
  {
    var ls: seq<LinkHeader.Link> := [(NextPage, url)];
    LinkHeader.MatchesEntry((NextPage, url), "");
    assert LinkHeader.EntryText((NextPage, url)) + "" == LinkHeader.EntryText((NextPage, url));
    LinkHeader.MatchesEmpty();
    Assoc.FromPairsSnoc([], NextPage, url);
    assert [] + ls == ls;
    assert LinkHeader.Links(LinkHeader.EntryText((NextPage, url))) == map[NextPage := url];
  }

  // -------------------------------------------------------------- streaming

  /**
   * What a traversal does, in order: hand an item to the channel, or attempt
   * to fetch a page. An attempt is recorded before the URL is checked, so it
   * stands in the trace even when `http.NewRequest` rejects the URL and
   * nothing is sent.
   */
  datatype Event<T> = Emitted(item: T) | Fetched(url: string)

  /** The items a traversal delivers and the full sequence of its events. */
  datatype Walk<T> = Walk(items: seq<T>, trace: seq<Event<T>>)

  /** One emission per item, in order. */
  function Emissions<T>(xs: seq<T>): seq<Event<T>>
  {
    if xs == [] then [] else [Emitted(xs[0])] + Emissions(xs[1..])
  }

  /** The items a trace hands to the channel, in order. */
  function ItemsOf<T>(trace: seq<Event<T>>): seq<T>
  {
    if trace == [] then []
    else (if trace[0].Emitted? then [trace[0].item] else []) + ItemsOf(trace[1..])
  }

  /** How many pages a trace requests. */
  function Fetches<T>(trace: seq<Event<T>>): nat
  {
    if trace == [] then 0 else (if trace[0].Fetched? then 1 else 0) + Fetches(trace[1..])
  }

  lemma {:induction false} TraceAppend<T>(a: seq<Event<T>>, b: seq<Event<T>>)
    ensures ItemsOf(a + b) == ItemsOf(a) + ItemsOf(b)
    ensures Fetches(a + b) == Fetches(a) + Fetches(b)
  {
    if a == [] {
      assert a + b == b;
    } else {
      assert (a + b)[0] == a[0];
      assert (a + b)[1..] == a[1..] + b;
      TraceAppend(a[1..], b);
    }
  }

  lemma {:induction false} EmissionsTrace<T>(xs: seq<T>)
    ensures ItemsOf(Emissions(xs)) == xs
    ensures Fetches(Emissions(xs)) == 0
    ensures |Emissions(xs)| == |xs|
  {
    if xs != [] {
      var e := Emissions(xs);
      EmissionsTrace(xs[1..]);
      assert e == [Emitted(xs[0])] + Emissions(xs[1..]);
      assert e[0] == Emitted(xs[0]) && e[1..] == Emissions(xs[1..]);
      assert ItemsOf(e) == [xs[0]] + ItemsOf(e[1..]);
      assert xs == [xs[0]] + xs[1..];
    }
  }

  lemma {:induction false} EmissionsSnoc<T>(xs: seq<T>, x: T)
    ensures Emissions(xs + [x]) == Emissions(xs) + [Emitted(x)]
  {
    if xs != [] {
      assert (xs + [x])[1..] == xs[1..] + [x];
      EmissionsSnoc(xs[1..], x);
    } else {
      assert xs + [x] == [x];
    }
  }

  /** The request `push` makes once a page's items are sent: a fetch of its next page. */
  function FetchNext<T>(p: Page<T>): Outcome<Page<T>>
  {
    FetchPage(p, NextPage)
  }

  /**
   * `push` with the fetch of the next page left as a parameter: the page's
   * items, then, if there is a next page and fuel is left, a request for it
   * and, when that succeeds, the walk from the page it returned. The items
   * delivered are exactly those the trace emits, the page's own items come
   * first, and at most `fuel` pages are requested.
   */
  function Walker<T>(p: Page<T>, fuel: nat, next: Page<T> -> Outcome<Page<T>>): (w: Walk<T>)
    ensures ItemsOf(w.trace) == w.items
    ensures p.items <= w.items
    ensures Fetches(w.trace) <= fuel
    decreases fuel
  {
    EmissionsTrace(p.items);
    if !HasNext(p) || fuel == 0 then Walk(p.items, Emissions(p.items))
    else
      var fetched := next(p);
      var head := PageTrace(p);
      PageTraceFacts(p);
      if fetched.error.Some? then Walk(p.items, head)
      else
        var rest := Walker(fetched.value, fuel - 1, next);
        TraceAppend(head, rest.trace);
        Walk(p.items + rest.items, head + rest.trace)
  }

  /**
   * `push` as a function: the walk in which each next page is fetched over
   * the page's own client. It delivers exactly the items its trace emits, the
   * page's own items first, and requests at most `fuel` pages.
   */
  function Traverse<T>(p: Page<T>, fuel: nat): (w: Walk<T>)
    ensures ItemsOf(w.trace) == w.items
    ensures p.items <= w.items
    ensures Fetches(w.trace) <= fuel
  {
    Walker(p, fuel, FetchNext)
  }

  /**
   * `push`: sends the page's items one by one, then fetches the next page and
   * pushes it, stopping silently when the fetch fails.
   */
  method Push<T>(p: Page<T>, fuel: nat) returns (w: Walk<T>)
    ensures w == Traverse(p, fuel)
    decreases fuel
  {
    var items: seq<T> := [];
    var trace: seq<Event<T>> := [];
    for i := 0 to |p.items|
      invariant items == p.items[..i]
      invariant trace == Emissions(p.items[..i])
    {
      EmissionsSnoc(p.items[..i], p.items[i]);
      assert p.items[..i + 1] == p.items[..i] + [p.items[i]];
      items := items + [p.items[i]];
      trace := trace + [Emitted(p.items[i])];
    }
    assert p.items[..|p.items|] == p.items;
    if HasNext(p) && fuel > 0 {
      var next := Next(p);
      trace := trace + [Fetched(p.links[NextPage])];
      if next.error.None? {
        var rest := Push(next.value, fuel - 1);
        items := items + rest.items;
        trace := trace + rest.trace;
      }
    }
    w := Walk(items, trace);
  }

  /**
   * `AllEntries` / `AllProjects`: what a consumer ranging over the channel
   * receives before it is closed.
   */
  method All<T>(p: Page<T>, fuel: nat) returns (received: seq<T>)
    ensures received == Traverse(p, fuel).items
  {
    var w := Push(p, fuel);
    received := w.items;
  }

  /** A failed fetch of the next page ends the stream after the current page's items, without an error. */
  lemma TraverseStopsOnFailure<T>(p: Page<T>, fuel: nat)
    requires HasNext(p) && fuel > 0 && FetchPage(p, NextPage).error.Some?
    ensures Traverse(p, fuel) == Walk(p.items, Emissions(p.items) + [Fetched(p.links[NextPage])])
  {
  }

  /** A page without a next relation streams its own items and requests nothing. */
  lemma LastPageFetchesNothing<T>(p: Page<T>, fuel: nat)
    requires !HasNext(p)
    ensures Traverse(p, fuel).items == p.items && Fetches(Traverse(p, fuel).trace) == 0
  {
    EmissionsTrace(p.items);
  }

  /** Pages each of which leads, by a successful fetch, to the following one; the last has no next page. */
  ghost predicate Chain<T>(pages: seq<Page<T>>)
  {
    ChainBy(pages, FetchNext)
  }

  /** `Chain` for any way of fetching the next page. */
  ghost predicate ChainBy<T>(pages: seq<Page<T>>, next: Page<T> -> Outcome<Page<T>>)
  {
    && |pages| > 0
    && (forall k :: 0 <= k < |pages| - 1 ==> HasNext(pages[k]) && next(pages[k]) == Outcome(pages[k + 1], None))
    && !HasNext(pages[|pages| - 1])
  }

  /** Whether every page but the last has a next relation. */
  ghost predicate Linked<T>(pages: seq<Page<T>>)
  {
    |pages| > 0 && forall k :: 0 <= k < |pages| - 1 ==> HasNext(pages[k])
  }

  /** The items of the pages, page after page. */
  function Concat<T>(pages: seq<Page<T>>): seq<T>
  {
    if pages == [] then [] else pages[0].items + Concat(pages[1..])
  }

  /** The trace of streaming linked pages: each page's items, then the request for the next page. */
  ghost function ChainTrace<T>(pages: seq<Page<T>>): seq<Event<T>>
    requires Linked(pages)
  {
    if |pages| == 1 then Emissions(pages[0].items)
    else PageTrace(pages[0]) + ChainTrace(pages[1..])
  }

  /**
   * Streaming from the first page of a chain, with enough fuel, delivers the
   * items of all pages in page order, with the trace of the chain.
   */
  lemma TraverseChain<T>(pages: seq<Page<T>>, fuel: nat)
    requires Chain(pages) && fuel >= |pages| - 1
    ensures Linked(pages)
    ensures Traverse(pages[0], fuel) == Walk(Concat(pages), ChainTrace(pages))
  {
    WalkChain(pages, fuel, FetchNext);
  }

  /** `TraverseChain` for any way of fetching the next page. */
  lemma {:induction false} WalkChain<T>(pages: seq<Page<T>>, fuel: nat, next: Page<T> -> Outcome<Page<T>>)
    requires ChainBy(pages, next) && fuel >= |pages| - 1
    ensures Linked(pages)
    ensures Walker(pages[0], fuel, next) == Walk(Concat(pages), ChainTrace(pages))
  {
    if |pages| > 1 {
      var rest := pages[1..];
      ChainTail(pages, next);
      WalkChain(rest, fuel - 1, next);
      WalkStep(pages[0], rest[0], fuel, next);
      ChainStep(pages, Walker(pages[0], fuel, next), Walker(rest[0], fuel - 1, next));
    } else {
      assert pages[1..] == [];
      assert Concat(pages) == pages[0].items + Concat(pages[1..]);
    }
  }

  /** The walk of a chain is its first page's trace followed by the walk of the rest. */
  lemma ChainStep<T>(pages: seq<Page<T>>, w0: Walk<T>, w: Walk<T>)
    requires |pages| > 1 && Linked(pages)
    requires w == Walk(Concat(pages[1..]), ChainTrace(pages[1..]))
    requires w0 == Walk(pages[0].items + w.items, PageTrace(pages[0]) + w.trace)
    ensures w0 == Walk(Concat(pages), ChainTrace(pages))
  {
    assert Concat(pages) == pages[0].items + Concat(pages[1..]);
    assert ChainTrace(pages) == PageTrace(pages[0]) + ChainTrace(pages[1..]);
  }

  /** A chain without its first page is a chain, which the first page's next page begins. */
  lemma ChainTail<T>(pages: seq<Page<T>>, next: Page<T> -> Outcome<Page<T>>)
    requires ChainBy(pages, next) && |pages| > 1
    ensures ChainBy(pages[1..], next) && Linked(pages)
    ensures HasNext(pages[0]) && next(pages[0]) == Outcome(pages[1..][0], None)
  {
    var rest := pages[1..];
    forall k | 0 <= k < |rest| - 1
      ensures HasNext(rest[k]) && next(rest[k]) == Outcome(rest[k + 1], None)
    {
      assert rest[k] == pages[k + 1] && rest[k + 1] == pages[k + 2];
    }
  }

  /** A page whose next page is fetched successfully walks its own trace, then the next page's walk. */
  lemma WalkStep<T>(p: Page<T>, q: Page<T>, fuel: nat, next: Page<T> -> Outcome<Page<T>>)
    requires HasNext(p) && fuel > 0 && next(p) == Outcome(q, None)
    ensures Walker(p, fuel, next) == Walk(p.items + Walker(q, fuel - 1, next).items, PageTrace(p) + Walker(q, fuel - 1, next).trace)
  {
  }

  /** Streaming a chain of N pages requests N - 1 pages and delivers the items of each page. */
  lemma {:induction false} ChainCounts<T>(pages: seq<Page<T>>)
    requires Linked(pages)
    ensures Fetches(ChainTrace(pages)) == |pages| - 1
    ensures ItemsOf(ChainTrace(pages)) == Concat(pages)
  {
    EmissionsTrace(pages[0].items);
    if |pages| > 1 {
      PageTraceFacts(pages[0]);
      ChainCounts(pages[1..]);
      TraceAppend(PageTrace(pages[0]), ChainTrace(pages[1..]));
    }
  }

  /** Pages of one item each deliver as many items as there are pages. */
  lemma {:induction false} OneItemPerPage<T>(pages: seq<Page<T>>)
    requires forall k :: 0 <= k < |pages| ==> |pages[k].items| == 1
    ensures |Concat(pages)| == |pages|
  {
    if pages != [] {
      OneItemPerPage(pages[1..]);
    }
  }

  lemma ConcatPrefix<T>(pages: seq<Page<T>>, m: nat)
    requires m < |pages|
    ensures Concat(pages[..m + 1]) == pages[0].items + Concat(pages[1..][..m])
  {
    assert pages[..m + 1][1..] == pages[1..][..m];
  }

  /** The trace of one page that leads on: its items, then the request for its next page. */
  function PageTrace<T>(p: Page<T>): seq<Event<T>>
    requires HasNext(p)
  {
    Emissions(p.items) + [Fetched(p.links[NextPage])]
  }

  lemma PageTraceFacts<T>(p: Page<T>)
    requires HasNext(p)
    ensures var h := PageTrace(p);
      && |h| == |p.items| + 1
      && h[..|p.items|] == Emissions(p.items)
      && h[|p.items|] == Fetched(p.links[NextPage])
      && ItemsOf(h) == p.items
      && Fetches(h) == 1
      && ItemsOf(h[..|p.items|]) == p.items
      && Fetches(h[..|p.items|]) == 0
      && forall i :: 0 <= i < |p.items| ==> h[i].Emitted?
  {
    var h := PageTrace(p);
    EmissionsTrace(p.items);
    TraceAppend(Emissions(p.items), [Fetched(p.links[NextPage])]);
    assert ItemsOf<T>([Fetched(p.links[NextPage])]) == [];
    assert h[..|p.items|] == Emissions(p.items);
    forall i | 0 <= i < |p.items| ensures h[i].Emitted? {
      EmissionsIndex(p.items, i);
    }
  }

  /**
   * Backpressure: the request for a page is made only after every item of
   * the pages before it was delivered. When the m-th request (counting from
   * 0) is made, exactly the items of pages 0 to m have been emitted, and it
   * asks for the next page of page m.
   */
  lemma {:induction false} FetchFollowsItsPage<T>(pages: seq<Page<T>>, j: nat)
    requires Linked(pages)
    requires j < |ChainTrace(pages)| && ChainTrace(pages)[j].Fetched?
    ensures var m := Fetches(ChainTrace(pages)[..j]);
      && m < |pages| - 1
      && ItemsOf(ChainTrace(pages)[..j]) == Concat(pages[..m + 1])
      && ChainTrace(pages)[j] == Fetched(pages[m].links[NextPage])
    decreases |pages|, 1
  {
    if |pages| == 1 {
      EmissionsTrace(pages[0].items);
      EmissionsIndex(pages[0].items, j);
    } else {
      var h := PageTrace(pages[0]);
      var t := ChainTrace(pages);
      PageTraceFacts(pages[0]);
      assert t == h + ChainTrace(pages[1..]);
      if j < |h| - 1 {
        assert false;
      } else if j == |h| - 1 {
        assert t[..j] == h[..j];
        assert pages[..1] == [pages[0]];
        assert Concat(pages[..1]) == pages[0].items + Concat(pages[..1][1..]);
      } else {
        FetchInLaterPage(pages, j);
      }
    }
  }

  /** The induction step of `FetchFollowsItsPage`: a request made while streaming a later page. */
  lemma {:induction false} FetchInLaterPage<T>(pages: seq<Page<T>>, j: nat)
    requires Linked(pages) && |pages| > 1
    requires |PageTrace(pages[0])| <= j < |ChainTrace(pages)| && ChainTrace(pages)[j].Fetched?
    ensures var m := Fetches(ChainTrace(pages)[..j]);
      && m < |pages| - 1
      && ItemsOf(ChainTrace(pages)[..j]) == Concat(pages[..m + 1])
      && ChainTrace(pages)[j] == Fetched(pages[m].links[NextPage])
    decreases |pages|, 0
  {
    var h := PageTrace(pages[0]);
    var rest := ChainTrace(pages[1..]);
    var t := ChainTrace(pages);
    assert t == h + rest;
    var j' := j - |h|;
    assert t[j] == rest[j'];
    FetchFollowsItsPage(pages[1..], j');
    var m' := Fetches(rest[..j']);
    assert t[..j] == h + rest[..j'];
    PageTraceFacts(pages[0]);
    TraceAppend(h, rest[..j']);
    ConcatPrefix(pages, m' + 1);
  }

  lemma {:induction false} EmissionsIndex<T>(xs: seq<T>, i: nat)
    requires i < |xs|
    ensures |Emissions(xs)| == |xs| && Emissions(xs)[i] == Emitted(xs[i])
  {
    EmissionsTrace(xs);
    if i > 0 {
      EmissionsIndex(xs[1..], i - 1);
    }
  }
}
