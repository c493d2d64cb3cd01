/**
  Pages by offset and limit: the loop of kv/bucket.go, findBuckets, that cuts a
  page out of what a store lists, and a client that follows the next links of
  http/paging.go through it.
 */
module OffsetCrawl {
  import opened GoInt
  import opened Decimal
  import opened Wrappers
  import opened Queries
  import opened Crawling
  import opened Paging

  function Kept<T>(items: seq<T>, keep: T -> bool): seq<T> {
    if items == [] then [] else (if keep(items[0]) then [items[0]] else []) + Kept(items[1..], keep)
  }

  /** An item is kept as often as it occurs, or not at all. */
  lemma {:induction false} KeptIs<T>(items: seq<T>, keep: T -> bool, x: T)
    ensures multiset(Kept(items, keep))[x] == if keep(x) then multiset(items)[x] else 0
  {
    if items != [] {
      KeptIs(items[1..], keep, x);
      assert items == [items[0]] + items[1..];
    }
  }

  lemma {:induction false} KeptSnoc<T>(items: seq<T>, x: T, keep: T -> bool)
    ensures Kept(items + [x], keep) == Kept(items, keep) + if keep(x) then [x] else []
  {
    if items == [] {
      assert [x][1..] == [];
    } else {
      assert (items + [x])[1..] == items[1..] + [x] && (items + [x])[0] == items[0];
      KeptSnoc(items[1..], x, keep);
      var head, last := if keep(items[0]) then [items[0]] else [], if keep(x) then [x] else [];
      assert head + (Kept(items[1..], keep) + last) == head + Kept(items[1..], keep) + last;
    }
  }

  lemma {:induction false} KeptJoin<T>(a: seq<T>, b: seq<T>, keep: T -> bool)
    ensures Kept(a + b, keep) == Kept(a, keep) + Kept(b, keep)
  {
    if a == [] {
      assert a + b == b;
    } else {
      assert (a + b)[1..] == a[1..] + b && (a + b)[0] == a[0];
      KeptJoin(a[1..], b, keep);
      var head := if keep(a[0]) then [a[0]] else [];
      assert head + (Kept(a[1..], keep) + Kept(b, keep)) == head + Kept(a[1..], keep) + Kept(b, keep);
    }
  }

  /** What is left of the kept items at an offset; one below zero skips nothing. */
  function Rest<T>(kept: seq<T>, offset: int): seq<T> {
    if offset <= 0 then kept else if offset >= |kept| then [] else kept[offset..]
  }

  /** A page; a limit below one is none. */
  function PageOf<T>(kept: seq<T>, offset: int, limit: int): seq<T> {
    if limit > 0 then FirstOf(Rest(kept, offset), limit) else Rest(kept, offset)
  }

  /** A page by positions: from the offset, or the first item, as many as there are up to a positive limit. */
  lemma PageIs<T>(kept: seq<T>, offset: int, limit: int)
    ensures var page, from := PageOf(kept, offset, limit), if offset < 0 then 0 else offset;
            var left := if from < |kept| then |kept| - from else 0;
            && |page| == (if 0 < limit < left then limit else left)
            && forall i :: 0 <= i < |page| ==> page[i] == kept[from + i]
  {
  }

  lemma RestSnoc<T>(kept: seq<T>, x: T, offset: int)
    ensures Rest(kept + [x], offset) == Rest(kept, offset) + if |kept| >= offset then [x] else []
  {
  }

  lemma RestJoin<T>(a: seq<T>, b: seq<T>, offset: int)
    requires Rest(a, offset) != []
    ensures Rest(a + b, offset) == Rest(a, offset) + b
  {
  }

  lemma KeptNext<T>(items: seq<T>, i: nat, keep: T -> bool, offset: int)
    requires i < |items|
    ensures var was, now := Kept(items[..i], keep), Kept(items[..i + 1], keep);
            && now == was + (if keep(items[i]) then [items[i]] else [])
            && Rest(now, offset) == Rest(was, offset) + if keep(items[i]) && |was| >= offset then [items[i]] else []
  {
    KeptSnoc(items[..i], items[i], keep);
    assert items[..i] + [items[i]] == items[..i + 1];
    RestSnoc(Kept(items[..i], keep), items[i], offset);
  }

  lemma PageFull<T>(items: seq<T>, i: nat, keep: T -> bool, offset: int, limit: int)
    requires i <= |items| && |Rest(Kept(items[..i], keep), offset)| == limit > 0
    ensures PageOf(Kept(items, keep), offset, limit) == Rest(Kept(items[..i], keep), offset)
  {
    assert items == items[..i] + items[i..];
    KeptJoin(items[..i], items[i..], keep);
    RestJoin(Kept(items[..i], keep), Kept(items[i..], keep), offset);
  }

  /** kv/bucket.go:401-430, the counter and the slice that the callback updates for each item listed. */
  method FindPage<T>(items: seq<T>, keep: T -> bool, o: FindOptions) returns (bs: seq<T>)
    ensures bs == PageOf(Kept(items, keep), o.offset, o.limit)
  {
    bs := [];
    var count, i := 0, 0;
    while i < |items|
      invariant i <= |items|
      invariant count == |Kept(items[..i], keep)| && bs == Rest(Kept(items[..i], keep), o.offset)
      invariant o.limit > 0 ==> |bs| < o.limit
    {
      KeptNext(items, i, keep, o.offset);
      if keep(items[i]) {
        if count >= o.offset {
          bs := bs + [items[i]];
        }
        count := count + 1;
      }
      i := i + 1;
      if o.limit > 0 && |bs| >= o.limit {
        PageFull(items, i, keep, o.offset, o.limit);
        return;
      }
    }
    assert items[..i] == items;
  }

  // ---------------------------------------------------------------- The crawl

  /** The query of the next link, as newPagingLinks writes it. */
  function NextQuery(filter: Values, o: FindOptions): Values {
    map k | k in filter.Keys + {Offset, Limit, SortBy, Descending} ::
      if k == Offset then [FormatInt(NextOffset(o))] else NonEmpty(All(filter, k)) + NonEmpty(Paging.Field(o, k))
  }

  lemma NextQueryLinks(filter: Values, o: FindOptions)
    ensures LinksTo(NextQuery(filter, o), filter, o, NextOffset(o))
  {
  }

  /** The request that the next link of a page of `num` items decodes to. */
  function Linked(filter: Values, o: FindOptions, num: int): Option<FindOptions> {
    if num < o.limit || !Accepts(NextQuery(filter, o)) then None else Some(OptionsOf(NextQuery(filter, o)))
  }

  ghost predicate Usual(o: FindOptions) {
    1 <= o.limit <= 100 && IsInt64(o.offset)
  }

  lemma LinkedIs(filter: Values, o: FindOptions, num: int)
    requires Clear(filter) && Usual(o)
    ensures Linked(filter, o, num) == if num < o.limit then None else Some(o.(offset := NextOffset(o)))
  {
    NextQueryLinks(filter, o);
    LinkDecodesIff(NextQuery(filter, o), filter, o, NextOffset(o));
  }

  /** How a client gets from a page of so many items to the request for the next. */
  type Follow = (FindOptions, nat) -> Option<FindOptions>

  /** By next links: none after a page that is not full, otherwise the same request at the next offset. */
  ghost predicate ByLinks(follow: Follow) {
    forall o: FindOptions, num: nat :: Usual(o) ==>
      follow(o, num) == if num < o.limit then None else Some(o.(offset := NextOffset(o)))
  }

  /** Decoding the links that newPagingLinks writes does just that. */
  lemma LinkedByLinks(filter: Values)
    requires Clear(filter)
    ensures ByLinks((o: FindOptions, num: nat) => Linked(filter, o, num))
  {
    forall o: FindOptions, num: nat | Usual(o)
      ensures Linked(filter, o, num) == if num < o.limit then None else Some(o.(offset := NextOffset(o)))
    {
      LinkedIs(filter, o, num);
    }
  }

  /** On `dom`, `cut(i)` are the pages from offset `i` on, up to the first that is not full. */
  ghost predicate CutAt<T>(serve: FindOptions -> Option<seq<T>>, o: FindOptions, cut: nat -> seq<seq<T>>, dom: nat -> bool, i: nat)
    requires o.limit > 0
  {
    dom(i) ==>
      && i <= MAX_INT64 && cut(i) != [] && serve(o.(offset := i)) == Some(cut(i)[0])
      && if |cut(i)[0]| < o.limit then |cut(i)| == 1
         else i + o.limit <= MAX_INT64 && dom(i + o.limit) && cut(i)[1..] == cut(i + o.limit)
  }

  /** A client that follows links sees just these. */
  lemma CrawlCutAt<T>(serve: FindOptions -> Option<seq<T>>, follow: Follow, o: FindOptions, cut: nat -> seq<seq<T>>,
                      dom: nat -> bool, pages: seq<seq<T>>)
    requires ByLinks(follow) && Usual(o) && o.offset >= 0 && dom(o.offset)
    requires forall i: nat :: CutAt(serve, o, cut, dom, i)
    ensures Crawls(serve, (x: FindOptions, page: seq<T>) => follow(x, |page|), o, pages) <==> pages == cut(o.offset)
  {
    var links: (FindOptions, seq<T>) -> Option<FindOptions> := (x: FindOptions, page: seq<T>) => follow(x, |page|);
    var request: nat -> FindOptions := (i: nat) => o.(offset := i);
    forall i: nat
      ensures Unfolds(serve, links, request, cut, o.limit, dom, i)
    {
      assert CutAt(serve, o, cut, dom, i);
      if dom(i) {
        assert Usual(request(i));
        assert links(request(i), cut(i)[0]) == follow(request(i), |cut(i)[0]|);
      }
    }
    CrawlUnfolds(serve, links, request, cut, o.limit, dom, o.offset, pages);
  }

  function Answer<T>(kept: seq<T>, o: FindOptions): Option<seq<T>> {
    Some(PageOf(kept, o.offset, o.limit))
  }

  ghost predicate Crawl<T>(kept: seq<T>, follow: Follow, o: FindOptions, pages: seq<seq<T>>) {
    Crawls((x: FindOptions) => Answer(kept, x), (x: FindOptions, page: seq<T>) => follow(x, |page|), o, pages)
  }

  /** What a crawl sees next. */
  lemma CrawlStep<T>(kept: seq<T>, follow: Follow, o: FindOptions, pages: seq<seq<T>>)
    requires ByLinks(follow) && Usual(o) && pages != []
    ensures Crawl(kept, follow, o, pages) <==>
            && pages[0] == PageOf(kept, o.offset, o.limit)
            && if |pages[0]| < o.limit then |pages| == 1
               else |pages| > 1 && Crawl(kept, follow, o.(offset := NextOffset(o)), pages[1..])
  {
    assert Usual(o) ==> follow(o, |pages[0]|) == if |pages[0]| < o.limit then None else Some(o.(offset := NextOffset(o)));
  }

  lemma PagesCut<T>(kept: seq<T>, o: FindOptions, i: nat)
    requires Usual(o) && i <= |kept|
    ensures var cut := Cut(kept, i, o.limit);
            && Answer(kept, o.(offset := i)) == Some(cut[0])
            && (|cut[0]| < o.limit <==> |kept| < i + o.limit)
            && if |kept| < i + o.limit then |cut| == 1 else cut[1..] == Cut(kept, i + o.limit, o.limit)
  {
    CutStep(kept, i, o.limit, Cut(kept, i, o.limit));
    assert Rest(kept, i) == kept[i..];
  }

  lemma CrawlKept<T>(kept: seq<T>, follow: Follow, o: FindOptions, serve: FindOptions -> Option<seq<T>>,
                     cut: nat -> seq<seq<T>>, dom: nat -> bool, pages: seq<seq<T>>)
    requires ByLinks(follow) && Usual(o) && 0 <= o.offset <= |kept| <= MAX_INT64
    requires forall x :: serve(x) == Answer(kept, x)
    requires forall i: nat :: (dom(i) <==> i <= |kept|) && (i <= |kept| ==> cut(i) == Cut(kept, i, o.limit))
    ensures Crawls(serve, (x: FindOptions, page: seq<T>) => follow(x, |page|), o, pages) <==> pages == cut(o.offset)
  {
    forall i: nat
      ensures CutAt(serve, o, cut, dom, i)
    {
      if i <= |kept| {
        PagesCut(kept, o, i);
      }
    }
    CrawlCutAt(serve, follow, o, cut, dom, pages);
  }

  lemma CrawlCuts<T>(kept: seq<T>, follow: Follow, o: FindOptions, pages: seq<seq<T>>)
    requires ByLinks(follow) && Usual(o) && 0 <= o.offset <= |kept| <= MAX_INT64
    ensures Crawl(kept, follow, o, pages) <==> pages == Cut(kept, o.offset, o.limit)
  {
    var cut: nat -> seq<seq<T>> := (i: nat) => if i <= |kept| then Cut(kept, i, o.limit) else [];
    CrawlKept(kept, follow, o, (x: FindOptions) => Answer(kept, x), cut, (i: nat) => i <= |kept|, pages);
  }

  /** From an offset within the store there is exactly one crawl, and it lists what remains, each item once. */
  lemma CrawlFrom<T>(kept: seq<T>, follow: Follow, o: FindOptions, pages: seq<seq<T>>)
    requires ByLinks(follow) && Usual(o) && 0 <= o.offset <= |kept| <= MAX_INT64
    ensures Crawl(kept, follow, o, pages) <==> pages == Cut(kept, o.offset, o.limit)
    ensures Crawl(kept, follow, o, pages) ==>
              Join(pages) == kept[o.offset..] && |pages| == (|kept| - o.offset) / o.limit + 1
  {
    CrawlCuts(kept, follow, o, pages);
    JoinCut(kept, o.offset, o.limit);
    CutLength(kept, o.offset, o.limit);
  }

  /** Starting below zero, a crawl whose first page is full sees some items twice. */
  lemma {:induction false} CrawlFromBelow<T>(kept: seq<T>, follow: Follow, o: FindOptions, pages: seq<seq<T>>)
    requires ByLinks(follow) && Usual(o) && |kept| <= MAX_INT64 && o.offset < 0
    requires Crawl(kept, follow, o, pages)
    ensures |kept| < o.limit ==> Join(pages) == kept
    ensures |kept| >= o.limit ==> |Join(pages)| > |kept|
    decreases |pages|
  {
    CrawlStep(kept, follow, o, pages);
    var next := o.(offset := NextOffset(o));
    if |kept| < o.limit {
      assert Join(pages[1..]) == [];
    } else if next.offset < 0 {
      CrawlFromBelow(kept, follow, next, pages[1..]);
    } else {
      CrawlFrom(kept, follow, next, pages[1..]);
    }
  }

  /** For instance: from offset -1 with a limit of one, two items are shown as three. */
  lemma BelowZeroRepeats(follow: Follow, o: FindOptions)
    requires ByLinks(follow) && o.limit == 1 && o.offset == -1
    ensures Crawl(["a", "b"], follow, o, [["a"], ["a"], ["b"], []])
  {
    var kept := ["a", "b"];
    CrawlStep(kept, follow, o, [["a"], ["a"], ["b"], []]);
    CrawlStep(kept, follow, o.(offset := 0), [["a"], ["b"], []]);
    CrawlStep(kept, follow, o.(offset := 1), [["b"], []]);
    CrawlStep(kept, follow, o.(offset := 2), [[]]);
    assert [["a"], ["a"], ["b"], []][1..] == [["a"], ["b"], []];
    assert [["a"], ["b"], []][1..] == [["b"], []];
    assert [["b"], []][1..] == [[]];
  }

  /** Exactly when following the links from a request lists every item once. */
  lemma CrawlCompleteIff<T>(kept: seq<T>, follow: Follow, o: FindOptions, pages: seq<seq<T>>)
    requires ByLinks(follow) && Usual(o) && |kept| <= MAX_INT64
    requires Crawl(kept, follow, o, pages)
    ensures Join(pages) == kept <==> o.offset == 0 || kept == [] || (o.offset < 0 && |kept| < o.limit)
  {
    if o.offset < 0 {
      CrawlFromBelow(kept, follow, o, pages);
    } else if o.offset <= |kept| {
      CrawlFrom(kept, follow, o, pages);
    } else {
      CrawlStep(kept, follow, o, pages);
      assert Join(pages[1..]) == [];
    }
  }

  /** Every crawl comes to an end. */
  lemma {:induction false} CrawlEnds<T>(kept: seq<T>, follow: Follow, o: FindOptions) returns (pages: seq<seq<T>>)
    requires ByLinks(follow) && Usual(o) && |kept| <= MAX_INT64
    ensures Crawl(kept, follow, o, pages)
    decreases |kept| - o.offset
  {
    var page := PageOf(kept, o.offset, o.limit);
    if |page| < o.limit {
      pages := [page];
    } else {
      var rest := CrawlEnds(kept, follow, o.(offset := NextOffset(o)));
      pages := [page] + rest;
      assert pages[1..] == rest && rest != [];
    }
    CrawlStep(kept, follow, o, pages);
  }
}
