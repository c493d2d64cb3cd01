/**
  kv/bucket.go, FindBuckets: a page of an organization's buckets, to which the
  two system buckets are added whenever the page shows no system bucket. What
  that does to a client that follows next links.
 */
module BucketCrawl {
  import opened GoInt
  import opened Wrappers
  import opened BucketTypes
  import opened Crawling
  import opened Paging
  import opened OffsetCrawl

  const TASKS_BUCKET :=
    Bucket(10, 0, SYSTEM_TYPE, "_tasks", "System bucket for task logs", "", 259_200_000_000_000)
  const MONITORING_BUCKET :=
    Bucket(11, 0, SYSTEM_TYPE, "_monitoring", "System bucket for monitoring logs", "", 604_800_000_000_000)

  predicate HasSystem(bs: seq<Bucket>) {
    bs != [] && (bs[|bs| - 1].System() || HasSystem(bs[..|bs| - 1]))
  }

  lemma {:induction false} HasSystemPrefix(bs: seq<Bucket>, i: nat)
    requires i <= |bs| && HasSystem(bs[..i])
    ensures HasSystem(bs)
    decreases |bs| - i
  {
    if i < |bs| {
      assert bs[..i + 1][..i] == bs[..i];
      HasSystemPrefix(bs, i + 1);
    } else {
      assert bs[..i] == bs;
    }
  }

  lemma {:induction false} HasSystemIff(bs: seq<Bucket>)
    ensures HasSystem(bs) <==> exists i :: 0 <= i < |bs| && bs[i].kind == 1
  {
    if bs != [] {
      var init := bs[..|bs| - 1];
      HasSystemIff(init);
      assert forall i :: 0 <= i < |init| ==> init[i] == bs[i];
    }
  }

  lemma HasSystemOne(b: Bucket)
    ensures HasSystem([b]) <==> b.System()
  {
    assert [b][..0] == [];
  }

  function Completed(bs: seq<Bucket>): seq<Bucket> {
    if HasSystem(bs) then bs else bs + SystemBuckets()
  }

  /** The loop that looks for a system bucket on the page. */
  method NeedsSystemBuckets(bs: seq<Bucket>) returns (needs: bool)
    ensures needs <==> !HasSystem(bs)
    ensures needs <==> forall i :: 0 <= i < |bs| ==> bs[i].kind != 1
  {
    for i := 0 to |bs|
      invariant !HasSystem(bs[..i])
    {
      assert bs[..i + 1][..i] == bs[..i];
      if bs[i].System() {
        HasSystemPrefix(bs, i + 1);
        HasSystemIff(bs);
        return false;
      }
    }
    assert bs[..|bs|] == bs;
    HasSystemIff(bs);
    return true;
  }

  /** kv/bucket.go, FindBuckets, for a filter that is not one bucket's ID or full name. */
  method FindBuckets(items: seq<Bucket>, keep: Bucket -> bool, named: bool, o: FindOptions) returns (bs: seq<Bucket>)
    ensures bs == var page := PageOf(Kept(items, keep), o.offset, o.limit); if named then page else Completed(page)
  {
    bs := FindPage(items, keep, o);
    if named {
      return;
    }
    var needs := NeedsSystemBuckets(bs);
    if needs {
      bs := bs + [TASKS_BUCKET];
      bs := bs + [MONITORING_BUCKET];
    }
  }

  function SystemBuckets(): seq<Bucket> {
    [TASKS_BUCKET, MONITORING_BUCKET]
  }

  /** The two built-in buckets, kept for three and for seven days. */
  lemma SystemBucketsAre()
    ensures var bs := SystemBuckets();
            && |bs| == 2 && bs[0].System() && bs[1].System()
            && bs[0].id == 10 && bs[0].name == "_tasks" && bs[0].period == 3 * 24 * 3_600_000_000_000
            && bs[1].id == 11 && bs[1].name == "_monitoring" && bs[1].period == 7 * 24 * 3_600_000_000_000
  {
  }

  ghost function Answer(kept: seq<Bucket>, o: FindOptions): Option<seq<Bucket>> {
    Some(Completed(PageOf(kept, o.offset, o.limit)))
  }

  /** A crawl for a filter without a name. */
  ghost predicate Crawl(kept: seq<Bucket>, follow: Follow, o: FindOptions, pages: seq<seq<Bucket>>) {
    Crawls((x: FindOptions) => Answer(kept, x), (x: FindOptions, page: seq<Bucket>) => follow(x, |page|), o, pages)
  }

  // ------------------------------------------------ When there is no last page

  /** Pages of two from the offset on come to one that is the last bucket alone, a system bucket. */
  predicate Lone(kept: seq<Bucket>, offset: int) {
    kept != [] && kept[|kept| - 1].System() && (|kept| == 1 || (|kept| - 1 - offset) % 2 == 0)
  }

  /** Pages of one, or of two where none is a system bucket alone. */
  ghost predicate Endless(kept: seq<Bucket>, o: FindOptions) {
    o.limit == 1 || (o.limit == 2 && !Lone(kept, o.offset))
  }

  lemma SinglePage(kept: seq<Bucket>, offset: int)
    requires |Rest(kept, offset)| == 1
    ensures Rest(kept, offset) == [kept[|kept| - 1]] && (|kept| == 1 || offset == |kept| - 1)
  {
  }

  lemma EndlessFull(kept: seq<Bucket>, o: FindOptions)
    requires Endless(kept, o)
    ensures |Completed(PageOf(kept, o.offset, o.limit))| >= o.limit
  {
    var rest := Rest(kept, o.offset);
    if |rest| == 0 {
      assert PageOf(kept, o.offset, o.limit) == [];
    } else if |rest| == 1 && o.limit == 2 {
      SinglePage(kept, o.offset);
      assert PageOf(kept, o.offset, o.limit) == [kept[|kept| - 1]];
      HasSystemOne(kept[|kept| - 1]);
    }
  }

  /** A step of two keeps the parity of the offset, also where it wraps. */
  lemma NextParity(o: FindOptions, x: int)
    requires Usual(o) && o.limit == 2
    ensures (x - NextOffset(o)) % 2 == (x - o.offset) % 2
  {
  }

  /** With such pages there is always a next link: no crawl ends. */
  lemma {:induction false} NeverEnds(kept: seq<Bucket>, follow: Follow, o: FindOptions, pages: seq<seq<Bucket>>)
    requires ByLinks(follow) && Usual(o) && Endless(kept, o)
    ensures !Crawl(kept, follow, o, pages)
    decreases |pages|
  {
    if pages != [] && pages[0] == Completed(PageOf(kept, o.offset, o.limit)) {
      EndlessFull(kept, o);
      assert follow(o, |pages[0]|) == Some(o.(offset := NextOffset(o)));
      if o.limit == 2 {
        NextParity(o, |kept| - 1);
      }
      NeverEnds(kept, follow, o.(offset := NextOffset(o)), pages[1..]);
    }
  }

  // ------------------------------------------------------- When there is one

  /** A crawl from offset `m` comes to a page that is not full. */
  predicate Ending(kept: seq<Bucket>, m: nat, limit: int) {
    limit >= 3 || (limit == 2 && Lone(kept, m) && m < |kept|)
  }

  ghost predicate Full(kept: seq<Bucket>, m: nat, limit: nat) {
    |Completed(PageOf(kept, m, limit))| >= limit
  }

  lemma LastAlone(kept: seq<Bucket>, m: nat)
    requires Lone(kept, m) && |kept| - m == 1
    ensures |Completed(PageOf(kept, m, 2))| == 1
  {
    assert PageOf(kept, m, 2) == [kept[|kept| - 1]];
    HasSystemOne(kept[|kept| - 1]);
  }

  lemma FullGoesOn(kept: seq<Bucket>, m: nat, limit: nat)
    requires Ending(kept, m, limit) && Full(kept, m, limit)
    ensures m < |kept| && m + limit <= |kept| + 2 && Ending(kept, m + limit, limit)
  {
    if limit == 2 && |kept| - m == 1 {
      LastAlone(kept, m);
    }
  }

  /** The pages from offset `m` on. */
  ghost function CompletedCut(kept: seq<Bucket>, m: nat, limit: nat): (pages: seq<seq<Bucket>>)
    requires Ending(kept, m, limit)
    ensures pages != []
    decreases |kept| - m
  {
    var page := Completed(PageOf(kept, m, limit));
    if !Full(kept, m, limit) then [page]
    else
      FullGoesOn(kept, m, limit);
      [page] + CompletedCut(kept, m + limit, limit)
  }

  lemma CutTail(kept: seq<Bucket>, m: nat, limit: nat)
    requires Ending(kept, m, limit) && Full(kept, m, limit) && Ending(kept, m + limit, limit)
    ensures CompletedCut(kept, m, limit)[1..] == CompletedCut(kept, m + limit, limit)
  {
    var page := Completed(PageOf(kept, m, limit));
    assert ([page] + CompletedCut(kept, m + limit, limit))[1..] == CompletedCut(kept, m + limit, limit);
  }

  lemma CutHead(kept: seq<Bucket>, m: nat, limit: nat)
    requires Ending(kept, m, limit)
    ensures CompletedCut(kept, m, limit)[0] == Completed(PageOf(kept, m, limit))
    ensures !Full(kept, m, limit) ==> |CompletedCut(kept, m, limit)| == 1
  {
  }

  lemma CutAnswered(kept: seq<Bucket>, o: FindOptions, i: nat)
    requires o.limit > 0 && Ending(kept, i, o.limit)
    ensures var cut := CompletedCut(kept, i, o.limit);
            && Answer(kept, o.(offset := i)) == Some(cut[0]) && (|cut[0]| < o.limit <==> !Full(kept, i, o.limit))
            && (!Full(kept, i, o.limit) ==> |cut| == 1)
  {
    CutHead(kept, i, o.limit);
  }

  lemma CutAtLast(kept: seq<Bucket>, o: FindOptions, serve: FindOptions -> Option<seq<Bucket>>,
                  cut: nat -> seq<seq<Bucket>>, dom: nat -> bool, i: nat)
    requires o.limit > 0 && i <= MAX_INT64 && Ending(kept, i, o.limit) && !Full(kept, i, o.limit)
    requires serve(o.(offset := i)) == Answer(kept, o.(offset := i)) && cut(i) == CompletedCut(kept, i, o.limit)
    ensures CutAt(serve, o, cut, dom, i)
  {
    CutAnswered(kept, o, i);
  }

  lemma CutAtFull(o: FindOptions, serve: FindOptions -> Option<seq<Bucket>>, cut: nat -> seq<seq<Bucket>>,
                  dom: nat -> bool, i: nat, page: seq<Bucket>)
    requires o.limit > 0 && i + o.limit <= MAX_INT64 && dom(i + o.limit)
    requires serve(o.(offset := i)) == Some(page) && |page| >= o.limit
    requires cut(i) != [] && cut(i)[0] == page && cut(i)[1..] == cut(i + o.limit)
    ensures CutAt(serve, o, cut, dom, i)
  {
  }

  lemma CutAtMore(kept: seq<Bucket>, o: FindOptions, serve: FindOptions -> Option<seq<Bucket>>,
                  cut: nat -> seq<seq<Bucket>>, dom: nat -> bool, i: nat)
    requires o.limit > 0 && i + o.limit <= MAX_INT64 && dom(i + o.limit)
    requires Ending(kept, i, o.limit) && Full(kept, i, o.limit) && Ending(kept, i + o.limit, o.limit)
    requires serve(o.(offset := i)) == Answer(kept, o.(offset := i))
    requires cut(i) == CompletedCut(kept, i, o.limit) && cut(i + o.limit) == CompletedCut(kept, i + o.limit, o.limit)
    ensures CutAt(serve, o, cut, dom, i)
  {
    CutAnswered(kept, o, i);
    CutTail(kept, i, o.limit);
    CutAtFull(o, serve, cut, dom, i, Completed(PageOf(kept, i, o.limit)));
  }

  lemma CutAtAny(kept: seq<Bucket>, o: FindOptions, serve: FindOptions -> Option<seq<Bucket>>,
                 cut: nat -> seq<seq<Bucket>>, dom: nat -> bool, i: nat)
    requires o.limit > 0 && i <= |kept| + 2 <= MAX_INT64 && Ending(kept, i, o.limit)
    requires serve(o.(offset := i)) == Answer(kept, o.(offset := i)) && cut(i) == CompletedCut(kept, i, o.limit)
    requires Ending(kept, i + o.limit, o.limit) && i + o.limit <= |kept| + 2 ==>
               dom(i + o.limit) && cut(i + o.limit) == CompletedCut(kept, i + o.limit, o.limit)
    ensures CutAt(serve, o, cut, dom, i)
  {
    if Full(kept, i, o.limit) {
      FullGoesOn(kept, i, o.limit);
      CutAtMore(kept, o, serve, cut, dom, i);
    } else {
      CutAtLast(kept, o, serve, cut, dom, i);
    }
  }

  lemma CrawlCompleted(kept: seq<Bucket>, follow: Follow, o: FindOptions, serve: FindOptions -> Option<seq<Bucket>>,
                       cut: nat -> seq<seq<Bucket>>, dom: nat -> bool, pages: seq<seq<Bucket>>)
    requires ByLinks(follow) && Usual(o) && 0 <= o.offset <= |kept| + 2 <= MAX_INT64 && Ending(kept, o.offset, o.limit)
    requires forall x :: serve(x) == Answer(kept, x)
    requires forall i: nat :: dom(i) <==> i <= |kept| + 2 && Ending(kept, i, o.limit)
    requires forall i: nat :: Ending(kept, i, o.limit) ==> cut(i) == CompletedCut(kept, i, o.limit)
    ensures Crawls(serve, (x: FindOptions, page: seq<Bucket>) => follow(x, |page|), o, pages) <==> pages == cut(o.offset)
  {
    forall i: nat
      ensures CutAt(serve, o, cut, dom, i)
    {
      if dom(i) {
        CutAtAny(kept, o, serve, cut, dom, i);
      }
    }
    CrawlCutAt(serve, follow, o, cut, dom, pages);
  }

  /** Then there is exactly one crawl. */
  lemma CrawlCuts(kept: seq<Bucket>, follow: Follow, o: FindOptions, pages: seq<seq<Bucket>>)
    requires ByLinks(follow) && Usual(o) && 0 <= o.offset <= |kept| + 2 <= MAX_INT64 && Ending(kept, o.offset, o.limit)
    ensures Crawl(kept, follow, o, pages) <==> pages == CompletedCut(kept, o.offset, o.limit)
  {
    var cut: nat -> seq<seq<Bucket>> := (i: nat) => if Ending(kept, i, o.limit) then CompletedCut(kept, i, o.limit) else [];
    var dom: nat -> bool := (i: nat) => i <= |kept| + 2 && Ending(kept, i, o.limit);
    CrawlCompleted(kept, follow, o, (x: FindOptions) => Answer(kept, x), cut, dom, pages);
  }

  // --------------------------------------------------- What the client is shown

  /** The organization's own buckets. */
  function Own(bs: seq<Bucket>): seq<Bucket> {
    if bs == [] then [] else (if bs[0].System() then [] else [bs[0]]) + Own(bs[1..])
  }

  lemma {:induction false} OwnJoin(a: seq<Bucket>, b: seq<Bucket>)
    ensures Own(a + b) == Own(a) + Own(b)
  {
    if a == [] {
      assert a + b == b;
    } else {
      assert (a + b)[1..] == a[1..] + b && (a + b)[0] == a[0];
      OwnJoin(a[1..], b);
      var head := if a[0].System() then [] else [a[0]];
      assert head + (Own(a[1..]) + Own(b)) == head + Own(a[1..]) + Own(b);
    }
  }

  lemma OwnOne(b: Bucket)
    ensures Own([b]) == if b.System() then [] else [b]
  {
    assert [b][1..] == [];
  }

  lemma OwnCompleted(bs: seq<Bucket>)
    ensures Own(Completed(bs)) == Own(bs)
  {
    OwnOne(TASKS_BUCKET);
    OwnOne(MONITORING_BUCKET);
    OwnJoin([TASKS_BUCKET], [MONITORING_BUCKET]);
    assert [TASKS_BUCKET] + [MONITORING_BUCKET] == SystemBuckets();
    OwnJoin(bs, SystemBuckets());
  }

  lemma RestSplit(kept: seq<Bucket>, m: nat, limit: nat)
    requires limit > 0
    ensures PageOf(kept, m, limit) + Rest(kept, m + limit) == Rest(kept, m)
  {
  }

  lemma JoinFirst(page: seq<Bucket>, rest: seq<seq<Bucket>>)
    ensures Join([page] + rest) == page + Join(rest)
  {
    assert ([page] + rest)[1..] == rest;
  }

  lemma OwnStep(kept: seq<Bucket>, m: nat, limit: nat, rest: seq<seq<Bucket>>)
    requires limit > 0 && Own(Join(rest)) == Own(Rest(kept, m + limit))
    ensures Own(Join([Completed(PageOf(kept, m, limit))] + rest)) == Own(Rest(kept, m))
  {
    var page := PageOf(kept, m, limit);
    JoinFirst(Completed(page), rest);
    OwnJoin(Completed(page), Join(rest));
    OwnCompleted(page);
    OwnJoin(page, Rest(kept, m + limit));
    RestSplit(kept, m, limit);
  }

  lemma NotFullIsLast(kept: seq<Bucket>, m: nat, limit: nat)
    requires !Full(kept, m, limit)
    ensures Rest(kept, m + limit) == []
  {
  }

  /** The pages show each of the organization's own buckets from position `m` on once, in order. */
  ghost predicate ShowsOwn(pages: seq<seq<Bucket>>, kept: seq<Bucket>, m: int) {
    Own(Join(pages)) == Own(Rest(kept, m))
  }

  lemma OwnEnd(kept: seq<Bucket>, m: nat, limit: nat)
    requires limit > 0 && Ending(kept, m, limit) && !Full(kept, m, limit)
    ensures ShowsOwn(CompletedCut(kept, m, limit), kept, m)
  {
    var page := Completed(PageOf(kept, m, limit));
    NotFullIsLast(kept, m, limit);
    OwnStep(kept, m, limit, []);
    assert [page] + [] == [page];
  }

  lemma OwnMore(kept: seq<Bucket>, m: nat, limit: nat, rest: seq<seq<Bucket>>)
    requires limit > 0 && Ending(kept, m, limit) && Ending(kept, m + limit, limit)
    requires rest == CompletedCut(kept, m + limit, limit) && ShowsOwn(rest, kept, m + limit)
    ensures ShowsOwn(CompletedCut(kept, m, limit), kept, m)
  {
    if Full(kept, m, limit) {
      OwnStep(kept, m, limit, rest);
    } else {
      OwnEnd(kept, m, limit);
    }
  }

  lemma OwnLast(kept: seq<Bucket>, m: nat, limit: nat)
    requires limit > 0 && Ending(kept, m, limit) && (m < |kept| ==> !Ending(kept, m + limit, limit))
    ensures ShowsOwn(CompletedCut(kept, m, limit), kept, m)
  {
    if Full(kept, m, limit) {
      FullGoesOn(kept, m, limit);
      assert false;
    }
    OwnEnd(kept, m, limit);
  }

  /** The pages show every bucket of the organization's own once, between repetitions of the system buckets. */
  lemma {:induction false} OwnOnce(kept: seq<Bucket>, m: nat, limit: nat)
    requires limit > 0 && Ending(kept, m, limit)
    ensures ShowsOwn(CompletedCut(kept, m, limit), kept, m)
    decreases |kept| - m
  {
    if m < |kept| && Ending(kept, m + limit, limit) {
      OwnOnce(kept, m + limit, limit);
      OwnMore(kept, m, limit, CompletedCut(kept, m + limit, limit));
    } else {
      OwnLast(kept, m, limit);
    }
  }

  /** From an offset in the store on, a crawl that ends has shown each of the organization's own buckets once. */
  lemma CrawlShowsOwn(kept: seq<Bucket>, follow: Follow, o: FindOptions, pages: seq<seq<Bucket>>)
    requires ByLinks(follow) && Usual(o) && 0 <= o.offset <= |kept| + 2 <= MAX_INT64 && Ending(kept, o.offset, o.limit)
    requires Crawl(kept, follow, o, pages)
    ensures ShowsOwn(pages, kept, o.offset)
  {
    CrawlCuts(kept, follow, o, pages);
    OwnOnce(kept, o.offset, o.limit);
  }

  // ------------------------------------------------------------ Every offset

  /** An offset at which a page of two is the last bucket alone. */
  function Target(kept: seq<Bucket>, offset: int): int {
    if (|kept| - 1 - offset) % 2 == 0 then |kept| - 1 else -1
  }

  /** How far a crawl by two is from there; past the largest offset it goes on from the least. */
  function Gap(kept: seq<Bucket>, offset: int): nat {
    (Target(kept, offset) - offset) % 0x1_0000_0000_0000_0000
  }

  lemma GapClosed(kept: seq<Bucket>, offset: int)
    requires Lone(kept, offset) && IsInt64(offset) && |kept| <= MAX_INT64 && Gap(kept, offset) == 0
    ensures |Completed(PageOf(kept, offset, 2))| == 1
  {
    assert offset == Target(kept, offset);
    assert PageOf(kept, offset, 2) == [kept[|kept| - 1]];
    HasSystemOne(kept[|kept| - 1]);
  }

  lemma ModTwoLess(x: int)
    requires x % 2 == 0 && x % 0x1_0000_0000_0000_0000 != 0
    ensures (x - 2) % 0x1_0000_0000_0000_0000 == x % 0x1_0000_0000_0000_0000 - 2
  {
    var q, m, h := x / 0x1_0000_0000_0000_0000, x % 0x1_0000_0000_0000_0000, x / 2;
    assert m == 2 * (h - q * 0x8000_0000_0000_0000);
    ModIs(x - 2, q, m - 2);
  }

  lemma ModIs(x: int, q: int, r: int)
    requires x == q * 0x1_0000_0000_0000_0000 + r && 0 <= r < 0x1_0000_0000_0000_0000
    ensures x % 0x1_0000_0000_0000_0000 == r
  {
  }

  lemma WrapSame(t: int, x: int)
    ensures (t - Wrap(x)) % 0x1_0000_0000_0000_0000 == (t - x) % 0x1_0000_0000_0000_0000
  {
  }

  lemma GapStep(t: int, offset: int)
    requires (t - offset) % 2 == 0 && (t - offset) % 0x1_0000_0000_0000_0000 != 0
    ensures (t - Wrap(offset + 2)) % 0x1_0000_0000_0000_0000 == (t - offset) % 0x1_0000_0000_0000_0000 - 2
  {
    ModTwoLess(t - offset);
    WrapSame(t, offset + 2);
  }

  lemma TargetEven(kept: seq<Bucket>, offset: int)
    ensures (Target(kept, offset) - offset) % 2 == 0 || |kept| % 2 == 0
  {
  }

  lemma GapDrops(kept: seq<Bucket>, o: FindOptions)
    requires Usual(o) && o.limit == 2 && Lone(kept, o.offset) && Gap(kept, o.offset) != 0
    ensures Lone(kept, NextOffset(o)) && Gap(kept, NextOffset(o)) < Gap(kept, o.offset)
  {
    NextParity(o, |kept| - 1);
    TargetEven(kept, o.offset);
    GapStep(Target(kept, o.offset), o.offset);
  }

  /** What is left of a crawl that will end. */
  function Left(kept: seq<Bucket>, o: FindOptions): nat {
    if o.limit == 2 then Gap(kept, o.offset) else if o.offset < |kept| then |kept| - o.offset else 0
  }

  ghost predicate Ends(kept: seq<Bucket>, o: FindOptions) {
    o.limit >= 3 || (o.limit == 2 && Lone(kept, o.offset))
  }

  lemma LeftDrops(kept: seq<Bucket>, o: FindOptions)
    requires Usual(o) && Ends(kept, o) && |kept| + 2 <= MAX_INT64
    requires |Completed(PageOf(kept, o.offset, o.limit))| >= o.limit
    ensures Ends(kept, o.(offset := NextOffset(o))) && Left(kept, o.(offset := NextOffset(o))) < Left(kept, o)
  {
    if o.limit == 2 {
      if Gap(kept, o.offset) == 0 {
        GapClosed(kept, o.offset);
      } else {
        GapDrops(kept, o);
      }
    } else {
      assert |PageOf(kept, o.offset, o.limit)| >= 1;
      assert o.offset < |kept|;
    }
  }

  lemma CrawlOne(kept: seq<Bucket>, follow: Follow, o: FindOptions, page: seq<Bucket>, rest: seq<seq<Bucket>>)
    requires ByLinks(follow) && Usual(o) && page == Completed(PageOf(kept, o.offset, o.limit))
    ensures |page| < o.limit ==> Crawl(kept, follow, o, [page])
    ensures |page| >= o.limit && Crawl(kept, follow, o.(offset := NextOffset(o)), rest) ==> Crawl(kept, follow, o, [page] + rest)
  {
    assert ([page] + rest)[1..] == rest;
    assert follow(o, |page|) == if |page| < o.limit then None else Some(o.(offset := NextOffset(o)));
  }

  lemma {:induction false} CrawlEnds(kept: seq<Bucket>, follow: Follow, o: FindOptions) returns (pages: seq<seq<Bucket>>)
    requires ByLinks(follow) && Usual(o) && Ends(kept, o) && |kept| + 2 <= MAX_INT64
    ensures Crawl(kept, follow, o, pages)
    decreases Left(kept, o)
  {
    var page := Completed(PageOf(kept, o.offset, o.limit));
    if |page| < o.limit {
      pages := [page];
      CrawlOne(kept, follow, o, page, []);
    } else {
      LeftDrops(kept, o);
      var rest := CrawlEnds(kept, follow, o.(offset := NextOffset(o)));
      pages := [page] + rest;
      CrawlOne(kept, follow, o, page, rest);
    }
  }

  /**
    Exactly, for every request: a crawl of an organization's buckets ends if the
    limit leaves room for the two system buckets, or it is two and some page is
    a system bucket alone.
   */
  lemma CrawlEndsIff(kept: seq<Bucket>, follow: Follow, o: FindOptions)
    requires ByLinks(follow) && Usual(o) && |kept| + 2 <= MAX_INT64
    ensures (exists pages :: Crawl(kept, follow, o, pages)) <==> o.limit >= 3 || (o.limit == 2 && Lone(kept, o.offset))
  {
    if Ends(kept, o) {
      var pages := CrawlEnds(kept, follow, o);
    } else {
      forall pages
        ensures !Crawl(kept, follow, o, pages)
      {
        NeverEnds(kept, follow, o, pages);
      }
    }
  }
}
