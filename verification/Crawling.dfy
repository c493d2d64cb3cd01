/** Clients that follow the next links of pages until a page has none. */
module Crawling {
  import opened Wrappers

  function FirstOf<T>(s: seq<T>, n: nat): seq<T> {
    if n <= |s| then s[..n] else s
  }

  /**
    The pages a client sees that starts with request `f`: `serve` answers a
    request, `follow` is the request that the answer links to.
   */
  ghost predicate Crawls<F, T>(serve: F -> Option<seq<T>>, follow: (F, seq<T>) -> Option<F>, f: F, pages: seq<seq<T>>)
    decreases |pages|
  {
    && pages != [] && serve(f) == Some(pages[0])
    && match follow(f, pages[0])
       case None => |pages| == 1
       case Some(next) => |pages| > 1 && Crawls(serve, follow, next, pages[1..])
  }

  // ------------------------------------------------------- Cutting into pages

  /** The items from position `m` on, in full pages and a last one that is not full. */
  function Cut<T>(items: seq<T>, m: nat, limit: nat): (pages: seq<seq<T>>)
    requires m <= |items| && limit > 0
    ensures pages != []
    decreases |items| - m
  {
    if |items| - m < limit then [items[m..]] else [items[m..m + limit]] + Cut(items, m + limit, limit)
  }

  lemma CutStep<T>(items: seq<T>, m: nat, limit: nat, pages: seq<seq<T>>)
    requires m <= |items| && limit > 0 && pages != []
    ensures pages == Cut(items, m, limit) <==>
            && pages[0] == FirstOf(items[m..], limit)
            && if |items| - m < limit then |pages| == 1 else pages[1..] == Cut(items, m + limit, limit)
  {
    assert pages == [pages[0]] + pages[1..];
    if |items| - m >= limit {
      assert items[m..][..limit] == items[m..m + limit];
      assert Cut(items, m, limit)[1..] == Cut(items, m + limit, limit);
    }
  }

  function Join<T>(pages: seq<seq<T>>): seq<T> {
    if pages == [] then [] else pages[0] + Join(pages[1..])
  }

  /** Cutting loses nothing, repeats nothing and reorders nothing. */
  lemma {:induction false} JoinCut<T>(items: seq<T>, m: nat, limit: nat)
    requires m <= |items| && limit > 0
    ensures Join(Cut(items, m, limit)) == items[m..]
    decreases |items| - m
  {
    var pages := Cut(items, m, limit);
    if |items| - m < limit {
      assert Join(pages[1..]) == [];
    } else {
      JoinCut(items, m + limit, limit);
      assert pages[1..] == Cut(items, m + limit, limit);
      assert items[m..m + limit] + items[m + limit..] == items[m..];
    }
  }

  lemma MultipleFar(k: int, d: nat)
    requires k != 0
    ensures k * d >= d || k * d <= -(d as int)
  {
  }

  lemma DivideIs(n: nat, d: nat, q: nat, r: nat)
    requires d > 0 && n == q * d + r && r < d
    ensures n / d == q
  {
    var k := n / d - q;
    assert k * d == r - n % d;
    if k != 0 {
      MultipleFar(k, d);
    }
  }

  lemma DivideStep(n: nat, d: nat)
    requires 0 < d <= n
    ensures n / d == (n - d) / d + 1
  {
    var q, r := (n - d) / d, (n - d) % d;
    assert n == (q + 1) * d + r;
    DivideIs(n, d, q + 1, r);
  }

  lemma {:induction false} CutLength<T>(items: seq<T>, m: nat, limit: nat)
    requires m <= |items| && limit > 0
    ensures |Cut(items, m, limit)| == (|items| - m) / limit + 1
    decreases |items| - m
  {
    var n := |items| - m;
    if n < limit {
      DivideIs(n, limit, 0, n);
    } else {
      CutLength(items, m + limit, limit);
      DivideStep(n, limit);
    }
  }

  // ---------------------------------------------------------------- The crawl

  /** On `dom`, `cut(m)` starts with the answer to `request(m)` and goes on as the answer's link does, `step` further on. */
  ghost predicate Unfolds<F, T>(serve: F -> Option<seq<T>>, follow: (F, seq<T>) -> Option<F>, request: nat -> F,
                                cut: nat -> seq<seq<T>>, step: nat, dom: nat -> bool, m: nat)
  {
    dom(m) ==>
      && cut(m) != [] && serve(request(m)) == Some(cut(m)[0])
      && match follow(request(m), cut(m)[0])
         case None => |cut(m)| == 1
         case Some(next) => dom(m + step) && next == request(m + step) && cut(m)[1..] == cut(m + step)
  }

  /** Then `cut(m)` is the one crawl from `request(m)`. */
  lemma {:induction false} CrawlUnfolds<F, T>(serve: F -> Option<seq<T>>, follow: (F, seq<T>) -> Option<F>, request: nat -> F,
                                              cut: nat -> seq<seq<T>>, step: nat, dom: nat -> bool, m: nat, pages: seq<seq<T>>)
    requires dom(m) && forall i :: Unfolds(serve, follow, request, cut, step, dom, i)
    ensures Crawls(serve, follow, request(m), pages) <==> pages == cut(m)
    decreases |pages|
  {
    assert Unfolds(serve, follow, request, cut, step, dom, m);
    if pages != [] {
      var all := cut(m);
      assert all == [all[0]] + all[1..] && pages == [pages[0]] + pages[1..];
      if follow(request(m), all[0]).Some? {
        assert Unfolds(serve, follow, request, cut, step, dom, m + step);
        CrawlUnfolds(serve, follow, request, cut, step, dom, m + step, pages[1..]);
      }
    }
  }

  // ------------------------------------------------- Pages of a list of items

  /** `request(m)` asks for the page at position `m`, and is answered with it and a link to the one after. */
  ghost predicate Serves<F, T>(serve: F -> Option<seq<T>>, follow: (F, seq<T>) -> Option<F>, request: nat -> F,
                               items: seq<T>, limit: nat, m: nat)
  {
    m <= |items| ==>
      && serve(request(m)) == Some(FirstOf(items[m..], limit))
      && follow(request(m), FirstOf(items[m..], limit)) == if m + limit <= |items| then Some(request(m + limit)) else None
  }

  lemma CrawlOfItems<F, T>(serve: F -> Option<seq<T>>, follow: (F, seq<T>) -> Option<F>, request: nat -> F, items: seq<T>,
                           limit: nat, cut: nat -> seq<seq<T>>, dom: nat -> bool, m: nat, pages: seq<seq<T>>)
    requires m <= |items| && limit > 0 && forall i :: Serves(serve, follow, request, items, limit, i)
    requires forall i: nat :: (dom(i) <==> i <= |items|) && (i <= |items| ==> cut(i) == Cut(items, i, limit))
    ensures Crawls(serve, follow, request(m), pages) <==> pages == cut(m)
  {
    forall i: nat
      ensures Unfolds(serve, follow, request, cut, limit, dom, i)
    {
      assert Serves(serve, follow, request, items, limit, i);
      if i <= |items| {
        CutStep(items, i, limit, Cut(items, i, limit));
      }
    }
    CrawlUnfolds(serve, follow, request, cut, limit, dom, m, pages);
  }

  /** There is exactly one crawl from every position: the items that remain, cut into pages of the limit. */
  lemma CrawlIs<F, T>(serve: F -> Option<seq<T>>, follow: (F, seq<T>) -> Option<F>, request: nat -> F,
                      items: seq<T>, limit: nat, m: nat, pages: seq<seq<T>>)
    requires m <= |items| && limit > 0 && forall i :: Serves(serve, follow, request, items, limit, i)
    ensures Crawls(serve, follow, request(m), pages) <==> pages == Cut(items, m, limit)
  {
    var cut: nat -> seq<seq<T>> := (i: nat) => if i <= |items| then Cut(items, i, limit) else [];
    CrawlOfItems(serve, follow, request, items, limit, cut, (i: nat) => i <= |items|, m, pages);
  }
}
