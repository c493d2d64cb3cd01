/**
  Listing an organization's tasks over HTTP by following the next link of every
  page: findTasksByOrg, newTasksPagingLinks and decodeGetTasksRequest together.
 */
module TaskCrawl {
  import opened Wrappers
  import opened BoltCursor
  import opened CursorLaws
  import opened Ids
  import opened TaskListing
  import opened TaskPages
  import opened TaskLinks
  import opened Crawling

  datatype Store = Store(index: seq<Pair>, tasks: map<ID, Task>, orgs: map<string, ID>)

  ghost predicate Good(s: Store) {
    Bucket(s.index) && GoodEntries(s.index, s.tasks) && Sound(s.orgs)
  }

  /** Filters that kv/task.go, findTasks hands to findTasksByOrg. */
  predicate ByOrg(f: TaskFilter) {
    && f.user.None? && f.orgID.Some? && ValidID(f.orgID.value) && f.limit > 0
    && (f.after.Some? ==> ValidID(f.after.value))
  }

  /** The page of tasks that findTasksByOrg returns. */
  ghost function Answer(s: Store, f: TaskFilter): Option<seq<ID>> {
    if !ByOrg(f) then None
    else
      var org := f.orgID.value;
      match Collect(Listing(s.index, SeekKey(org, f.after), CursorConfig(org, f.after)), s.tasks, org,
                    Query(f.after, f.limit, f.picks), [])
      case Found(ids) => Some(ids)
      case _ => None
  }

  /** The task that the page's next link goes on after, if there is a link. */
  function LastOf(f: TaskFilter, page: seq<ID>): Option<ID> {
    if 1 <= f.limit <= |page| then Some(page[f.limit - 1]) else None
  }

  /** The request that the next link after a task decodes to. */
  ghost function Continued(f: TaskFilter, last: Option<ID>, orgs: map<string, ID>): Option<TaskFilter> {
    if last.Some? && Accepts(NextQuery(f, last.value), orgs) then Some(FilterOf(NextQuery(f, last.value), orgs)) else None
  }

  /** The request that the page's next link decodes to. */
  ghost function Linked(s: Store, f: TaskFilter, page: seq<ID>): Option<TaskFilter> {
    Continued(f, LastOf(f, page), s.orgs)
  }

  ghost predicate Crawl(s: Store, f: TaskFilter, pages: seq<seq<ID>>) {
    Crawls(x => Answer(s, x), (x, page) => Linked(s, x, page), f, pages)
  }

  /** The tasks of the organization that a request with no name and no status is for. */
  ghost function SystemTasks(s: Store, org: ID): seq<ID>
    requires ValidID(org)
  {
    TasksOf(s.index, s.tasks, org, PLAIN)
  }

  /** The request for what comes after the first `m` tasks. */
  function RequestAt(f: TaskFilter, ids: seq<ID>, m: nat): TaskFilter {
    f.(after := if m == 0 || m > |ids| then None else Some(ids[m - 1]))
  }

  ghost predicate Plain(s: Store, f: TaskFilter) {
    ByOrg(f) && f.picks == PLAIN && Proper(f, s.orgs)
  }

  lemma AnswerFirst(s: Store, f: TaskFilter, ids: seq<ID>)
    requires Good(s) && Plain(s, f) && ids == SystemTasks(s, f.orgID.value)
    ensures Answer(s, RequestAt(f, ids, 0)) == Some(FirstOf(ids[0..], f.limit))
  {
    FirstPage(s.index, s.tasks, f.orgID.value, Query(None, f.limit, PLAIN));
    assert ids[0..] == ids;
  }

  lemma AnswerBehind(s: Store, f: TaskFilter, ids: seq<ID>, m: nat)
    requires Good(s) && Plain(s, f) && ids == SystemTasks(s, f.orgID.value) && 0 < m <= |ids|
    ensures Answer(s, RequestAt(f, ids, m)) == Some(FirstOf(ids[m..], f.limit))
  {
    PageBehind(s.index, s.tasks, f.orgID.value, Query(Some(ids[m - 1]), f.limit, PLAIN), m - 1);
  }

  lemma AnswerAt(s: Store, f: TaskFilter, ids: seq<ID>, m: nat)
    requires Good(s) && Plain(s, f) && ids == SystemTasks(s, f.orgID.value) && m <= |ids|
    ensures Answer(s, RequestAt(f, ids, m)) == Some(FirstOf(ids[m..], f.limit))
  {
    if m == 0 {
      AnswerFirst(s, f, ids);
    } else {
      AnswerBehind(s, f, ids, m);
    }
  }

  lemma ProperAt(s: Store, f: TaskFilter, ids: seq<ID>, m: nat)
    requires Good(s) && Plain(s, f) && ids == SystemTasks(s, f.orgID.value) && m <= |ids|
    ensures Proper(RequestAt(f, ids, m), s.orgs)
  {
    if m > 0 {
      var i := TakenMember(s.index, s.tasks, f.orgID.value, PLAIN, ids[m - 1]);
    }
  }

  lemma ContinuedIs(f: TaskFilter, last: ID, orgs: map<string, ID>)
    requires Proper(f, orgs) && ValidID(last)
    ensures Continued(f, Some(last), orgs) == Some(Passed(f).(after := Some(last)))
  {
    NextQueryDecodes(f, last, orgs);
  }

  lemma LinkedIs(s: Store, f: TaskFilter, page: seq<ID>)
    requires Proper(f, s.orgs) && |page| >= f.limit && ValidID(page[f.limit - 1])
    ensures Linked(s, f, page) == Some(Passed(f).(after := Some(page[f.limit - 1])))
  {
    ContinuedIs(f, page[f.limit - 1], s.orgs);
  }

  lemma PassedAt(f: TaskFilter, ids: seq<ID>, m: nat, n: nat)
    requires f.picks == PLAIN && 0 < n <= |ids|
    ensures Passed(RequestAt(f, ids, m)).(after := Some(ids[n - 1])) == RequestAt(f, ids, n)
  {
  }

  lemma FullPage(ids: seq<ID>, m: nat, limit: nat)
    requires limit > 0 && m + limit <= |ids|
    ensures |FirstOf(ids[m..], limit)| == limit && FirstOf(ids[m..], limit)[limit - 1] == ids[m + limit - 1]
  {
  }

  lemma LinkedStep(s: Store, f: TaskFilter, ids: seq<ID>, m: nat)
    requires f.limit > 0 && f.picks == PLAIN && m + f.limit <= |ids|
    requires Proper(RequestAt(f, ids, m), s.orgs) && ValidID(ids[m + f.limit - 1])
    ensures Linked(s, RequestAt(f, ids, m), FirstOf(ids[m..], f.limit)) == Some(RequestAt(f, ids, m + f.limit))
  {
    FullPage(ids, m, f.limit);
    LinkedIs(s, RequestAt(f, ids, m), FirstOf(ids[m..], f.limit));
    PassedAt(f, ids, m, m + f.limit);
  }

  lemma LinkedAt(s: Store, f: TaskFilter, ids: seq<ID>, m: nat)
    requires Good(s) && Plain(s, f) && ids == SystemTasks(s, f.orgID.value) && m <= |ids|
    ensures Linked(s, RequestAt(f, ids, m), FirstOf(ids[m..], f.limit)) ==
            if m + f.limit <= |ids| then Some(RequestAt(f, ids, m + f.limit)) else None
  {
    if m + f.limit <= |ids| {
      ProperAt(s, f, ids, m);
      ProperAt(s, f, ids, m + f.limit);
      LinkedStep(s, f, ids, m);
    }
  }

  /**
    From any position there is exactly one crawl, and it lists the tasks that
    remain, each once and in order, in pages of the limit.
   */
  lemma CrawlFrom(s: Store, f: TaskFilter, ids: seq<ID>, m: nat, pages: seq<seq<ID>>)
    requires Good(s) && Plain(s, f) && ids == SystemTasks(s, f.orgID.value) && m <= |ids|
    ensures Crawl(s, RequestAt(f, ids, m), pages) <==> pages == Cut(ids, m, f.limit)
  {
    var serve: TaskFilter -> Option<seq<ID>> := x => Answer(s, x);
    var follow: (TaskFilter, seq<ID>) -> Option<TaskFilter> := (x, page) => Linked(s, x, page);
    var request: nat -> TaskFilter := (i: nat) => RequestAt(f, ids, i);
    forall i: nat
      ensures Serves(serve, follow, request, ids, f.limit, i)
    {
      if i <= |ids| {
        AnswerAt(s, f, ids, i);
        LinkedAt(s, f, ids, i);
      }
    }
    CrawlIs(serve, follow, request, ids, f.limit, m, pages);
  }

  lemma RequestedPlain(s: Store, f: TaskFilter)
    requires Sound(s.orgs) && Requested(f, s.orgs) && f.user.None? && f.orgID.Some?
    ensures ByOrg(f) && Proper(f, s.orgs)
    ensures f.picks.name.None? && f.picks.status.None? ==> Plain(s, f)
  {
    RequestedIsProper(f, s.orgs);
  }

  lemma CrawlPages(s: Store, f: TaskFilter, ids: seq<ID>, pages: seq<seq<ID>>)
    requires Good(s) && Plain(s, f) && f.after.None? && ids == SystemTasks(s, f.orgID.value)
    ensures Crawl(s, f, pages) <==> pages == Cut(ids, 0, f.limit)
  {
    CrawlFrom(s, f, ids, 0, pages);
    assert RequestAt(f, ids, 0) == f;
  }

  lemma CutWhole(ids: seq<ID>, limit: nat)
    requires limit > 0
    ensures Join(Cut(ids, 0, limit)) == ids && |Cut(ids, 0, limit)| == |ids| / limit + 1
  {
    JoinCut(ids, 0, limit);
    CutLength(ids, 0, limit);
    assert ids[0..] == ids;
  }

  /** With no name and no status asked for, the crawl lists every task once and takes one page per limit. */
  lemma CrawlComplete(s: Store, f: TaskFilter, pages: seq<seq<ID>>)
    requires Good(s) && Requested(f, s.orgs) && f.user.None? && f.orgID.Some? && f.after.None?
    requires f.picks.name.None? && f.picks.status.None?
    ensures ByOrg(f)
    ensures Crawl(s, f, pages) <==> pages == Cut(SystemTasks(s, f.orgID.value), 0, f.limit)
    ensures Crawl(s, f, pages) ==>
              && Join(pages) == SystemTasks(s, f.orgID.value)
              && |pages| == |SystemTasks(s, f.orgID.value)| / f.limit + 1
  {
    RequestedPlain(s, f);
    CrawlPages(s, f, SystemTasks(s, f.orgID.value), pages);
    CutWhole(SystemTasks(s, f.orgID.value), f.limit);
  }

  // ----------------------------------------- Requests with a name or a status

  predicate Fits(id: ID, tasks: map<ID, Task>, k: Picks) {
    id in tasks && Matches(k, tasks[id])
  }

  function Sift(ids: seq<ID>, tasks: map<ID, Task>, k: Picks): (r: seq<ID>)
    ensures |r| <= |ids|
  {
    if ids == [] then [] else (if Fits(ids[0], tasks, k) then [ids[0]] else []) + Sift(ids[1..], tasks, k)
  }

  lemma SiftCons(t: ID, ids: seq<ID>, tasks: map<ID, Task>, k: Picks)
    ensures Sift([t] + ids, tasks, k) == (if Fits(t, tasks, k) then [t] else []) + Sift(ids, tasks, k)
  {
    assert ([t] + ids)[1..] == ids;
  }

  lemma {:induction false} SiftAll(ids: seq<ID>, tasks: map<ID, Task>, k: Picks)
    ensures Sift(ids, tasks, k) == ids <==> forall i :: 0 <= i < |ids| ==> Fits(ids[i], tasks, k)
  {
    if ids != [] {
      var rest := Sift(ids[1..], tasks, k);
      SiftAll(ids[1..], tasks, k);
      if Fits(ids[0], tasks, k) {
        assert [ids[0]] + rest == ids <==> rest == ids[1..] by {
          assert ([ids[0]] + rest)[1..] == rest;
          assert ids == [ids[0]] + ids[1..];
        }
        assert (forall i :: 0 <= i < |ids| ==> Fits(ids[i], tasks, k)) <==>
               forall i :: 0 <= i < |ids[1..]| ==> Fits(ids[1..][i], tasks, k) by {
          assert forall i :: 1 <= i < |ids| ==> ids[i] == ids[1..][i - 1];
        }
      } else {
        assert |Sift(ids, tasks, k)| < |ids|;
      }
    }
  }

  lemma {:induction false} SiftGreater(ids: seq<ID>, tasks: map<ID, Task>, k: Picks, a: ID)
    ensures Sift(Greater(ids, a), tasks, k) == Greater(Sift(ids, tasks, k), a)
  {
    if ids != [] {
      var rest := ids[1..];
      SiftGreater(rest, tasks, k, a);
      if ids[0] > a {
        SiftCons(ids[0], Greater(rest, a), tasks, k);
      }
      if Fits(ids[0], tasks, k) {
        GreaterCons(ids[0], Sift(rest, tasks, k), a);
      }
      assert [] + Greater(rest, a) == Greater(rest, a) && [] + Sift(rest, tasks, k) == Sift(rest, tasks, k);
      assert [] + Sift(Greater(rest, a), tasks, k) == Sift(Greater(rest, a), tasks, k);
    }
  }

  /** A name or a status picks among the organization's system tasks. */
  lemma {:induction false} PicksSift(ps: seq<Pair>, tasks: map<ID, Task>, org: ID, k: Picks)
    requires ValidID(org) && GoodEntries(ps, tasks) && k.kind == Some(SYSTEM)
    ensures TasksOf(ps, tasks, org, k) == Sift(TasksOf(ps, tasks, org, PLAIN), tasks, k)
  {
    if ps != [] {
      PicksSift(ps[1..], tasks, org, k);
      TakenSelect(ps, All, tasks, org, k);
      TakenSelect(ps, All, tasks, org, PLAIN);
      var rest := TasksOf(ps[1..], tasks, org, PLAIN);
      assert [] + rest == rest && [] + Sift(rest, tasks, k) == Sift(rest, tasks, k);
      if Has(Some(Encode(org).value), ps[0].key) {
        var t := LookGood(ps[0], tasks, org, k);
        var t' := LookGood(ps[0], tasks, org, PLAIN);
        SiftCons(t, rest, tasks, k);
      }
    }
  }

  /** What a crawl lists: after the first page the name and the status are forgotten. */
  ghost function Shown(mine: seq<ID>, all: seq<ID>, limit: nat): seq<ID>
    requires limit > 0
  {
    if |mine| < limit then mine else mine[..limit] + Greater(all, mine[limit - 1])
  }

  /** The tasks behind one, or all of them. */
  function Behind(ids: seq<ID>, a: Option<ID>): seq<ID> {
    if a.None? then ids else Greater(ids, a.value)
  }

  /** Every task that the filter selects, whatever its `after`. */
  ghost function Mine(s: Store, f: TaskFilter): seq<ID>
    requires ByOrg(f)
  {
    TasksOf(s.index, s.tasks, f.orgID.value, f.picks)
  }

  /** The task that the first page really starts behind. */
  ghost function Start(s: Store, f: TaskFilter): Option<ID>
    requires ByOrg(f)
  {
    if f.after.None? then None else Some(Resume(s.index, f.orgID.value, f.after.value))
  }

  lemma FirstAnswer(s: Store, f: TaskFilter)
    requires Good(s) && ByOrg(f)
    ensures Answer(s, f) == Some(FirstOf(Behind(Mine(s, f), Start(s, f)), f.limit))
  {
    var q := Query(f.after, f.limit, f.picks);
    if f.after.None? {
      FirstPage(s.index, s.tasks, f.orgID.value, q);
    } else {
      PageAfter(s.index, s.tasks, f.orgID.value, q);
    }
  }

  lemma SiftMember(ids: seq<ID>, tasks: map<ID, Task>, k: Picks, id: ID) returns (j: nat)
    requires id in Sift(ids, tasks, k)
    ensures j < |ids| && ids[j] == id
  {
    if ids[0] == id {
      j := 0;
    } else {
      j := SiftMember(ids[1..], tasks, k, id);
      j := j + 1;
    }
  }

  lemma BehindMember(ids: seq<ID>, a: Option<ID>, id: ID)
    requires id in Behind(ids, a)
    ensures id in ids
  {
    if a.Some? {
      GreaterMember(ids, a.value, id);
    }
  }

  /** Where the first next link of a crawl leads. */
  lemma FirstLink(s: Store, f: TaskFilter, ahead: seq<ID>) returns (j: nat)
    requires Good(s) && ByOrg(f) && Proper(f, s.orgs) && f.picks.kind == Some(SYSTEM)
    requires |ahead| >= f.limit && ahead[f.limit - 1] in Mine(s, f)
    ensures var all := SystemTasks(s, f.orgID.value);
            && j < |all| && all[j] == ahead[f.limit - 1]
            && Linked(s, f, ahead[..f.limit]) == Some(RequestAt(Passed(f), all, j + 1))
  {
    var all, last := SystemTasks(s, f.orgID.value), ahead[f.limit - 1];
    PicksSift(s.index, s.tasks, f.orgID.value, f.picks);
    j := SiftMember(all, s.tasks, f.picks, last);
    var i := TakenMember(s.index, s.tasks, f.orgID.value, f.picks, last);
    LinkedIs(s, f, ahead[..f.limit]);
  }

  lemma LaterPages(s: Store, f: TaskFilter, all: seq<ID>, j: nat, pages: seq<seq<ID>>)
    requires Good(s) && Plain(s, f) && all == SystemTasks(s, f.orgID.value) && j < |all|
    requires Crawl(s, RequestAt(f, all, j + 1), pages)
    ensures Join(pages) == Greater(all, all[j])
  {
    CrawlFrom(s, f, all, j + 1, pages);
    JoinCut(all, j + 1, f.limit);
    TasksIncreasing(s.index, s.tasks, f.orgID.value, PLAIN);
    GreaterSuffix(all, j);
  }

  lemma CrawlHead(s: Store, f: TaskFilter, pages: seq<seq<ID>>)
    requires Crawl(s, f, pages)
    ensures pages != [] && Answer(s, f) == Some(pages[0])
    ensures Linked(s, f, pages[0]).None? ==> |pages| == 1
    ensures Linked(s, f, pages[0]).Some? ==> Crawl(s, Linked(s, f, pages[0]).value, pages[1..])
  {
  }

  lemma JoinOne(pages: seq<seq<ID>>)
    requires |pages| == 1
    ensures Join(pages) == pages[0]
  {
    assert Join(pages[1..]) == [];
  }

  lemma JoinFirst(pages: seq<seq<ID>>, first: seq<ID>, rest: seq<ID>)
    requires pages != [] && pages[0] == first && Join(pages[1..]) == rest
    ensures Join(pages) == first + rest
  {
  }

  /** What a crawl lists whose first page goes on after the task at `j`. */
  lemma ListsOn(s: Store, f: TaskFilter, all: seq<ID>, j: nat, pages: seq<seq<ID>>)
    requires Good(s) && Plain(s, f) && all == SystemTasks(s, f.orgID.value) && j < |all|
    requires pages != [] && Crawl(s, RequestAt(f, all, j + 1), pages[1..])
    ensures Join(pages) == pages[0] + Greater(all, all[j])
  {
    LaterPages(s, f, all, j, pages[1..]);
    JoinFirst(pages, pages[0], Greater(all, all[j]));
  }

  lemma FirstNext(s: Store, f: TaskFilter, ahead: seq<ID>, pages: seq<seq<ID>>) returns (j: nat)
    requires Good(s) && ByOrg(f) && Proper(f, s.orgs) && f.picks.kind == Some(SYSTEM)
    requires |ahead| >= f.limit && ahead[f.limit - 1] in Mine(s, f) && pages != [] && pages[0] == ahead[..f.limit]
    requires Linked(s, f, pages[0]).Some? ==> Crawl(s, Linked(s, f, pages[0]).value, pages[1..])
    ensures var all := SystemTasks(s, f.orgID.value);
            && j < |all| && all[j] == ahead[f.limit - 1]
            && Plain(s, Passed(f)) && Crawl(s, RequestAt(Passed(f), all, j + 1), pages[1..])
  {
    j := FirstLink(s, f, ahead);
  }

  lemma ListsFrom(s: Store, f: TaskFilter, ahead: seq<ID>, pages: seq<seq<ID>>)
    requires Good(s) && ByOrg(f) && Proper(f, s.orgs) && f.picks.kind == Some(SYSTEM)
    requires |ahead| >= f.limit ==> ahead[f.limit - 1] in Mine(s, f)
    requires pages != [] && pages[0] == FirstOf(ahead, f.limit)
    requires Linked(s, f, pages[0]).None? ==> |pages| == 1
    requires Linked(s, f, pages[0]).Some? ==> Crawl(s, Linked(s, f, pages[0]).value, pages[1..])
    ensures Join(pages) == Shown(ahead, SystemTasks(s, f.orgID.value), f.limit)
  {
    if |ahead| < f.limit {
      JoinOne(pages);
    } else {
      var j := FirstNext(s, f, ahead, pages);
      ListsOn(s, Passed(f), SystemTasks(s, f.orgID.value), j, pages);
    }
  }

  /** What any crawl lists, whatever was asked for. */
  lemma CrawlLists(s: Store, f: TaskFilter, pages: seq<seq<ID>>)
    requires Good(s) && ByOrg(f) && Proper(f, s.orgs) && f.picks.kind == Some(SYSTEM)
    requires Crawl(s, f, pages)
    ensures Join(pages) == Shown(Behind(Mine(s, f), Start(s, f)), SystemTasks(s, f.orgID.value), f.limit)
  {
    var ahead := Behind(Mine(s, f), Start(s, f));
    FirstAnswer(s, f);
    CrawlHead(s, f, pages);
    if |ahead| >= f.limit {
      BehindMember(Mine(s, f), Start(s, f), ahead[f.limit - 1]);
    }
    ListsFrom(s, f, ahead, pages);
  }

  lemma CrawlOne(s: Store, f: TaskFilter, page: seq<ID>)
    requires Answer(s, f) == Some(page) && Linked(s, f, page).None?
    ensures Crawl(s, f, [page])
  {
  }

  lemma CrawlMore(s: Store, f: TaskFilter, page: seq<ID>, next: TaskFilter, rest: seq<seq<ID>>)
    requires Answer(s, f) == Some(page) && Linked(s, f, page) == Some(next) && Crawl(s, next, rest)
    ensures Crawl(s, f, [page] + rest)
  {
    assert ([page] + rest)[1..] == rest && rest != [];
  }

  lemma PassedPlain(s: Store, f: TaskFilter)
    requires ByOrg(f) && Proper(f, s.orgs)
    ensures Plain(s, Passed(f)) && Passed(f).orgID == f.orgID
  {
  }

  lemma LaterExist(s: Store, f: TaskFilter, m: nat) returns (pages: seq<seq<ID>>)
    requires Good(s) && Plain(s, f) && m <= |SystemTasks(s, f.orgID.value)|
    ensures Crawl(s, RequestAt(f, SystemTasks(s, f.orgID.value), m), pages)
  {
    var all := SystemTasks(s, f.orgID.value);
    pages := Cut(all, m, f.limit);
    CrawlFrom(s, f, all, m, pages);
  }

  /** The rest of a crawl whose first page is full. */
  lemma NextExists(s: Store, f: TaskFilter, ahead: seq<ID>) returns (next: TaskFilter, rest: seq<seq<ID>>)
    requires Good(s) && ByOrg(f) && Proper(f, s.orgs) && f.picks.kind == Some(SYSTEM)
    requires |ahead| >= f.limit && ahead[f.limit - 1] in Mine(s, f)
    ensures Linked(s, f, ahead[..f.limit]) == Some(next) && Crawl(s, next, rest)
  {
    var j := FirstLink(s, f, ahead);
    next := RequestAt(Passed(f), SystemTasks(s, f.orgID.value), j + 1);
    PassedPlain(s, f);
    rest := LaterExist(s, Passed(f), j + 1);
  }

  lemma LinkedNone(s: Store, f: TaskFilter, page: seq<ID>)
    requires |page| < f.limit
    ensures Linked(s, f, page).None?
  {
  }

  /** Every request for an organization's tasks has a crawl, which ends. */
  lemma CrawlExists(s: Store, f: TaskFilter) returns (pages: seq<seq<ID>>)
    requires Good(s) && Requested(f, s.orgs) && f.user.None? && f.orgID.Some?
    ensures Crawl(s, f, pages)
  {
    RequestedIsProper(f, s.orgs);
    var ahead := Behind(Mine(s, f), Start(s, f));
    FirstAnswer(s, f);
    if |ahead| < f.limit {
      LinkedNone(s, f, ahead);
      CrawlOne(s, f, ahead);
      pages := [ahead];
    } else {
      BehindMember(Mine(s, f), Start(s, f), ahead[f.limit - 1]);
      var next, rest := NextExists(s, f, ahead);
      CrawlMore(s, f, ahead[..f.limit], next, rest);
      pages := [ahead[..f.limit]] + rest;
    }
  }

  /** Every task that comes after a full first page is one that was asked for. */
  ghost predicate NoStragglers(mine: seq<ID>, all: seq<ID>, limit: nat, tasks: map<ID, Task>, k: Picks)
    requires limit > 0
  {
    |mine| < limit || forall id: ID :: id in all && id > mine[limit - 1] ==> Fits(id, tasks, k)
  }

  lemma SiftLate(all: seq<ID>, tasks: map<ID, Task>, k: Picks, last: ID)
    ensures Sift(Greater(all, last), tasks, k) == Greater(all, last) <==>
            forall id: ID :: id in all && id > last ==> Fits(id, tasks, k)
  {
    var late := Greater(all, last);
    SiftAll(late, tasks, k);
    forall id: ID
      ensures id in late <==> id in all && id > last
    {
      GreaterMember(all, last, id);
    }
  }

  lemma SplitSame(s: seq<ID>, n: nat, t: seq<ID>)
    requires n <= |s|
    ensures s[..n] + t == s <==> t == s[n..]
  {
    assert s == s[..n] + s[n..];
    assert (s[..n] + t)[n..] == t;
  }

  lemma BehindIs(ids: seq<ID>, a: Option<ID>) returns (c: nat)
    requires Increasing(ids)
    ensures c <= |ids| && Behind(ids, a) == ids[c..]
  {
    c := 0;
    if a.Some? {
      c := CutPoint(ids, a.value);
    }
  }

  lemma BehindSuffix(ids: seq<ID>, a: Option<ID>, m: nat)
    requires Increasing(ids) && m < |Behind(ids, a)|
    ensures Greater(ids, Behind(ids, a)[m]) == Behind(ids, a)[m + 1..]
  {
    var c := BehindIs(ids, a);
    SuffixBehind(ids, Behind(ids, a), c, m);
  }

  lemma SuffixBehind(ids: seq<ID>, ahead: seq<ID>, c: nat, m: nat)
    requires Increasing(ids) && c <= |ids| && ahead == ids[c..] && m < |ahead|
    ensures Greater(ids, ahead[m]) == ahead[m + 1..]
  {
    SuffixOf(ids, c, m);
    GreaterSuffix(ids, c + m);
  }

  lemma SuffixOf(ids: seq<ID>, c: nat, m: nat)
    requires c + m < |ids|
    ensures ids[c..][m] == ids[c + m] && ids[c..][m + 1..] == ids[c + m + 1..]
  {
  }

  lemma ShownFull(ahead: seq<ID>, all: seq<ID>, limit: nat, tasks: map<ID, Task>, k: Picks)
    requires 0 < limit <= |ahead| && Sift(Greater(all, ahead[limit - 1]), tasks, k) == ahead[limit..]
    ensures Shown(ahead, all, limit) == ahead <==> NoStragglers(ahead, all, limit, tasks, k)
  {
    SplitSame(ahead, limit, Greater(all, ahead[limit - 1]));
    SiftLate(all, tasks, k, ahead[limit - 1]);
  }

  lemma ShownIff(mine: seq<ID>, start: Option<ID>, all: seq<ID>, limit: nat, tasks: map<ID, Task>, k: Picks)
    requires limit > 0 && mine == Sift(all, tasks, k) && Increasing(mine)
    ensures var ahead := Behind(mine, start);
            Shown(ahead, all, limit) == ahead <==> NoStragglers(ahead, all, limit, tasks, k)
  {
    var ahead := Behind(mine, start);
    if |ahead| >= limit {
      BehindSuffix(mine, start, limit - 1);
      SiftGreater(all, tasks, k, ahead[limit - 1]);
      ShownFull(ahead, all, limit, tasks, k);
    }
  }

  /** A list that starts with another task than the one that was skipped. */
  lemma ShownDiffers(b: ID, ahead: seq<ID>, all: seq<ID>, limit: nat)
    requires limit > 0 && b !in ahead
    ensures Shown(ahead, all, limit) != [b] + ahead
  {
    if ahead != [] {
      assert Shown(ahead, all, limit)[0] == ahead[0] && ahead[0] in ahead;
    }
  }

  /** The request goes on after a task that is not in the index, and skips the next one, which it asked for. */
  ghost predicate SkipsOne(s: Store, f: TaskFilter)
    requires ByOrg(f)
  {
    f.after.Some? && SkipsTask(s.index, s.tasks, f.orgID.value, f.picks, f.after.value)
  }

  lemma StartIs(s: Store, f: TaskFilter)
    requires Good(s) && ByOrg(f)
    ensures !SkipsOne(s, f) ==> Behind(Mine(s, f), f.after) == Behind(Mine(s, f), Start(s, f))
    ensures SkipsOne(s, f) ==> Behind(Mine(s, f), f.after) == [Start(s, f).value] + Behind(Mine(s, f), Start(s, f))
    ensures SkipsOne(s, f) ==> Start(s, f).value !in Behind(Mine(s, f), Start(s, f))
  {
    if f.after.Some? {
      ResumeGreater(s.index, s.tasks, f.orgID.value, f.picks, f.after.value);
      GreaterBeyond(Mine(s, f), Start(s, f).value);
      var rest := Behind(Mine(s, f), Start(s, f));
      assert [] + rest == rest;
    }
  }

  lemma ShownAskedIff(s: Store, f: TaskFilter, all: seq<ID>)
    requires Good(s) && ByOrg(f) && f.picks.kind == Some(SYSTEM) && all == SystemTasks(s, f.orgID.value)
    ensures var ahead := Behind(Mine(s, f), Start(s, f));
            Shown(ahead, all, f.limit) == Behind(Mine(s, f), f.after) <==>
            !SkipsOne(s, f) && NoStragglers(ahead, all, f.limit, s.tasks, f.picks)
  {
    StartIs(s, f);
    if SkipsOne(s, f) {
      ShownDiffers(Start(s, f).value, Behind(Mine(s, f), Start(s, f)), all, f.limit);
    } else {
      PicksSift(s.index, s.tasks, f.orgID.value, f.picks);
      TasksIncreasing(s.index, s.tasks, f.orgID.value, f.picks);
      ShownIff(Mine(s, f), Start(s, f), all, f.limit, s.tasks, f.picks);
    }
  }

  /**
    The crawl of any request for an organization's tasks lists what was asked for
    exactly when it skips none at its start, and its first page is not full or
    every task that comes after that page matches the name and the status.
   */
  lemma CrawlCorrectIff(s: Store, f: TaskFilter, pages: seq<seq<ID>>)
    requires Good(s) && Requested(f, s.orgs) && f.user.None? && f.orgID.Some?
    requires Crawl(s, f, pages)
    ensures ByOrg(f)
    ensures Join(pages) == Behind(Mine(s, f), f.after) <==>
            && !SkipsOne(s, f)
            && NoStragglers(Behind(Mine(s, f), Start(s, f)), SystemTasks(s, f.orgID.value), f.limit, s.tasks, f.picks)
  {
    RequestedIsProper(f, s.orgs);
    CrawlLists(s, f, pages);
    ShownAskedIff(s, f, SystemTasks(s, f.orgID.value));
  }
}
