/**
  The pages that kv/task.go, findTasksByOrg cuts an organization's tasks into,
  over any index that holds an entry for every task (and possibly stale ones).
 */
module TaskPages {
  import opened Bytes
  import opened Wrappers
  import opened BoltCursor
  import opened CursorLaws
  import opened Ids
  import opened Keys
  import opened TaskListing
  import opened Crawling

  ghost predicate Indexes(p: Pair, org: ID, task: ID) {
    ValidID(org) && ValidID(task) && p == Pair(TaskOrgKey(org, task), Encode(task).value)
  }

  /** An entry as createTask writes it; the task itself may be gone. */
  ghost predicate GoodEntry(p: Pair, tasks: map<ID, Task>) {
    exists org, task :: Indexes(p, org, task) && (task in tasks ==> tasks[task].org == org)
  }

  ghost predicate GoodEntries(ps: seq<Pair>, tasks: map<ID, Task>) {
    forall i :: 0 <= i < |ps| ==> GoodEntry(ps[i], tasks)
  }

  /** The tasks that the entries name and the query matches, in order. */
  function Taken(ps: seq<Pair>, tasks: map<ID, Task>, org: ID, k: Picks): seq<ID> {
    if ps == [] then []
    else
      var e := Look(ps[0], tasks, org, k);
      (if e.Take? then [e.id] else []) + Taken(ps[1..], tasks, org, k)
  }

  /** All tasks of the organization that the query matches, in order of their IDs. */
  function TasksOf(index: seq<Pair>, tasks: map<ID, Task>, org: ID, k: Picks): seq<ID>
    requires ValidID(org)
  {
    Taken(Select(index, All, Some(Encode(org).value)), tasks, org, k)
  }

  lemma LookGood(p: Pair, tasks: map<ID, Task>, org: ID, k: Picks) returns (task: ID)
    requires ValidID(org) && GoodEntry(p, tasks) && HasPrefix(p.key, Encode(org).value)
    ensures Indexes(p, org, task) && Look(p, tasks, org, k) in {Skip, Take(task)}
    ensures Look(p, tasks, org, k) == Take(task) <==> task in tasks && Matches(k, tasks[task])
    ensures task in tasks ==> tasks[task].org == org
  {
    var o, t :| Indexes(p, o, t) && (t in tasks ==> tasks[t].org == o);
    TaskOrgKeyPrefix(o, t, org);
    DecodeEncode(t);
    task := t;
  }

  ghost predicate OfOrg(ps: seq<Pair>, tasks: map<ID, Task>, org: ID)
    requires ValidID(org)
  {
    forall i :: 0 <= i < |ps| ==> GoodEntry(ps[i], tasks) && HasPrefix(ps[i].key, Encode(org).value)
  }

  lemma {:induction false} SelectOfOrg(ps: seq<Pair>, tasks: map<ID, Task>, org: ID, r: Range)
    requires ValidID(org) && GoodEntries(ps, tasks)
    ensures OfOrg(Select(ps, r, Some(Encode(org).value)), tasks, org)
  {
    if ps != [] {
      SelectOfOrg(ps[1..], tasks, org, r);
    }
  }

  lemma FirstOfCons(ts: seq<ID>, t: ID, rest: seq<ID>, n: nat)
    requires n > 0
    ensures ts + FirstOf([t] + rest, n) == ts + [t] + FirstOf(rest, n - 1)
  {
    assert FirstOf([t] + rest, n) == [t] + FirstOf(rest, n - 1);
  }

  /** On entries of the organization the loop takes the first matching tasks up to the limit. */
  lemma {:induction false} CollectTakes(ps: seq<Pair>, tasks: map<ID, Task>, org: ID, q: Query, ts: seq<ID>)
    requires ValidID(org) && OfOrg(ps, tasks, org) && |ts| < q.limit
    ensures Collect(ps, tasks, org, q, ts) == Found(ts + FirstOf(Taken(ps, tasks, org, q.picks), q.limit - |ts|))
    decreases |ps|
  {
    if ps == [] {
      assert ts + [] == ts;
    } else {
      var t := LookGood(ps[0], tasks, org, q.picks);
      var rest, n := Taken(ps[1..], tasks, org, q.picks), q.limit - |ts|;
      if Look(ps[0], tasks, org, q.picks).Skip? {
        assert [] + rest == rest;
        CollectTakes(ps[1..], tasks, org, q, ts);
      } else {
        FirstOfCons(ts, t, rest, n);
        if n > 1 {
          CollectTakes(ps[1..], tasks, org, q, ts + [t]);
        } else {
          assert ts + [t] + [] == ts + [t];
        }
      }
    }
  }

  // ------------------------------------------------------- Pages and positions

  function Greater(ids: seq<ID>, a: ID): seq<ID> {
    if ids == [] then [] else (if ids[0] > a then [ids[0]] else []) + Greater(ids[1..], a)
  }

  ghost predicate Increasing(ids: seq<ID>) {
    forall i, j :: 0 <= i < j < |ids| ==> ids[i] < ids[j]
  }

  lemma {:induction false} GreaterAll(ids: seq<ID>, a: ID)
    requires forall i :: 0 <= i < |ids| ==> ids[i] > a
    ensures Greater(ids, a) == ids
  {
    if ids != [] {
      GreaterAll(ids[1..], a);
    }
  }

  lemma {:induction false} GreaterSuffix(ids: seq<ID>, m: nat)
    requires Increasing(ids) && m < |ids|
    ensures Greater(ids, ids[m]) == ids[m + 1..]
  {
    if m == 0 {
      GreaterAll(ids[1..], ids[0]);
    } else {
      assert ids[1..][m - 1] == ids[m];
      GreaterSuffix(ids[1..], m - 1);
    }
  }

  lemma TakenSelect(ps: seq<Pair>, r: Range, tasks: map<ID, Task>, org: ID, k: Picks)
    requires ValidID(org) && ps != []
    ensures var p := Some(Encode(org).value);
            Taken(Select(ps, r, p), tasks, org, k) ==
            (if In(r, ps[0].key) && Has(p, ps[0].key) && Look(ps[0], tasks, org, k).Take?
             then [Look(ps[0], tasks, org, k).id] else []) + Taken(Select(ps[1..], r, p), tasks, org, k)
  {
    var rest := Select(ps[1..], r, Some(Encode(org).value));
    assert ([ps[0]] + rest)[1..] == rest;
    assert [] + rest == rest;
  }

  lemma GreaterCons(t: ID, ids: seq<ID>, a: ID)
    ensures Greater([t] + ids, a) == (if t > a then [t] else []) + Greater(ids, a)
  {
    assert ([t] + ids)[1..] == ids;
  }

  /** The tasks named by the entries above a task's entry are those with a greater ID. */
  lemma {:induction false} TakenAfter(ps: seq<Pair>, tasks: map<ID, Task>, org: ID, k: Picks, a: ID)
    requires ValidID(org) && ValidID(a) && GoodEntries(ps, tasks)
    ensures var p := Some(Encode(org).value);
            Taken(Select(ps, Above(TaskOrgKey(org, a)), p), tasks, org, k) ==
            Greater(Taken(Select(ps, All, p), tasks, org, k), a)
  {
    if ps != [] {
      var p := Some(Encode(org).value);
      TakenAfter(ps[1..], tasks, org, k, a);
      TakenSelect(ps, Above(TaskOrgKey(org, a)), tasks, org, k);
      TakenSelect(ps, All, tasks, org, k);
      var rest := Taken(Select(ps[1..], All, p), tasks, org, k);
      assert [] + rest == rest && [] + Greater(rest, a) == Greater(rest, a);
      if Has(p, ps[0].key) {
        var t := LookGood(ps[0], tasks, org, k);
        TaskOrgKeyOrdered(org, a, t);
        GreaterCons(t, rest, a);
      }
    }
  }

  lemma {:induction false} TakenMember(ps: seq<Pair>, tasks: map<ID, Task>, org: ID, k: Picks, id: ID) returns (i: nat)
    requires ValidID(org) && GoodEntries(ps, tasks)
    requires id in Taken(Select(ps, All, Some(Encode(org).value)), tasks, org, k)
    ensures i < |ps| && ValidID(id) && ps[i].key == TaskOrgKey(org, id)
  {
    TakenSelect(ps, All, tasks, org, k);
    var rest := Taken(Select(ps[1..], All, Some(Encode(org).value)), tasks, org, k);
    if id in rest {
      i := TakenMember(ps[1..], tasks, org, k, id);
      i := i + 1;
    } else {
      var t := LookGood(ps[0], tasks, org, k);
      i := 0;
    }
  }

  /** The index keeps an organization's tasks in order of their IDs, each once. */
  lemma {:induction false} TasksIncreasing(ps: seq<Pair>, tasks: map<ID, Task>, org: ID, k: Picks)
    requires Bucket(ps) && ValidID(org) && GoodEntries(ps, tasks)
    ensures Increasing(TasksOf(ps, tasks, org, k))
  {
    if ps != [] {
      var p := Some(Encode(org).value);
      TasksIncreasing(ps[1..], tasks, org, k);
      TakenSelect(ps, All, tasks, org, k);
      var rest := TasksOf(ps[1..], tasks, org, k);
      if Has(p, ps[0].key) {
        var t := LookGood(ps[0], tasks, org, k);
        forall j | 0 <= j < |rest|
          ensures t < rest[j]
        {
          var i := TakenMember(ps[1..], tasks, org, k, rest[j]);
          assert Less(ps[0].key, ps[i + 1].key);
          TaskOrgKeyOrdered(org, t, rest[j]);
        }
      }
    }
  }

  lemma {:induction false} SelectFromPrefix(ps: seq<Pair>, p: ByteString)
    ensures Select(ps, From(p), Some(p)) == Select(ps, All, Some(p))
  {
    if ps != [] {
      if HasPrefix(ps[0].key, p) {
        PrefixLeq(p, ps[0].key);
      }
      SelectFromPrefix(ps[1..], p);
    }
  }

  lemma CollectPage(ps: seq<Pair>, tasks: map<ID, Task>, org: ID, q: Query)
    requires ValidID(org) && OfOrg(ps, tasks, org) && q.limit > 0
    ensures Collect(ps, tasks, org, q, []) == Found(FirstOf(Taken(ps, tasks, org, q.picks), q.limit))
  {
    CollectTakes(ps, tasks, org, q, []);
    var page := FirstOf(Taken(ps, tasks, org, q.picks), q.limit);
    assert [] + page == page;
  }

  lemma FirstPage(index: seq<Pair>, tasks: map<ID, Task>, org: ID, q: Query)
    requires Bucket(index) && GoodEntries(index, tasks) && ValidID(org) && q.limit > 0 && q.after == None
    ensures Collect(Listing(index, SeekKey(org, q.after), CursorConfig(org, q.after)), tasks, org, q, []) ==
            Found(FirstOf(TasksOf(index, tasks, org, q.picks), q.limit))
  {
    var p := Encode(org).value;
    AscendingScan(index, p, Some(p));
    SelectFromPrefix(index, p);
    SelectOfOrg(index, tasks, org, All);
    CollectPage(Select(index, All, Some(p)), tasks, org, q);
  }

  lemma PageAbove(index: seq<Pair>, tasks: map<ID, Task>, org: ID, q: Query, ps: seq<Pair>, a: ID)
    requires GoodEntries(index, tasks) && ValidID(org) && ValidID(a) && q.limit > 0
    requires ps == Select(index, Above(TaskOrgKey(org, a)), Some(Encode(org).value))
    ensures Collect(ps, tasks, org, q, []) == Found(FirstOf(Greater(TasksOf(index, tasks, org, q.picks), a), q.limit))
  {
    SelectOfOrg(index, tasks, org, Above(TaskOrgKey(org, a)));
    TakenAfter(index, tasks, org, q.picks, a);
    CollectPage(ps, tasks, org, q);
  }

  // ------------------------------------------------------------ After any task

  /** The task that a cursor for the tasks after `a` skips: `a` itself, or the next one indexed. */
  function Resume(index: seq<Pair>, org: ID, a: ID): ID
    requires ValidID(org) && ValidID(a)
  {
    var i := Landing(index, TaskOrgKey(org, a));
    if i == |index| || !HasPrefix(index[i].key, Encode(org).value) then a
    else
      match Decode(index[i].value)
      case Decoded(id) => id
      case _ => a
  }

  /** What the cursor landed on, if it is an entry of the organization. */
  lemma ResumeIndexed(index: seq<Pair>, tasks: map<ID, Task>, org: ID, a: ID)
    requires ValidID(org) && ValidID(a) && GoodEntries(index, tasks)
    ensures var i := Landing(index, TaskOrgKey(org, a));
            i < |index| && HasPrefix(index[i].key, Encode(org).value) ==> Indexes(index[i], org, Resume(index, org, a))
  {
    var i := Landing(index, TaskOrgKey(org, a));
    if i < |index| && HasPrefix(index[i].key, Encode(org).value) {
      var t := LookGood(index[i], tasks, org, Picks(None, None, None));
      DecodeEncode(t);
    }
  }

  lemma ResumeListing(index: seq<Pair>, tasks: map<ID, Task>, org: ID, a: ID)
    requires Bucket(index) && GoodEntries(index, tasks) && ValidID(org) && ValidID(a)
    ensures ValidID(Resume(index, org, a))
    ensures Listing(index, TaskOrgKey(org, a), CursorConfig(org, Some(a))) ==
            Select(index, Above(TaskOrgKey(org, Resume(index, org, a))), Some(Encode(org).value))
  {
    var key, p := TaskOrgKey(org, a), Some(Encode(org).value);
    ResumeIndexed(index, tasks, org, a);
    SeekHasPrefix(org, Some(a));
    if Landing(index, key) < |index| && Has(p, index[Landing(index, key)].key) {
      SkipLanded(index, key, p);
    } else {
      SkipNothing(index, key, p);
    }
  }

  /** The page after any task, listed, indexed or neither: it starts behind the task that is skipped. */
  lemma PageAfter(index: seq<Pair>, tasks: map<ID, Task>, org: ID, q: Query)
    requires Bucket(index) && GoodEntries(index, tasks) && ValidID(org) && q.limit > 0
    requires q.after.Some? && ValidID(q.after.value)
    ensures Collect(Listing(index, SeekKey(org, q.after), CursorConfig(org, q.after)), tasks, org, q, []) ==
            Found(FirstOf(Greater(TasksOf(index, tasks, org, q.picks), Resume(index, org, q.after.value)), q.limit))
  {
    ResumeListing(index, tasks, org, q.after.value);
    PageAbove(index, tasks, org, q, Listing(index, SeekKey(org, q.after), CursorConfig(org, q.after)), Resume(index, org, q.after.value));
  }

  lemma ResumeAtLeast(index: seq<Pair>, tasks: map<ID, Task>, org: ID, a: ID)
    requires GoodEntries(index, tasks) && ValidID(org) && ValidID(a)
    ensures a <= Resume(index, org, a)
  {
    var i, b := Landing(index, TaskOrgKey(org, a)), Resume(index, org, a);
    ResumeIndexed(index, tasks, org, a);
    if i < |index| && HasPrefix(index[i].key, Encode(org).value) {
      TaskOrgKeyLeq(org, a, b);
    }
  }

  lemma ResumeBefore(index: seq<Pair>, tasks: map<ID, Task>, org: ID, a: ID, id: ID, j: nat)
    requires Bucket(index) && GoodEntries(index, tasks) && ValidID(org) && ValidID(a) && ValidID(id)
    requires j < |index| && index[j].key == TaskOrgKey(org, id) && id >= a
    ensures Resume(index, org, a) <= id
  {
    var key := TaskOrgKey(org, a);
    TaskOrgKeyLeq(org, a, id);
    SeekHasPrefix(org, Some(a));
    SeekHasPrefix(org, Some(id));
    LandedHas(index, key, j, Encode(org).value);
    LandedLeast(index, key, j);
    ResumeIndexed(index, tasks, org, a);
    TaskOrgKeyLeq(org, Resume(index, org, a), id);
  }

  /** No task of the organization stands between the one asked for and the one skipped. */
  lemma ResumeNext(index: seq<Pair>, tasks: map<ID, Task>, org: ID, k: Picks, a: ID, id: ID)
    requires Bucket(index) && GoodEntries(index, tasks) && ValidID(org) && ValidID(a)
    requires id in TasksOf(index, tasks, org, k) && id >= a
    ensures Resume(index, org, a) <= id
  {
    var j := TakenMember(index, tasks, org, k, id);
    ResumeBefore(index, tasks, org, a, id, j);
  }

  lemma CutSame(ids: seq<ID>, a: ID, b: ID, m: nat, n: nat)
    requires Increasing(ids) && a <= b && m <= |ids| && n <= |ids|
    requires forall i :: 0 <= i < |ids| ==> (ids[i] > a <==> i >= m)
    requires forall i :: 0 <= i < |ids| ==> (ids[i] > b <==> i >= n)
    requires forall i :: 0 <= i < |ids| && ids[i] > a ==> ids[i] >= b
    ensures if b > a && b in ids then m < |ids| && ids[m] == b && n == m + 1 else n == m
  {
    if b > a && b in ids {
      var j :| 0 <= j < |ids| && ids[j] == b;
      assert ids[j] > a && ids[m] > a;
      assert j == m;
      assert !(ids[m] > b);
      assert m + 1 < |ids| ==> ids[m + 1] > ids[m];
    } else {
      assert m < |ids| ==> ids[m] > a && ids[m] >= b && ids[m] in ids;
      assert n < |ids| ==> ids[n] > b;
    }
  }

  /** A list of tasks, cut behind `a` and behind the next one after it. */
  lemma GreaterSkips(ids: seq<ID>, a: ID, b: ID)
    requires Increasing(ids) && a <= b && forall i :: 0 <= i < |ids| && ids[i] > a ==> ids[i] >= b
    ensures Greater(ids, a) == (if b > a && b in ids then [b] else []) + Greater(ids, b)
  {
    var m := CutPoint(ids, a);
    var n := CutPoint(ids, b);
    CutSame(ids, a, b, m, n);
    if b > a && b in ids {
      assert ids[m..] == [b] + ids[m + 1..];
    } else {
      assert [] + ids[m..] == ids[m..];
    }
  }

  lemma {:induction false} CutPoint(ids: seq<ID>, a: ID) returns (m: nat)
    requires Increasing(ids)
    ensures m <= |ids| && Greater(ids, a) == ids[m..]
    ensures forall i :: 0 <= i < |ids| ==> (ids[i] > a <==> i >= m)
  {
    if ids == [] {
      m := 0;
    } else if ids[0] > a {
      GreaterAll(ids, a);
      m := 0;
    } else {
      m := CutPoint(ids[1..], a);
      m := m + 1;
    }
  }

  /** The request skips a task that it should have listed. */
  ghost predicate SkipsTask(index: seq<Pair>, tasks: map<ID, Task>, org: ID, k: Picks, a: ID)
    requires ValidID(org) && ValidID(a)
  {
    Resume(index, org, a) != a && Resume(index, org, a) in TasksOf(index, tasks, org, k)
  }

  /** What is behind the skipped task is what is behind the one asked for, less the skipped one. */
  lemma ResumeGreater(index: seq<Pair>, tasks: map<ID, Task>, org: ID, k: Picks, a: ID)
    requires Bucket(index) && GoodEntries(index, tasks) && ValidID(org) && ValidID(a)
    ensures var ids, b := TasksOf(index, tasks, org, k), Resume(index, org, a);
            Greater(ids, a) == (if SkipsTask(index, tasks, org, k, a) then [b] else []) + Greater(ids, b)
  {
    var ids, b := TasksOf(index, tasks, org, k), Resume(index, org, a);
    TasksIncreasing(index, tasks, org, k);
    ResumeAtLeast(index, tasks, org, a);
    forall i | 0 <= i < |ids| && ids[i] > a
      ensures b <= ids[i]
    {
      ResumeNext(index, tasks, org, k, a, ids[i]);
    }
    GreaterSkips(ids, a, b);
  }

  lemma FirstOfDiffers(ids: seq<ID>, b: ID, rest: seq<ID>, limit: nat)
    requires limit > 0 && ids == [b] + rest && b !in rest
    ensures FirstOf(ids, limit) != FirstOf(rest, limit)
  {
    assert FirstOf(ids, limit)[0] == b;
  }

  lemma {:induction false} GreaterBeyond(ids: seq<ID>, b: ID)
    ensures b !in Greater(ids, b)
  {
    if ids != [] {
      GreaterBeyond(ids[1..], b);
    }
  }

  /**
    Exactly: a page holds the first tasks after the one asked for unless the
    cursor, not finding that one in the index, skips one that should be listed.
   */
  lemma PageAfterIff(index: seq<Pair>, tasks: map<ID, Task>, org: ID, q: Query)
    requires Bucket(index) && GoodEntries(index, tasks) && ValidID(org) && q.limit > 0
    requires q.after.Some? && ValidID(q.after.value)
    ensures Collect(Listing(index, SeekKey(org, q.after), CursorConfig(org, q.after)), tasks, org, q, []) ==
            Found(FirstOf(Greater(TasksOf(index, tasks, org, q.picks), q.after.value), q.limit))
       <==> !SkipsTask(index, tasks, org, q.picks, q.after.value)
  {
    var ids, a := TasksOf(index, tasks, org, q.picks), q.after.value;
    var b := Resume(index, org, a);
    PageAfter(index, tasks, org, q);
    ResumeGreater(index, tasks, org, q.picks, a);
    if SkipsTask(index, tasks, org, q.picks, a) {
      GreaterBeyond(ids, b);
      FirstOfDiffers(Greater(ids, a), b, Greater(ids, b), q.limit);
    } else {
      assert [] + Greater(ids, b) == Greater(ids, b);
    }
  }

  /** A task that is in the index is skipped itself. */
  lemma ResumeStored(index: seq<Pair>, tasks: map<ID, Task>, org: ID, a: ID)
    requires Bucket(index) && GoodEntries(index, tasks) && ValidID(org) && ValidID(a) && Stored(index, TaskOrgKey(org, a))
    ensures Resume(index, org, a) == a
  {
    StoredLands(index, TaskOrgKey(org, a));
    TaskOrgKeyPrefix(org, a, org);
    ResumeIndexed(index, tasks, org, a);
    TaskOrgKeyOrdered(org, a, Resume(index, org, a));
  }

  lemma TaskStored(index: seq<Pair>, tasks: map<ID, Task>, org: ID, k: Picks, m: nat)
    requires Bucket(index) && GoodEntries(index, tasks) && ValidID(org) && m < |TasksOf(index, tasks, org, k)|
    ensures var id := TasksOf(index, tasks, org, k)[m]; ValidID(id) && Resume(index, org, id) == id
  {
    var id := TasksOf(index, tasks, org, k)[m];
    var i := TakenMember(index, tasks, org, k, id);
    ResumeStored(index, tasks, org, id);
  }

  lemma TasksBehind(index: seq<Pair>, tasks: map<ID, Task>, org: ID, k: Picks, m: nat)
    requires Bucket(index) && GoodEntries(index, tasks) && ValidID(org) && m < |TasksOf(index, tasks, org, k)|
    ensures var ids := TasksOf(index, tasks, org, k); Greater(ids, ids[m]) == ids[m + 1..]
  {
    TasksIncreasing(index, tasks, org, k);
    GreaterSuffix(TasksOf(index, tasks, org, k), m);
  }

  /** The page after a task that is listed. */
  lemma PageBehind(index: seq<Pair>, tasks: map<ID, Task>, org: ID, q: Query, m: nat)
    requires Bucket(index) && GoodEntries(index, tasks) && ValidID(org) && q.limit > 0
    requires var ids := TasksOf(index, tasks, org, q.picks); m < |ids| && q.after == Some(ids[m])
    ensures ValidID(q.after.value)
    ensures Collect(Listing(index, SeekKey(org, q.after), CursorConfig(org, q.after)), tasks, org, q, []) ==
            Found(FirstOf(TasksOf(index, tasks, org, q.picks)[m + 1..], q.limit))
  {
    TaskStored(index, tasks, org, q.picks, m);
    PageAfter(index, tasks, org, q);
    TasksBehind(index, tasks, org, q.picks, m);
  }

  /** The task is there, indexed under the organization, and has the name, status and type asked for. */
  ghost predicate Listed(ps: seq<Pair>, tasks: map<ID, Task>, org: ID, k: Picks, id: ID) {
    id in tasks && Selected(tasks[id], k) && exists i :: 0 <= i < |ps| && Indexes(ps[i], org, id)
  }

  /** The tasks listed are exactly those of the organization that the index knows and the filter matches. */
  lemma {:induction false} TasksOfIs(ps: seq<Pair>, tasks: map<ID, Task>, org: ID, k: Picks, id: ID)
    requires ValidID(org) && GoodEntries(ps, tasks)
    ensures id in TasksOf(ps, tasks, org, k) <==> Listed(ps, tasks, org, k, id)
  {
    if id in tasks {
      MatchesIff(k, tasks[id]);
    }
    if ps != [] {
      TakenSelect(ps, All, tasks, org, k);
      TasksOfIs(ps[1..], tasks, org, k, id);
      assert (exists i :: 0 <= i < |ps| && Indexes(ps[i], org, id)) <==>
             Indexes(ps[0], org, id) || exists i :: 0 <= i < |ps[1..]| && Indexes(ps[1..][i], org, id) by {
        IndexedTail(ps, org, id);
      }
      HeadTaken(ps[0], tasks, org, k, id);
    }
  }

  lemma IndexedTail(ps: seq<Pair>, org: ID, id: ID)
    requires ps != []
    ensures (exists i :: 0 <= i < |ps| && Indexes(ps[i], org, id)) <==>
            Indexes(ps[0], org, id) || exists i :: 0 <= i < |ps[1..]| && Indexes(ps[1..][i], org, id)
  {
    if i :| 0 <= i < |ps| && Indexes(ps[i], org, id) {
      if i > 0 {
        assert Indexes(ps[1..][i - 1], org, id);
      }
    }
    if i :| 0 <= i < |ps[1..]| && Indexes(ps[1..][i], org, id) {
      assert Indexes(ps[i + 1], org, id);
    }
  }

  lemma HeadTaken(p: Pair, tasks: map<ID, Task>, org: ID, k: Picks, id: ID)
    requires ValidID(org) && GoodEntry(p, tasks)
    ensures HasPrefix(p.key, Encode(org).value) && Look(p, tasks, org, k) == Take(id) <==>
            Indexes(p, org, id) && id in tasks && Matches(k, tasks[id])
  {
    if HasPrefix(p.key, Encode(org).value) {
      var t := LookGood(p, tasks, org, k);
      if Indexes(p, org, id) {
        EncodeInjective(id, t);
      }
    } else if Indexes(p, org, id) {
      TaskOrgKeyPrefix(org, id, org);
    }
  }

  // -------------------------------------------------------- What a page holds

  lemma {:induction false} GreaterMember(ids: seq<ID>, a: ID, id: ID)
    ensures id in Greater(ids, a) <==> id in ids && id > a
  {
    if ids != [] {
      GreaterMember(ids[1..], a, id);
    }
  }

  lemma FirstOfIncreasing(ids: seq<ID>, n: nat)
    requires Increasing(ids)
    ensures |FirstOf(ids, n)| <= n && Increasing(FirstOf(ids, n))
  {
  }

  lemma FirstOfMember(ids: seq<ID>, n: nat, id: ID)
    requires Increasing(ids) && n > 0
    ensures var page := FirstOf(ids, n); id in page <==> id in ids && (|page| == n ==> id <= page[n - 1])
  {
    if i :| 0 <= i < |ids| && ids[i] == id {
      if i < |FirstOf(ids, n)| {
        assert FirstOf(ids, n)[i] == id;
      }
    }
  }

  /** The page of a query is the first tasks behind where it starts. */
  lemma PageIs(index: seq<Pair>, tasks: map<ID, Task>, org: ID, q: Query) returns (behind: seq<ID>)
    requires Bucket(index) && GoodEntries(index, tasks) && ValidID(org) && q.limit > 0
    requires q.after.Some? ==> ValidID(q.after.value)
    ensures Collect(Listing(index, SeekKey(org, q.after), CursorConfig(org, q.after)), tasks, org, q, []) ==
            Found(FirstOf(behind, q.limit))
    ensures Increasing(behind)
    ensures forall id :: id in behind <==>
              id in TasksOf(index, tasks, org, q.picks) && (q.after.Some? ==> id > Resume(index, org, q.after.value))
  {
    behind := TasksOf(index, tasks, org, q.picks);
    TasksIncreasing(index, tasks, org, q.picks);
    if q.after.None? {
      FirstPage(index, tasks, org, q);
    } else {
      PageAfter(index, tasks, org, q);
      var all, a := behind, Resume(index, org, q.after.value);
      var c := CutPoint(all, a);
      behind := Greater(all, a);
      forall id
        ensures id in behind <==> id in all && id > a
      {
        GreaterMember(all, a, id);
      }
    }
  }

  /** Exactly which tasks are on a page, by the index and the tasks' own fields. */
  lemma PageLists(index: seq<Pair>, tasks: map<ID, Task>, org: ID, q: Query, ids: seq<ID>, id: ID)
    requires Bucket(index) && GoodEntries(index, tasks) && ValidID(org) && q.limit > 0
    requires q.after.Some? ==> ValidID(q.after.value)
    requires Collect(Listing(index, SeekKey(org, q.after), CursorConfig(org, q.after)), tasks, org, q, []) == Found(ids)
    ensures |ids| <= q.limit && Increasing(ids)
    ensures id in ids <==>
            && Listed(index, tasks, org, q.picks, id)
            && (q.after.Some? ==> id > Resume(index, org, q.after.value))
            && (|ids| == q.limit ==> id <= ids[q.limit - 1])
  {
    var behind := PageIs(index, tasks, org, q);
    FirstOfIncreasing(behind, q.limit);
    FirstOfMember(behind, q.limit, id);
    TasksOfIs(index, tasks, org, q.picks, id);
  }
}
