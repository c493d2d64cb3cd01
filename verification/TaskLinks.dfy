/**
  The links of a page of tasks and the requests they decode to:
  http/task_service.go, newTasksPagingLinks and decodeGetTasksRequest, and
  task.go, TaskFilter.QueryParams.
 */
module TaskLinks {
  import opened Decimal
  import opened Wrappers
  import opened Ids
  import opened Queries
  import opened TaskListing

  const DEFAULT_PAGE_SIZE := 100
  const MAX_PAGE_SIZE := 500

  /** task.go, TaskFilter. */
  datatype TaskFilter = TaskFilter(
    after: Option<ID>, org: string, orgID: Option<ID>, user: Option<ID>, limit: int, picks: Picks)

  // -------------------------------------------------------------- The links

  function IdField(id: Option<ID>): seq<string> {
    if id.Some? then [IdText(id.value)] else []
  }

  /** What a filter says under each name. Name, status and kind are not among them. */
  function Field(f: TaskFilter, k: Param): seq<string> {
    match k
    case After => IdField(f.after)
    case OrgID => IdField(f.orgID)
    case Org => if f.org != "" then [f.org] else []
    case User => IdField(f.user)
    case Limit => if f.limit > 0 then [FormatInt(f.limit)] else []
    case _ => []
  }

  /** task.go, TaskFilter.QueryParams. */
  method QueryParams(f: TaskFilter) returns (qp: Values)
    ensures forall k :: All(qp, k) == Field(f, k)
  {
    qp := map[];
    if f.after.Some? {
      qp := qp[After := [IdText(f.after.value)]];
    }
    if f.orgID.Some? {
      qp := qp[OrgID := [IdText(f.orgID.value)]];
    }
    if f.org != "" {
      qp := qp[Org := [f.org]];
    }
    if f.user.Some? {
      qp := qp[User := [IdText(f.user.value)]];
    }
    if f.limit > 0 {
      qp := qp[Limit := [FormatInt(f.limit)]];
    }
  }

  /** The query of a link to the filter's page, and of the one after a given task. */
  function SelfQuery(f: TaskFilter): Values {
    map k | k in {After, OrgID, Org, User, Limit} :: NonEmpty(Field(f, k))
  }

  function NextQuery(f: TaskFilter, last: ID): Values {
    SelfQuery(f)[After := [IdText(last)]]
  }

  datatype Links = Links(self: Values, next: Option<Values>) | IndexOutOfRange

  /** http/task_service.go, newTasksPagingLinks, given the IDs of the page. */
  method NewTasksPagingLinks(ts: seq<ID>, f: TaskFilter) returns (r: Links)
    ensures r == IndexOutOfRange <==> f.limit < 1
    ensures r.Links? ==> Same(r.self, SelfQuery(f)) && (r.next.Some? <==> |ts| >= f.limit)
    ensures r.Links? && r.next.Some? ==> Same(r.next.value, NextQuery(f, ts[f.limit - 1]))
  {
    var params := QueryParams(f);
    var values := AddParams(map[], params);
    var self, next := values, None;
    if |ts| >= f.limit {
      if f.limit < 1 {
        return IndexOutOfRange;
      }
      values := values[After := [IdText(ts[f.limit - 1])]];
      next := Some(values);
    }
    return Links(self, next);
  }

  // ----------------------------------------------------------- The requests

  predicate GoodId(s: string) {
    s != "" ==> ParseId(s).Some?
  }

  predicate GoodLimit(s: string) {
    s != "" ==> Atoi(s).Some? && 1 <= Atoi(s).value <= MAX_PAGE_SIZE
  }

  predicate KnownOrg(name: string, orgs: map<string, ID>) {
    name != "" ==> name in orgs
  }

  predicate GoodNames(v: Values, orgs: map<string, ID>) {
    GoodId(Get(v, After)) && KnownOrg(Get(v, Org), orgs) && GoodId(Get(v, OrgID)) && GoodId(Get(v, User))
  }

  /** Requests that are not refused, where `orgs` are the organizations that can be found. */
  predicate Accepts(v: Values, orgs: map<string, ID>) {
    GoodNames(v, orgs) && GoodLimit(Get(v, Limit))
  }

  function IdOf(s: string): Option<ID> {
    if s == "" then None else ParseId(s)
  }

  function PicksOf(v: Values): Picks {
    var name, status := Get(v, Name), Get(v, Status);
    Picks(Some(SYSTEM), if name == "" then None else Some(name),
          if status == "active" || status == "inactive" then Some(status) else None)
  }

  function OrgIdOf(v: Values, orgs: map<string, ID>): Option<ID>
    requires KnownOrg(Get(v, Org), orgs)
  {
    if Get(v, OrgID) != "" then IdOf(Get(v, OrgID))
    else if Get(v, Org) != "" then Some(orgs[Get(v, Org)]) else None
  }

  /** The filter an accepted request asks for. */
  function FilterOf(v: Values, orgs: map<string, ID>): TaskFilter
    requires Accepts(v, orgs)
  {
    var org, limit := Get(v, Org), Get(v, Limit);
    TaskFilter(
      IdOf(Get(v, After)), org,
      OrgIdOf(v, orgs), IdOf(Get(v, User)), if limit == "" then DEFAULT_PAGE_SIZE else Atoi(limit).value, PicksOf(v))
  }

  datatype Request = Request(filter: TaskFilter) | BadID | UnknownOrg | BadLimit | LimitOutOfRange

  method DecodeLimit(limit: string) returns (n: int, err: Option<Request>)
    ensures err.None? <==> GoodLimit(limit)
    ensures err.None? ==> 1 <= n <= 500 && n == if limit == "" then 100 else Atoi(limit).value
    ensures err.Some? ==> err.value == if Atoi(limit).None? then BadLimit else LimitOutOfRange
  {
    err, n := None, 0;
    if limit != "" {
      var lim := Atoi(limit);
      if lim.None? {
        return 0, Some(BadLimit);
      }
      if lim.value < 1 || lim.value > MAX_PAGE_SIZE {
        return 0, Some(LimitOutOfRange);
      }
      n := lim.value;
    } else {
      n := DEFAULT_PAGE_SIZE;
    }
  }

  method DecodePicks(v: Values) returns (k: Picks)
    ensures k == PicksOf(v)
  {
    k := Picks(None, None, None);
    var status := Get(v, Status);
    if status == "active" {
      k := k.(status := Some(status));
    } else if status == "inactive" {
      k := k.(status := Some(status));
    }
    k := k.(kind := Some(SYSTEM));
    var name := Get(v, Name);
    if name != "" {
      k := k.(name := Some(name));
    }
  }

  /** Each field of the filter is what its parameter says; an organization ID goes before an organization's name. */
  ghost predicate ReadFrom(f: TaskFilter, v: Values, orgs: map<string, ID>) {
    && (if Get(v, After) == "" then f.after == None else f.after.Some? && f.after == ParseId(Get(v, After)))
    && (if Get(v, User) == "" then f.user == None else f.user.Some? && f.user == ParseId(Get(v, User)))
    && (if Get(v, OrgID) != "" then f.orgID.Some? && f.orgID == ParseId(Get(v, OrgID))
        else if Get(v, Org) != "" then Get(v, Org) in orgs && f.orgID == Some(orgs[Get(v, Org)])
        else f.orgID == None)
    && f.org == Get(v, Org)
    && (if Get(v, Limit) == "" then f.limit == 100 else Atoi(Get(v, Limit)) == Some(f.limit))
    && f.picks.kind == Some("system")
    && (f.picks.name.None? <==> Get(v, Name) == "") && (f.picks.name.Some? ==> f.picks.name.value == Get(v, Name))
    && (f.picks.status.Some? <==> Get(v, Status) in {"active", "inactive"})
    && (f.picks.status.Some? ==> f.picks.status.value == Get(v, Status))
  }

  lemma PicksRead(v: Values)
    ensures var k := PicksOf(v);
            && k.kind == Some("system")
            && (k.name.None? <==> Get(v, Name) == "") && (k.name.Some? ==> k.name.value == Get(v, Name))
            && (k.status.Some? <==> Get(v, Status) in {"active", "inactive"})
            && (k.status.Some? ==> k.status.value == Get(v, Status))
  {
  }

  lemma FilterRead(v: Values, orgs: map<string, ID>)
    requires Accepts(v, orgs)
    ensures ReadFrom(FilterOf(v, orgs), v, orgs)
  {
    PicksRead(v);
  }

  /** The parameters that name a task, an organization and a user, in the order they are looked at. */
  method DecodeNames(v: Values, orgs: map<string, ID>) returns (f: TaskFilter, err: Option<Request>)
    ensures err.None? <==> GoodNames(v, orgs)
    ensures err.None? ==>
              f == TaskFilter(IdOf(Get(v, After)), Get(v, Org), OrgIdOf(v, orgs), IdOf(Get(v, User)), 0, Picks(None, None, None))
    ensures err in {None, Some(UnknownOrg), Some(BadID)}
    ensures err == Some(UnknownOrg) <==> GoodId(Get(v, After)) && !KnownOrg(Get(v, Org), orgs)
  {
    f, err := TaskFilter(None, "", None, None, 0, Picks(None, None, None)), None;
    var after, org, oid, user := Get(v, After), Get(v, Org), Get(v, OrgID), Get(v, User);
    if after != "" {
      if ParseId(after).None? {
        return f, Some(BadID);
      }
      f := f.(after := ParseId(after));
    }
    if org != "" {
      if org !in orgs {
        return f, Some(UnknownOrg);
      }
      f := f.(org := org, orgID := Some(orgs[org]));
    }
    if oid != "" {
      if ParseId(oid).None? {
        return f, Some(BadID);
      }
      f := f.(orgID := ParseId(oid));
    }
    if user != "" {
      if ParseId(user).None? {
        return f, Some(BadID);
      }
      f := f.(user := ParseId(user));
    }
  }

  /** http/task_service.go, decodeGetTasksRequest; the first parameter at fault is reported. */
  method DecodeGetTasksRequest(v: Values, orgs: map<string, ID>) returns (r: Request)
    ensures r.Request? <==> Accepts(v, orgs)
    ensures r.Request? ==> r.filter == FilterOf(v, orgs) && 1 <= r.filter.limit <= 500
    ensures r.Request? ==> ReadFrom(r.filter, v, orgs)
    ensures r == UnknownOrg <==> GoodId(Get(v, After)) && !KnownOrg(Get(v, Org), orgs)
    ensures r == BadID <==>
            !GoodId(Get(v, After)) || (KnownOrg(Get(v, Org), orgs) && !(GoodId(Get(v, OrgID)) && GoodId(Get(v, User))))
    ensures r in {BadLimit, LimitOutOfRange} <==> GoodNames(v, orgs) && !GoodLimit(Get(v, Limit))
    ensures r == BadLimit <==> GoodNames(v, orgs) && Get(v, Limit) != "" && Atoi(Get(v, Limit)).None?
  {
    var f, fault := DecodeNames(v, orgs);
    if fault.Some? {
      return fault.value;
    }
    var limit, err := DecodeLimit(Get(v, Limit));
    if err.Some? {
      return err.value;
    }
    var picks := DecodePicks(v);
    FilterRead(v, orgs);
    return Request(f.(limit := limit, picks := picks));
  }

  // ---------------------------------------------------------- Links decoded

  const PLAIN := Picks(Some(SYSTEM), None, None)

  /** A filter that some request decodes to. */
  ghost predicate Requested(f: TaskFilter, orgs: map<string, ID>) {
    exists v :: Accepts(v, orgs) && f == FilterOf(v, orgs)
  }

  ghost predicate Sound(orgs: map<string, ID>) {
    forall o :: o in orgs ==> ValidID(orgs[o])
  }

  ghost predicate Proper(f: TaskFilter, orgs: map<string, ID>) {
    && (f.after.Some? ==> ValidID(f.after.value))
    && (f.orgID.Some? ==> ValidID(f.orgID.value))
    && (f.user.Some? ==> ValidID(f.user.value))
    && (f.org != "" ==> f.org in orgs && f.orgID.Some?)
    && 1 <= f.limit <= 500
  }

  lemma RequestedIsProper(f: TaskFilter, orgs: map<string, ID>)
    requires Requested(f, orgs) && Sound(orgs)
    ensures Proper(f, orgs) && f.picks.kind == Some(SYSTEM)
  {
  }

  lemma IdFieldReads(id: Option<ID>)
    requires id.Some? ==> ValidID(id.value)
    ensures NonEmpty(IdField(id)) == IdField(id)
    ensures GoodId(First(IdField(id))) && IdOf(First(IdField(id))) == id
  {
    if id.Some? {
      ParseIdText(id.value);
      assert NonEmpty([IdText(id.value)]) == [IdText(id.value)] + NonEmpty([]);
    }
  }

  lemma LimitReads(n: int)
    requires 1 <= n <= 500
    ensures FormatInt(n) != "" && GoodLimit(FormatInt(n)) && Atoi(FormatInt(n)).value == n
  {
    AtoiFormatInt(n);
  }

  /** What a request is for once it has passed through a link. */
  function Passed(f: TaskFilter): TaskFilter {
    f.(picks := PLAIN)
  }

  function First(ss: seq<string>): string {
    if ss == [] then "" else ss[0]
  }

  ghost predicate Says(v: Values, f: TaskFilter) {
    && Get(v, After) == First(IdField(f.after)) && Get(v, OrgID) == First(IdField(f.orgID))
    && Get(v, User) == First(IdField(f.user)) && Get(v, Org) == f.org && Get(v, Limit) == FormatInt(f.limit)
    && Get(v, Name) == "" && Get(v, Status) == ""
  }

  lemma SaysAccepted(v: Values, f: TaskFilter, orgs: map<string, ID>)
    requires Proper(f, orgs) && Says(v, f)
    ensures Accepts(v, orgs) && FilterOf(v, orgs) == Passed(f)
  {
    IdFieldReads(f.after);
    IdFieldReads(f.orgID);
    IdFieldReads(f.user);
    LimitReads(f.limit);
  }

  lemma SelfGet(f: TaskFilter, k: Param)
    ensures Get(SelfQuery(f), k) == First(NonEmpty(Field(f, k)))
  {
  }

  lemma SelfGetId(f: TaskFilter, k: Param, id: Option<ID>)
    requires Field(f, k) == IdField(id) && (id.Some? ==> ValidID(id.value))
    ensures Get(SelfQuery(f), k) == First(IdField(id))
  {
    SelfGet(f, k);
    IdFieldReads(id);
  }

  lemma SelfGetText(f: TaskFilter, k: Param, s: string)
    requires Field(f, k) == if s != "" then [s] else []
    ensures Get(SelfQuery(f), k) == s
  {
    SelfGet(f, k);
    assert NonEmpty([s]) == (if s != "" then [s] else []) + NonEmpty([]);
  }

  lemma SelfSays(f: TaskFilter, orgs: map<string, ID>)
    requires Proper(f, orgs)
    ensures Says(SelfQuery(f), f)
  {
    SelfGetId(f, After, f.after);
    SelfGetId(f, OrgID, f.orgID);
    SelfGetId(f, User, f.user);
    SelfGetText(f, Org, f.org);
    LimitReads(f.limit);
    SelfGetText(f, Limit, FormatInt(f.limit));
    SelfGetText(f, Name, "");
    SelfGetText(f, Status, "");
  }

  /** The self link of a requested page decodes to the request without its name and status. */
  lemma SelfQueryDecodes(f: TaskFilter, orgs: map<string, ID>)
    requires Proper(f, orgs)
    ensures Accepts(SelfQuery(f), orgs) && FilterOf(SelfQuery(f), orgs) == Passed(f)
  {
    SelfSays(f, orgs);
    SaysAccepted(SelfQuery(f), f, orgs);
  }

  lemma NextSays(f: TaskFilter, last: ID)
    requires Says(SelfQuery(f), f)
    ensures Says(NextQuery(f, last), f.(after := Some(last)))
  {
    var v, w := SelfQuery(f), NextQuery(f, last);
    assert forall k :: k != After ==> Get(w, k) == Get(v, k);
  }

  /** The next link decodes to the same request continued after the last task. */
  lemma NextQueryDecodes(f: TaskFilter, last: ID, orgs: map<string, ID>)
    requires Proper(f, orgs) && ValidID(last)
    ensures Accepts(NextQuery(f, last), orgs)
    ensures FilterOf(NextQuery(f, last), orgs) == Passed(f).(after := Some(last))
  {
    SelfSays(f, orgs);
    NextSays(f, last);
    SaysAccepted(NextQuery(f, last), f.(after := Some(last)), orgs);
  }

  /** Exactly: the continuation is the one asked for when no name and no status was given. */
  lemma NextKeepsRequestIff(f: TaskFilter, last: ID, orgs: map<string, ID>)
    requires Requested(f, orgs) && Sound(orgs) && ValidID(last)
    ensures Accepts(NextQuery(f, last), orgs)
    ensures FilterOf(NextQuery(f, last), orgs) == f.(after := Some(last)) <==> f.picks.name == None && f.picks.status == None
  {
    RequestedIsProper(f, orgs);
    NextQueryDecodes(f, last, orgs);
  }

  /** For instance: a request for active tasks goes on as one for all tasks. */
  lemma StatusForgotten(last: ID, v: Values)
    requires ValidID(last) && v == map[Status := ["active"]]
    ensures Accepts(v, map[]) && FilterOf(v, map[]).picks.status == Some("active")
    ensures Accepts(NextQuery(FilterOf(v, map[]), last), map[])
    ensures FilterOf(NextQuery(FilterOf(v, map[]), last), map[]).picks.status == None
  {
    var f := FilterOf(v, map[]);
    assert Requested(f, map[]);
    NextQueryDecodes(f, last, map[]);
  }
}
