/**
  kv/task.go, findTasksByOrg: a page of an organization's tasks, read off the
  index by a prefix cursor. The organization has been looked up already.
 */
module TaskListing {
  import opened Bytes
  import opened Wrappers
  import opened BoltCursor
  import opened CursorLaws
  import opened Ids
  import opened Keys

  datatype Task = Task(org: ID, kind: string, name: string, status: string)

  /** task.go, TaskFilter: what selects among an organization's tasks. */
  datatype Picks = Picks(kind: Option<string>, name: Option<string>, status: Option<string>)

  /** The rest of the filter: which page. */
  datatype Query = Query(after: Option<ID>, limit: nat, picks: Picks)

  const SYSTEM := "system"

  /** kv/task.go, newTaskMatchFn. */
  predicate Matches(k: Picks, t: Task) {
    && (k.kind.None? || (k.kind.value == SYSTEM && (t.kind == SYSTEM || t.kind == "")) || k.kind.value == t.kind)
    && (k.name.None? || k.name.value == t.name)
    && (k.status.None? || k.status.value == t.status)
  }

  /** The task has the name, the status and the type asked for, if any; no type at all is a system task's. */
  ghost predicate Selected(t: Task, k: Picks) {
    && (k.name.Some? ==> t.name == k.name.value)
    && (k.status.Some? ==> t.status == k.status.value)
    && (k.kind.Some? ==> t.kind == k.kind.value || (k.kind.value == "system" && t.kind == ""))
  }

  lemma MatchesIff(k: Picks, t: Task)
    ensures Matches(k, t) <==> Selected(t, k)
  {
  }

  datatype Found = Found(ids: seq<ID>) | InvalidTaskID | MissingPrefix

  /** What the loop makes of an index entry. */
  datatype Entry = Malformed | Skip | Leave | Take(id: ID)

  function Look(p: Pair, tasks: map<ID, Task>, org: ID, k: Picks): Entry {
    match Decode(p.value)
    case Decoded(id) =>
      if id !in tasks then Skip
      else if tasks[id].org != org then Leave
      else if Matches(k, tasks[id]) then Take(id) else Skip
    case _ => Malformed
  }

  /** What the loop returns for the pairs still to come, with `ts` collected. */
  function Collect(ps: seq<Pair>, tasks: map<ID, Task>, org: ID, q: Query, ts: seq<ID>): Found
    decreases |ps|
  {
    if ps == [] then Found(ts)
    else
      match Look(ps[0], tasks, org, q.picks)
      case Malformed => InvalidTaskID
      case Skip => Collect(ps[1..], tasks, org, q, ts)
      case Leave => Found(ts)
      case Take(id) => if |ts| + 1 >= q.limit then Found(ts + [id]) else Collect(ps[1..], tasks, org, q, ts + [id])
  }

  ghost predicate AllSelected(ids: seq<ID>, tasks: map<ID, Task>, org: ID, k: Picks) {
    forall j :: 0 <= j < |ids| ==> ids[j] in tasks && tasks[ids[j]].org == org && Selected(tasks[ids[j]], k)
  }

  lemma {:induction false} CollectSelected(ps: seq<Pair>, tasks: map<ID, Task>, org: ID, q: Query, ts: seq<ID>)
    requires AllSelected(ts, tasks, org, q.picks)
    ensures var r := Collect(ps, tasks, org, q, ts); r.Found? ==> AllSelected(r.ids, tasks, org, q.picks)
    decreases |ps|
  {
    if ps != [] {
      match Look(ps[0], tasks, org, q.picks) {
        case Skip => CollectSelected(ps[1..], tasks, org, q, ts);
        case Take(id) =>
          MatchesIff(q.picks, tasks[id]);
          CollectSelected(ps[1..], tasks, org, q, ts + [id]);
        case _ =>
      }
    }
  }

  /** The seek key and options of the cursor. */
  function SeekKey(org: ID, after: Option<ID>): ByteString
    requires ValidID(org) && (after.Some? ==> ValidID(after.value))
  {
    if after.Some? then TaskOrgKey(org, after.value) else Encode(org).value
  }

  function CursorConfig(org: ID, after: Option<ID>): Config
    requires ValidID(org)
  {
    Config(Ascending, Some(Encode(org).value), after.Some?)
  }

  lemma SeekHasPrefix(org: ID, after: Option<ID>)
    requires ValidID(org) && (after.Some? ==> ValidID(after.value))
    ensures HasPrefix(SeekKey(org, after), Encode(org).value)
  {
  }

  /** The entry names this task, and it is there. */
  ghost predicate Names(p: Pair, tasks: map<ID, Task>, id: ID) {
    Decode(p.value) == Decoded(id) && id in tasks
  }

  /**
    The body of the loop: decode the ID, find the task, check organization and
    filter. Only text that is no ID stops the listing with an error, only a task
    of another organization ends it, and only a task of this one that matches is
    taken.
   */
  method Examine(p: Pair, tasks: map<ID, Task>, org: ID, k: Picks) returns (e: Entry)
    ensures e == Malformed <==> !(|p.value| == 16 && IsHex(p.value) && Number(p.value) != 0)
    ensures e == Leave <==> exists id :: Names(p, tasks, id) && tasks[id].org != org
    ensures forall id :: e == Take(id) <==> Names(p, tasks, id) && tasks[id].org == org && Matches(k, tasks[id])
    ensures e == Look(p, tasks, org, k)
  {
    var id := Decode(p.value);
    DecodeFails(p.value);
    if !id.Decoded? {
      return Malformed;
    }
    if id.id !in tasks {
      return Skip;
    }
    assert Names(p, tasks, id.id);
    if tasks[id.id].org != org {
      return Leave;
    }
    e := if Matches(k, tasks[id.id]) then Take(id.id) else Skip;
  }

  /** kv/task.go, findTasksByOrg, for a limit that findTasks has checked and filled in. */
  method FindTasksByOrg(index: seq<Pair>, tasks: map<ID, Task>, org: ID, q: Query) returns (r: Found)
    requires Bucket(index)
    ensures r == if !ValidID(org) || (q.after.Some? && !ValidID(q.after.value)) then InvalidTaskID
                 else Collect(Listing(index, SeekKey(org, q.after), CursorConfig(org, q.after)), tasks, org, q, [])
    ensures r.Found? ==> AllSelected(r.ids, tasks, org, q.picks)
  {
    if !ValidID(org) {
      return InvalidTaskID;
    }
    if q.after.Some? && !ValidID(q.after.value) {
      return InvalidTaskID;
    }
    SeekHasPrefix(org, q.after);
    var c := ForwardCursor(index, SeekKey(org, q.after), CursorConfig(org, q.after));
    if c.None? {
      return MissingPrefix;
    }
    var cursor := c.value;
    ghost var result := Collect(cursor.Remaining(), tasks, org, q, []);
    CollectSelected(cursor.Remaining(), tasks, org, q, []);
    var ts: seq<ID> := [];
    while true
      invariant fresh(cursor) && cursor.Valid()
      invariant Collect(cursor.Remaining(), tasks, org, q, ts) == result
      decreases |cursor.Remaining()|
    {
      var next := cursor.Next();
      if next.None? {
        return Found(ts);
      }
      var e := Examine(next.value, tasks, org, q.picks);
      match e {
        case Malformed => return InvalidTaskID;
        case Skip =>
        case Leave => return Found(ts);
        case Take(id) =>
          ts := ts + [id];
          if |ts| >= q.limit {
            return Found(ts);
          }
      }
    }
  }
}
