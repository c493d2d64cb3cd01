/**
  What the edit of task.go, UpdateFlux does to an object with distinct keys:
  which properties the range visits, and exactly when the result is the old
  object with the requested options overriding it.
 */
module TaskOptionLaws {
  import opened Wrappers
  import opened TaskOptions

  predicate IsSchedule(key: Key) {
    key == Every || key == Cron
  }

  /** A schedule is to be set. */
  predicate SetsSchedule(op: Edits) {
    Every in op || Cron in op
  }

  /** Different keys, and not both schedules where one is to be set. */
  predicate Apart(p: Prop, q: Prop, op: Edits) {
    p.key != q.key && !(IsSchedule(p.key) && IsSchedule(q.key) && SetsSchedule(op))
  }

  predicate ApartAt(ps: seq<Prop>, op: Edits, i: nat, j: nat)
    requires i < |ps| && j < |ps|
  {
    Apart(ps[i], ps[j], op)
  }

  ghost predicate DistinctKeys(ps: seq<Prop>) {
    forall i, j :: 0 <= i < j < |ps| ==> ps[i].key != ps[j].key
  }

  /** No two properties are after the same edit. */
  ghost predicate Separate(ps: seq<Prop>, op: Edits) {
    forall i, j :: 0 <= i < j < |ps| ==> ApartAt(ps, op, i, j)
  }

  /** Edits as UpdateFlux collects them. */
  ghost predicate Collected(op: Edits, del: bool) {
    && op.Keys <= {Name, Every, Cron, Offset}
    && !(Every in op && Cron in op)
    && (del ==> Offset !in op)
  }

  ghost predicate Editable(ps: seq<Prop>, op: Edits, del: bool) {
    Separate(ps, op) && Collected(op, del)
  }

  lemma AnyApart(ps: seq<Prop>, op: Edits, i: nat, j: nat)
    requires Separate(ps, op) && i < |ps| && j < |ps| && i != j
    ensures Apart(ps[i], ps[j], op)
  {
    assert if i < j then ApartAt(ps, op, i, j) else ApartAt(ps, op, j, i);
  }

  lemma PendingCollected(o: Options)
    requires !BothSchedules(o)
    ensures Collected(Pending(o), Deletes(o))
  {
  }

  // -------------------------------------------- Visits, in whatever order

  function Edited(p: Prop, op: Edits): Prop {
    Visit(p, op).0
  }

  /** The edits taken up once the properties in `seen` have been visited. */
  ghost function Taken(ps: seq<Prop>, op: Edits, seen: set<nat>): set<Key> {
    set k | k in seen && k < |ps| && Takes(ps[k].key, op).Some? :: Takes(ps[k].key, op).value
  }

  ghost function Vals(ps: seq<Prop>, op: Edits, seen: set<nat>): (vs: seq<Prop>)
    ensures |vs| == |ps|
    ensures forall k {:trigger vs[k]} :: 0 <= k < |ps| ==> vs[k] == if k in seen then Edited(ps[k], op) else ps[k]
  {
    seq(|ps|, k requires 0 <= k < |ps| => if k in seen then Edited(ps[k], op) else ps[k])
  }

  predicate Fits(ps: seq<Prop>, arr: seq<nat>, len: nat) {
    len <= |arr| == |ps| && forall p :: 0 <= p < |arr| ==> arr[p] < |ps|
  }

  ghost function After(ps: seq<Prop>, op: Edits, arr: seq<nat>, len: nat, seen: set<nat>): (l: State)
    requires Fits(ps, arr, len)
    ensures Shaped(l) && |l.arr| == |ps|
  {
    State(arr, len, Vals(ps, op, seen), op - Taken(ps, op, seen))
  }

  lemma TakesUnique(ps: seq<Prop>, op: Edits, del: bool, k: nat, m: nat)
    requires Editable(ps, op, del) && k < |ps| && m < |ps|
    requires Takes(ps[k].key, op).Some? && Takes(ps[m].key, op) == Takes(ps[k].key, op)
    ensures k == m
  {
    if k != m {
      AnyApart(ps, op, k, m);
    }
  }

  /** A visit depends on nothing but the property itself, and a second visit is harmless. */
  lemma VisitOnce(ps: seq<Prop>, op: Edits, del: bool, seen: set<nat>, k: nat)
    requires Editable(ps, op, del) && k < |ps|
    ensures Visit(Vals(ps, op, seen)[k], op - Taken(ps, op, seen)) ==
            (Edited(ps[k], op), op - Taken(ps, op, seen + {k}))
  {
    var left, t := op - Taken(ps, op, seen), Takes(ps[k].key, op);
    if t.None? {
      assert Taken(ps, op, seen + {k}) == Taken(ps, op, seen);
      assert Takes(ps[k].key, left) == None;
    } else {
      assert Taken(ps, op, seen + {k}) == Taken(ps, op, seen) + {t.value};
      if k in seen {
        assert t.value in Taken(ps, op, seen);
        assert Takes(t.value, left) == None;
        assert left - {t.value} == left;
      } else {
        UntakenLeft(ps, op, del, seen, k);
        assert Takes(ps[k].key, left) == t;
      }
      assert op - Taken(ps, op, seen + {k}) == left - {t.value};
    }
  }

  lemma OffsetsStay(ps: seq<Prop>, op: Edits, seen: set<nat>, k: nat)
    requires k < |ps|
    ensures Vals(ps, op, seen)[k].key == Offset <==> IsOffset(ps[k])
  {
  }

  lemma StepSees(ps: seq<Prop>, op: Edits, del: bool, arr: seq<nat>, len: nat, seen: set<nat>, i: nat)
    requires Editable(ps, op, del) && Fits(ps, arr, len) && i < |arr|
    requires del && IsOffset(ps[arr[i]]) ==> i < len
    ensures !OutOfRange(After(ps, op, arr, len, seen), i, del)
    ensures Step(After(ps, op, arr, len, seen), i, del) ==
            if del && IsOffset(ps[arr[i]]) then After(ps, op, Shift(arr, len, i), len - 1, seen + {arr[i]})
            else After(ps, op, arr, len, seen + {arr[i]})
  {
    var k := arr[i];
    OffsetsStay(ps, op, seen, k);
    VisitOnce(ps, op, del, seen, k);
    assert Vals(ps, op, seen)[k := Edited(ps[k], op)] == Vals(ps, op, seen + {k});
  }

  // -------------------------------------------------- The order of the range

  /** The properties at array slots `i` to `m`. */
  ghost function Read(arr: seq<nat>, i: nat, m: nat): set<nat>
    requires i <= m <= |arr|
    decreases m - i
  {
    if i == m then {} else {arr[i]} + Read(arr, i + 1, m)
  }

  lemma {:induction false} ReadHas(arr: seq<nat>, i: nat, m: nat)
    requires i <= m <= |arr|
    ensures forall p :: i <= p < m ==> arr[p] in Read(arr, i, m)
    ensures forall k :: k in Read(arr, i, m) ==> exists p :: i <= p < m && arr[p] == k
    decreases m - i
  {
    if i < m {
      ReadHas(arr, i + 1, m);
    }
  }

  lemma RunStep(ps: seq<Prop>, op: Edits, del: bool, arr: seq<nat>, len: nat, seen: set<nat>, i: nat)
    requires Editable(ps, op, del) && Fits(ps, arr, len) && i < |arr|
    requires del && IsOffset(ps[arr[i]]) ==> i < len
    ensures Run(After(ps, op, arr, len, seen), i, del) ==
            if del && IsOffset(ps[arr[i]])
            then Run(After(ps, op, Shift(arr, len, i), len - 1, seen + {arr[i]}), i + 1, del)
            else Run(After(ps, op, arr, len, seen + {arr[i]}), i + 1, del)
  {
    StepSees(ps, op, del, arr, len, seen, i);
  }

  lemma QuietStep(ps: seq<Prop>, op: Edits, del: bool, arr: seq<nat>, len: nat, seen: set<nat>, i: nat)
    requires Editable(ps, op, del) && Fits(ps, arr, len) && i < |arr| && !(del && IsOffset(ps[arr[i]]))
    ensures Run(After(ps, op, arr, len, seen), i, del) == Run(After(ps, op, arr, len, seen + {arr[i]}), i + 1, del)
  {
    RunStep(ps, op, del, arr, len, seen, i);
  }

  lemma ReadCons(arr: seq<nat>, i: nat, m: nat, seen: set<nat>)
    requires i <= m <= |arr|
    ensures if i == m then seen + Read(arr, i, m) == seen
            else seen + {arr[i]} + Read(arr, i + 1, m) == seen + Read(arr, i, m)
  {
  }

  /** No offset to delete is read between two positions. */
  ghost predicate Quiet(ps: seq<Prop>, del: bool, arr: seq<nat>, i: nat, m: nat)
    requires i <= m <= |arr| && forall p :: 0 <= p < |arr| ==> arr[p] < |ps|
    decreases m - i
  {
    i < m ==> !(del && IsOffset(ps[arr[i]])) && Quiet(ps, del, arr, i + 1, m)
  }

  lemma {:induction false} QuietIf(ps: seq<Prop>, del: bool, arr: seq<nat>, i: nat, m: nat)
    requires i <= m <= |arr| && forall p :: 0 <= p < |arr| ==> arr[p] < |ps|
    requires forall p :: i <= p < m ==> !(del && IsOffset(ps[arr[p]]))
    ensures Quiet(ps, del, arr, i, m)
    decreases m - i
  {
    if i < m {
      QuietIf(ps, del, arr, i + 1, m);
    }
  }

  lemma QuietCons(ps: seq<Prop>, op: Edits, del: bool, arr: seq<nat>, len: nat, seen: set<nat>, i: nat, m: nat)
    requires Editable(ps, op, del) && Fits(ps, arr, len) && i < m <= |arr| && !(del && IsOffset(ps[arr[i]]))
    requires Run(After(ps, op, arr, len, seen + {arr[i]}), i + 1, del) ==
             Run(After(ps, op, arr, len, seen + {arr[i]} + Read(arr, i + 1, m)), m, del)
    ensures Run(After(ps, op, arr, len, seen), i, del) == Run(After(ps, op, arr, len, seen + Read(arr, i, m)), m, del)
  {
    ReadCons(arr, i, m, seen);
    QuietStep(ps, op, del, arr, len, seen, i);
  }

  /** Where nothing is deleted the range sees what the array holds. */
  lemma {:induction false} RunQuiet(ps: seq<Prop>, op: Edits, del: bool, arr: seq<nat>, len: nat, seen: set<nat>,
                                    i: nat, m: nat)
    requires Editable(ps, op, del) && Fits(ps, arr, len) && i <= m <= |arr| && Quiet(ps, del, arr, i, m)
    ensures Run(After(ps, op, arr, len, seen), i, del) ==
            Run(After(ps, op, arr, len, seen + Read(arr, i, m)), m, del)
    decreases m - i
  {
    if i < m {
      RunQuiet(ps, op, del, arr, len, seen + {arr[i]}, i + 1, m);
      QuietCons(ps, op, del, arr, len, seen, i, m);
    } else {
      ReadCons(arr, i, m, seen);
    }
  }

  lemma QuietEnd(ps: seq<Prop>, op: Edits, del: bool, arr: seq<nat>, len: nat, seen: set<nat>, i: nat)
    requires Editable(ps, op, del) && Fits(ps, arr, len) && i <= |arr| && Quiet(ps, del, arr, i, |arr|)
    ensures Run(After(ps, op, arr, len, seen), i, del) == Some(After(ps, op, arr, len, seen + Read(arr, i, |arr|)))
  {
    RunQuiet(ps, op, del, arr, len, seen, i, |arr|);
  }

  ghost function Below(n: nat): (s: set<nat>)
    ensures forall k: nat :: k in s <==> k < n
  {
    if n == 0 then {} else Below(n - 1) + {n - 1}
  }

  /** The array once the property at `j` has been shifted out. */
  function Shifted(n: nat, j: nat): (arr: seq<nat>)
    requires j < n
    ensures |arr| == n
    ensures forall p :: 0 <= p < n ==> arr[p] == if p < j then p else Min(p + 1, n - 1)
  {
    seq(n, p => if p < j then p else Min(p + 1, n - 1))
  }

  lemma ShiftIdentity(n: nat, j: nat)
    requires j < n
    ensures Shift(Identity(n), n, j) == Shifted(n, j)
  {
  }

  /** The range skips the property after the deleted one, unless that one is the last. */
  ghost function SeenAfterDelete(n: nat, j: nat): set<nat> {
    if j + 2 < n then Below(n) - {j + 1} else Below(n)
  }

  lemma ReadIdentity(n: nat, m: nat)
    requires m <= n
    ensures Read(Identity(n), 0, m) == Below(m)
  {
    var arr := Identity(n);
    ReadHas(arr, 0, m);
    forall k | k in Read(arr, 0, m)
      ensures k in Below(m)
    {
      var p :| 0 <= p < m && arr[p] == k;
    }
    forall k | k in Below(m)
      ensures k in Read(arr, 0, m)
    {
      assert arr[k] == k;
    }
  }

  lemma ReadShifted(n: nat, j: nat)
    requires j < n
    ensures Below(j) + {j} + Read(Shifted(n, j), j + 1, n) == SeenAfterDelete(n, j)
  {
    var arr := Shifted(n, j);
    var seen := Read(arr, j + 1, n);
    ReadHas(arr, j + 1, n);
    forall k | k in seen
      ensures k in SeenAfterDelete(n, j)
    {
      var p :| j + 1 <= p < n && arr[p] == k;
    }
    forall k | k in SeenAfterDelete(n, j)
      ensures k in Below(j) + {j} + seen
    {
      if k > j {
        assert arr[if j + 2 < n then k - 1 else n - 1] == k;
      }
    }
  }

  lemma StartsUnseen(ps: seq<Prop>, op: Edits)
    ensures Start(ps, op) == After(ps, op, Identity(|ps|), |ps|, {})
  {
    assert Vals(ps, op, {}) == ps;
    assert op - Taken(ps, op, {}) == op;
  }

  lemma RunPlain(ps: seq<Prop>, op: Edits, del: bool)
    requires Editable(ps, op, del)
    requires del ==> forall k :: 0 <= k < |ps| ==> !IsOffset(ps[k])
    ensures Run(Start(ps, op), 0, del) == Some(After(ps, op, Identity(|ps|), |ps|, Below(|ps|)))
  {
    StartsUnseen(ps, op);
    QuietIf(ps, del, Identity(|ps|), 0, |ps|);
    QuietEnd(ps, op, del, Identity(|ps|), |ps|, {}, 0);
    ReadIdentity(|ps|, |ps|);
    assert {} + Below(|ps|) == Below(|ps|);
  }

  lemma RunToDelete(ps: seq<Prop>, op: Edits, j: nat)
    requires Editable(ps, op, true) && j < |ps| && IsOffset(ps[j])
    ensures Run(Start(ps, op), 0, true) == Run(After(ps, op, Identity(|ps|), |ps|, Below(j)), j, true)
  {
    StartsUnseen(ps, op);
    NoOffsetBefore(ps, op, j);
    RunQuiet(ps, op, true, Identity(|ps|), |ps|, {}, 0, j);
    ReadIdentity(|ps|, j);
    assert {} + Below(j) == Below(j);
  }

  lemma NoOffsetBefore(ps: seq<Prop>, op: Edits, j: nat)
    requires Separate(ps, op) && j < |ps| && IsOffset(ps[j])
    ensures Quiet(ps, true, Identity(|ps|), 0, j)
  {
    var arr := Identity(|ps|);
    forall p | 0 <= p < j
      ensures !IsOffset(ps[arr[p]])
    {
      AnyApart(ps, op, p, j);
    }
    QuietIf(ps, true, arr, 0, j);
  }

  lemma NoOffsetAhead(ps: seq<Prop>, op: Edits, j: nat)
    requires Separate(ps, op) && j < |ps| && IsOffset(ps[j])
    ensures Quiet(ps, true, Shifted(|ps|, j), j + 1, |ps|)
  {
    var arr := Shifted(|ps|, j);
    forall p | j + 1 <= p < |ps|
      ensures !IsOffset(ps[arr[p]])
    {
      AnyApart(ps, op, j, arr[p]);
    }
    QuietIf(ps, true, arr, j + 1, |ps|);
  }

  lemma DeleteStep(ps: seq<Prop>, op: Edits, j: nat, seen: set<nat>)
    requires Editable(ps, op, true) && j < |ps| && IsOffset(ps[j])
    ensures Run(After(ps, op, Identity(|ps|), |ps|, seen), j, true) ==
            Run(After(ps, op, Shifted(|ps|, j), |ps| - 1, seen + {j}), j + 1, true)
  {
    assert Identity(|ps|)[j] == j;
    ShiftIdentity(|ps|, j);
    RunStep(ps, op, true, Identity(|ps|), |ps|, seen, j);
  }

  lemma AfterDelete(ps: seq<Prop>, op: Edits, arr: seq<nat>, j: nat, seen: set<nat>)
    requires Editable(ps, op, true) && j < |ps| && Fits(ps, arr, |ps| - 1) && Quiet(ps, true, arr, j + 1, |ps|)
    ensures Run(After(ps, op, arr, |ps| - 1, seen), j + 1, true) ==
            Some(After(ps, op, arr, |ps| - 1, seen + Read(arr, j + 1, |ps|)))
  {
    QuietEnd(ps, op, true, arr, |ps| - 1, seen, j + 1);
  }

  lemma RunFromDelete(ps: seq<Prop>, op: Edits, j: nat, seen: set<nat>)
    requires Editable(ps, op, true) && j < |ps| && IsOffset(ps[j])
    ensures Run(After(ps, op, Identity(|ps|), |ps|, seen), j, true) ==
            Some(After(ps, op, Shifted(|ps|, j), |ps| - 1, seen + {j} + Read(Shifted(|ps|, j), j + 1, |ps|)))
  {
    DeleteStep(ps, op, j, seen);
    NoOffsetAhead(ps, op, j);
    AfterDelete(ps, op, Shifted(|ps|, j), j, seen + {j});
  }

  /**
    With an offset to delete at `j`, the range removes exactly that property,
    and sees every property but the one after it, which it sees only if it is the last.
   */
  lemma RunDelete(ps: seq<Prop>, op: Edits, j: nat)
    requires Editable(ps, op, true) && j < |ps| && IsOffset(ps[j])
    ensures Run(Start(ps, op), 0, true) == Some(After(ps, op, Shifted(|ps|, j), |ps| - 1, SeenAfterDelete(|ps|, j)))
  {
    RunToDelete(ps, op, j);
    RunFromDelete(ps, op, j, Below(j));
    ReadShifted(|ps|, j);
  }

  // ------------------------------------------------------------- The new object

  /** Some order in which Go ranges over the edits that are left. */
  ghost predicate Enumerates(order: seq<Key>, keys: set<Key>) {
    && (forall i, j :: 0 <= i < j < |order| ==> order[i] != order[j])
    && (forall k :: k in order <==> k in keys)
  }

  function Appended(op: Edits, order: seq<Key>): (ps: seq<Prop>)
    requires forall k :: k in order ==> k in op
    ensures |ps| == |order| && forall i :: 0 <= i < |order| ==> ps[i] == Prop(order[i], op[order[i]])
  {
    seq(|order|, i requires 0 <= i < |order| => Prop(order[i], op[order[i]]))
  }

  predicate Keeps(p: Prop, del: bool) {
    !(del && IsOffset(p))
  }

  /** The old properties the edits leave alone, and the edits. */
  ghost function Expected(ps: seq<Prop>, op: Edits, del: bool): set<Prop> {
    (set p | p in ps && Keeps(p, del) && Takes(p.key, op) == None) + (set k | k in op :: Prop(k, op[k]))
  }

  ghost predicate Correct(r: seq<Prop>, ps: seq<Prop>, op: Edits, del: bool) {
    DistinctKeys(r) && (set p | p in r) == Expected(ps, op, del)
  }

  /** The slice holds every property but a deleted one, once. */
  ghost predicate Keeping(ps: seq<Prop>, del: bool, arr: seq<nat>, len: nat) {
    && Fits(ps, arr, len)
    && (forall q :: 0 <= q < len ==> Keeps(ps[arr[q]], del))
    && (forall q, q' :: 0 <= q < q' < len ==> arr[q] != arr[q'])
    && (forall k :: 0 <= k < |ps| && Keeps(ps[k], del) ==> exists q :: 0 <= q < len && arr[q] == k)
  }

  lemma EditedKeysDistinct(ps: seq<Prop>, op: Edits, del: bool, k: nat, m: nat)
    requires Editable(ps, op, del) && k < |ps| && m < |ps| && k != m
    ensures Edited(ps[k], op).key != Edited(ps[m], op).key
  {
    AnyApart(ps, op, k, m);
  }

  lemma EditedNotLeft(ps: seq<Prop>, op: Edits, del: bool, seen: set<nat>, k: nat)
    requires Editable(ps, op, del) && k < |ps|
    requires Takes(ps[k].key, op).Some? ==> k in seen
    ensures Edited(ps[k], op).key !in op - Taken(ps, op, seen)
  {
    var t := Takes(ps[k].key, op);
    if t.Some? {
      assert t.value in Taken(ps, op, seen);
    }
  }

  ghost predicate AllTaken(ps: seq<Prop>, op: Edits, seen: set<nat>) {
    forall k :: 0 <= k < |ps| && Takes(ps[k].key, op).Some? ==> k in seen
  }

  lemma ValsAllTaken(ps: seq<Prop>, op: Edits, seen: set<nat>, k: nat)
    requires k < |ps| && AllTaken(ps, op, seen)
    ensures Vals(ps, op, seen)[k] == Edited(ps[k], op)
  {
  }

  lemma ResultDistinct(ps: seq<Prop>, op: Edits, del: bool, arr: seq<nat>, len: nat, seen: set<nat>, order: seq<Key>)
    requires Editable(ps, op, del) && Keeping(ps, del, arr, len) && AllTaken(ps, op, seen)
    requires Enumerates(order, (op - Taken(ps, op, seen)).Keys)
    ensures DistinctKeys(Contents(After(ps, op, arr, len, seen)) + Appended(op - Taken(ps, op, seen), order))
  {
    var left := op - Taken(ps, op, seen);
    var kept, added := Contents(After(ps, op, arr, len, seen)), Appended(left, order);
    var r := kept + added;
    forall i, j | 0 <= i < j < |r|
      ensures r[i].key != r[j].key
    {
      if i < len {
        ValsAllTaken(ps, op, seen, arr[i]);
        EditedNotLeft(ps, op, del, seen, arr[i]);
        if j < len {
          ValsAllTaken(ps, op, seen, arr[j]);
          EditedKeysDistinct(ps, op, del, arr[i], arr[j]);
        } else {
          assert order[j - len] in left;
        }
      }
    }
  }

  lemma KeptExpected(ps: seq<Prop>, op: Edits, del: bool, arr: seq<nat>, len: nat, seen: set<nat>, q: nat)
    requires Editable(ps, op, del) && Keeping(ps, del, arr, len) && AllTaken(ps, op, seen) && q < len
    ensures Contents(After(ps, op, arr, len, seen))[q] in Expected(ps, op, del)
  {
    var p := ps[arr[q]];
    ValsAllTaken(ps, op, seen, arr[q]);
    var t := Takes(p.key, op);
    if t.Some? {
      assert Edited(p, op) == Prop(t.value, op[t.value]);
    } else {
      assert p in ps;
    }
  }

  lemma ExpectedPresent(ps: seq<Prop>, op: Edits, del: bool, arr: seq<nat>, len: nat, seen: set<nat>, order: seq<Key>,
                        p: Prop)
    requires Editable(ps, op, del) && Keeping(ps, del, arr, len) && AllTaken(ps, op, seen)
    requires Enumerates(order, (op - Taken(ps, op, seen)).Keys) && p in Expected(ps, op, del)
    ensures p in Contents(After(ps, op, arr, len, seen)) || p in Appended(op - Taken(ps, op, seen), order)
  {
    var left := op - Taken(ps, op, seen);
    if p in ps && Keeps(p, del) && Takes(p.key, op) == None {
      var k :| 0 <= k < |ps| && ps[k] == p;
      KeptMember(ps, op, del, arr, len, seen, k);
    } else {
      assert p.key in op && p.value == op[p.key];
      if p.key in left {
        var i :| 0 <= i < |order| && order[i] == p.key;
        assert Appended(left, order)[i] == p;
      } else {
        var k :| k in seen && k < |ps| && Takes(ps[k].key, op) == Some(p.key);
        KeptMember(ps, op, del, arr, len, seen, k);
      }
    }
  }

  lemma ResultMembers(ps: seq<Prop>, op: Edits, del: bool, arr: seq<nat>, len: nat, seen: set<nat>, order: seq<Key>)
    requires Editable(ps, op, del) && Keeping(ps, del, arr, len) && AllTaken(ps, op, seen)
    requires Enumerates(order, (op - Taken(ps, op, seen)).Keys)
    ensures var r := Contents(After(ps, op, arr, len, seen)) + Appended(op - Taken(ps, op, seen), order);
            (set p | p in r) == Expected(ps, op, del)
  {
    var left := op - Taken(ps, op, seen);
    var kept, added := Contents(After(ps, op, arr, len, seen)), Appended(left, order);
    forall p | p in kept + added
      ensures p in Expected(ps, op, del)
    {
      if p in kept {
        var q :| 0 <= q < len && kept[q] == p;
        KeptExpected(ps, op, del, arr, len, seen, q);
      } else {
        var q :| 0 <= q < |added| && added[q] == p;
        assert order[q] in left;
      }
    }
    forall p | p in Expected(ps, op, del)
      ensures p in kept + added
    {
      ExpectedPresent(ps, op, del, arr, len, seen, order, p);
    }
  }

  lemma KeptMember(ps: seq<Prop>, op: Edits, del: bool, arr: seq<nat>, len: nat, seen: set<nat>, k: nat)
    requires Keeping(ps, del, arr, len) && AllTaken(ps, op, seen) && k < |ps| && Keeps(ps[k], del)
    ensures Edited(ps[k], op) in Contents(After(ps, op, arr, len, seen))
  {
    var q :| 0 <= q < len && arr[q] == k;
    ValsAllTaken(ps, op, seen, k);
    assert Contents(After(ps, op, arr, len, seen))[q] == Edited(ps[k], op);
  }

  lemma UntakenLeft(ps: seq<Prop>, op: Edits, del: bool, seen: set<nat>, m: nat)
    requires Editable(ps, op, del) && m < |ps| && m !in seen && Takes(ps[m].key, op).Some?
    ensures Takes(ps[m].key, op).value in op - Taken(ps, op, seen)
  {
    forall k | k in seen && k < |ps| && Takes(ps[k].key, op) == Takes(ps[m].key, op)
      ensures false
    {
      TakesUnique(ps, op, del, m, k);
    }
  }

  /** A property whose edit the range missed keeps its old value, and the edit is added besides. */
  lemma ResultWrong(ps: seq<Prop>, op: Edits, del: bool, arr: seq<nat>, len: nat, seen: set<nat>, order: seq<Key>, m: nat)
    requires Editable(ps, op, del) && Keeping(ps, del, arr, len)
    requires Enumerates(order, (op - Taken(ps, op, seen)).Keys)
    requires m < |ps| && m !in seen && Keeps(ps[m], del) && Takes(ps[m].key, op).Some?
    ensures !Correct(Contents(After(ps, op, arr, len, seen)) + Appended(op - Taken(ps, op, seen), order), ps, op, del)
  {
    var left, t := op - Taken(ps, op, seen), Takes(ps[m].key, op).value;
    var kept, added := Contents(After(ps, op, arr, len, seen)), Appended(left, order);
    KeptAsIs(ps, op, del, arr, len, seen, m);
    UntakenLeft(ps, op, del, seen, m);
    var i :| 0 <= i < |order| && order[i] == t;
    assert added[i] == Prop(t, op[t]);
    OldAndNewWrong(kept, added, ps, op, del, m, Prop(t, op[t]));
  }

  lemma KeptAsIs(ps: seq<Prop>, op: Edits, del: bool, arr: seq<nat>, len: nat, seen: set<nat>, m: nat)
    requires Keeping(ps, del, arr, len) && m < |ps| && m !in seen && Keeps(ps[m], del)
    ensures ps[m] in Contents(After(ps, op, arr, len, seen))
  {
    var q :| 0 <= q < len && arr[q] == m;
    assert Contents(After(ps, op, arr, len, seen))[q] == ps[m];
  }

  lemma OldAndNewWrong(kept: seq<Prop>, added: seq<Prop>, ps: seq<Prop>, op: Edits, del: bool, m: nat, edit: Prop)
    requires m < |ps| && Takes(ps[m].key, op).Some? && edit == Prop(Takes(ps[m].key, op).value, op[Takes(ps[m].key, op).value])
    requires Editable(ps, op, del) && ps[m] in kept && edit in added
    ensures !Correct(kept + added, ps, op, del)
  {
    var q :| 0 <= q < |kept| && kept[q] == ps[m];
    var i :| 0 <= i < |added| && added[i] == edit;
    var r := kept + added;
    assert r[q] == ps[m] && r[|kept| + i] == edit;
    if ps[m].key != edit.key {
      assert ps[m] in r && ps[m] !in Expected(ps, op, del);
    }
  }

  // ------------------------------------------------------------ The main results

  /** The properties after the edit, with the left-over edits added in the order `order`. */
  function NewObject(l: State, order: seq<Key>): seq<Prop>
    requires Shaped(l) && forall k :: k in order ==> k in l.op
  {
    Contents(l) + Appended(l.op, order)
  }

  /** An offset is deleted that neither ends the list nor stands last but one, before a property to edit. */
  ghost predicate SkipsEdit(ps: seq<Prop>, op: Edits, del: bool) {
    del && exists j :: 0 <= j < |ps| - 2 && IsOffset(ps[j]) && Takes(ps[j + 1].key, op).Some?
  }

  lemma KeepingIdentity(ps: seq<Prop>, del: bool)
    requires del ==> forall k :: 0 <= k < |ps| ==> !IsOffset(ps[k])
    ensures Keeping(ps, del, Identity(|ps|), |ps|)
  {
    var arr := Identity(|ps|);
    forall k | 0 <= k < |ps| && Keeps(ps[k], del)
      ensures exists q :: 0 <= q < |ps| && arr[q] == k
    {
      assert arr[k] == k;
    }
  }

  lemma KeepingShifted(ps: seq<Prop>, op: Edits, j: nat)
    requires Separate(ps, op) && j < |ps| && IsOffset(ps[j])
    ensures Keeping(ps, true, Shifted(|ps|, j), |ps| - 1)
  {
    var arr := Shifted(|ps|, j);
    forall q | 0 <= q < |ps| - 1
      ensures Keeps(ps[arr[q]], true)
    {
      AnyApart(ps, op, j, arr[q]);
    }
    forall k | 0 <= k < |ps| && Keeps(ps[k], true)
      ensures exists q :: 0 <= q < |ps| - 1 && arr[q] == k
    {
      assert arr[if k < j then k else k - 1] == k;
    }
  }

  /** The new object is right if and only if the range saw every property that takes up an edit. */
  lemma CorrectIffTaken(ps: seq<Prop>, op: Edits, del: bool, arr: seq<nat>, len: nat, seen: set<nat>, order: seq<Key>)
    requires Editable(ps, op, del) && Keeping(ps, del, arr, len)
    requires Enumerates(order, After(ps, op, arr, len, seen).op.Keys)
    ensures Correct(NewObject(After(ps, op, arr, len, seen), order), ps, op, del) <==> AllTaken(ps, op, seen)
  {
    if AllTaken(ps, op, seen) {
      ResultDistinct(ps, op, del, arr, len, seen, order);
      ResultMembers(ps, op, del, arr, len, seen, order);
    } else {
      var m :| 0 <= m < |ps| && Takes(ps[m].key, op).Some? && m !in seen;
      ResultWrong(ps, op, del, arr, len, seen, order, m);
    }
  }

  lemma TakenAfterDelete(ps: seq<Prop>, op: Edits, j: nat)
    requires Editable(ps, op, true) && j < |ps| && IsOffset(ps[j])
    ensures AllTaken(ps, op, SeenAfterDelete(|ps|, j)) <==> !SkipsEdit(ps, op, true)
  {
    if SkipsEdit(ps, op, true) {
      var i :| 0 <= i < |ps| - 2 && IsOffset(ps[i]) && Takes(ps[i + 1].key, op).Some?;
      if i != j {
        AnyApart(ps, op, i, j);
      }
    }
  }

  lemma EndsDeleted(ps: seq<Prop>, op: Edits, j: nat)
    requires Editable(ps, op, true) && j < |ps| && IsOffset(ps[j])
    ensures var arr, seen := Shifted(|ps|, j), SeenAfterDelete(|ps|, j);
            && Keeping(ps, true, arr, |ps| - 1)
            && Run(Start(ps, op), 0, true) == Some(After(ps, op, arr, |ps| - 1, seen))
            && (AllTaken(ps, op, seen) <==> !SkipsEdit(ps, op, true))
  {
    RunDelete(ps, op, j);
    KeepingShifted(ps, op, j);
    TakenAfterDelete(ps, op, j);
  }

  lemma EndsPlain(ps: seq<Prop>, op: Edits, del: bool)
    requires Editable(ps, op, del) && (del ==> forall k :: 0 <= k < |ps| ==> !IsOffset(ps[k]))
    ensures var arr, seen := Identity(|ps|), Below(|ps|);
            && Keeping(ps, del, arr, |ps|)
            && Run(Start(ps, op), 0, del) == Some(After(ps, op, arr, |ps|, seen))
            && (AllTaken(ps, op, seen) <==> !SkipsEdit(ps, op, del))
  {
    RunPlain(ps, op, del);
    KeepingIdentity(ps, del);
  }

  /** Where the range ends: which array, which length, and what it has seen. */
  lemma RunEnds(ps: seq<Prop>, op: Edits, del: bool) returns (arr: seq<nat>, len: nat, seen: set<nat>)
    requires Editable(ps, op, del)
    ensures Keeping(ps, del, arr, len)
    ensures Run(Start(ps, op), 0, del) == Some(After(ps, op, arr, len, seen))
    ensures AllTaken(ps, op, seen) <==> !SkipsEdit(ps, op, del)
  {
    if del && exists j :: 0 <= j < |ps| && IsOffset(ps[j]) {
      var j :| 0 <= j < |ps| && IsOffset(ps[j]);
      arr, len, seen := Shifted(|ps|, j), |ps| - 1, SeenAfterDelete(|ps|, j);
      EndsDeleted(ps, op, j);
    } else {
      arr, len, seen := Identity(|ps|), |ps|, Below(|ps|);
      EndsPlain(ps, op, del);
    }
  }

  lemma SeparateCorrectIff(ps: seq<Prop>, op: Edits, del: bool, order: seq<Key>)
    requires Editable(ps, op, del)
    requires var l := Run(Start(ps, op), 0, del); l.Some? ==> Enumerates(order, l.value.op.Keys)
    ensures var l := Run(Start(ps, op), 0, del);
            l.Some? && (Correct(NewObject(l.value, order), ps, op, del) <==> !SkipsEdit(ps, op, del))
  {
    var arr, len, seen := RunEnds(ps, op, del);
    CorrectIffTaken(ps, op, del, arr, len, seen, order);
  }

  // --------------------------------------------------------------- Two schedules

  /** Both schedules are there, and one is to be set. */
  ghost predicate ClashAt(ps: seq<Prop>, op: Edits, a: nat, b: nat) {
    a < |ps| && b < |ps| && a != b && IsSchedule(ps[a].key) && IsSchedule(ps[b].key) && SetsSchedule(op)
  }

  ghost predicate Clash(ps: seq<Prop>, op: Edits) {
    exists a, b :: ClashAt(ps, op, a, b)
  }

  lemma SeparateIff(ps: seq<Prop>, op: Edits)
    requires DistinctKeys(ps)
    ensures Separate(ps, op) <==> !Clash(ps, op)
  {
    if Separate(ps, op) && Clash(ps, op) {
      var a, b :| ClashAt(ps, op, a, b);
      AnyApart(ps, op, a, b);
    }
    if !Clash(ps, op) {
      forall i, j | 0 <= i < j < |ps|
        ensures ApartAt(ps, op, i, j)
      {
        assert !ClashAt(ps, op, i, j);
      }
    }
  }

  /** Two ranges over the same array go the same way if they see offsets at the same places. */
  ghost predicate Alike(l: State, m: State) {
    && Shaped(l) && Shaped(m) && l.arr == m.arr && l.len == m.len
    && forall k :: 0 <= k < |l.vals| ==> IsOffset(l.vals[k]) == IsOffset(m.vals[k])
  }

  lemma StepAlike(l: State, m: State, i: nat, del: bool)
    requires Alike(l, m) && i < |l.arr|
    ensures OutOfRange(l, i, del) == OutOfRange(m, i, del)
    ensures !OutOfRange(l, i, del) ==> Alike(Step(l, i, del), Step(m, i, del))
  {
  }

  lemma {:induction false} RunAlike(l: State, m: State, i: nat, del: bool)
    requires Alike(l, m) && i <= |l.arr|
    ensures Run(l, i, del).Some? == Run(m, i, del).Some?
    ensures Run(l, i, del).Some? ==> Alike(Run(l, i, del).value, Run(m, i, del).value)
    decreases |l.arr| - i
  {
    if i < |l.arr| {
      StepAlike(l, m, i, del);
    }
    if i < |l.arr| && !OutOfRange(l, i, del) {
      RunAlike(Step(l, i, del), Step(m, i, del), i + 1, del);
    }
  }

  /** With a schedule to be set, at most one of two schedules is changed, and then to that one. */
  ghost predicate OneStays(l: State, ps: seq<Prop>, op: Edits, a: nat, b: nat) {
    && Shaped(l) && |l.vals| == |ps| && l.op.Keys <= op.Keys && ClashAt(ps, op, a, b)
    && (|| (l.vals[a] == ps[a] && l.vals[b] == ps[b])
        || (!SetsSchedule(l.op) && (OneSet(l, ps, op, a, b) || OneSet(l, ps, op, b, a))))
  }

  ghost predicate OneSet(l: State, ps: seq<Prop>, op: Edits, a: nat, b: nat)
    requires a < |l.vals| == |ps| && b < |ps|
  {
    l.vals[a] == ps[a] && IsSchedule(l.vals[b].key) && l.vals[b].key in op
  }

  lemma StepOneStays(l: State, ps: seq<Prop>, op: Edits, a: nat, b: nat, i: nat, del: bool)
    requires OneStays(l, ps, op, a, b) && i < |l.arr| && !OutOfRange(l, i, del) && !(Every in op && Cron in op)
    ensures OneStays(Step(l, i, del), ps, op, a, b)
  {
  }

  lemma {:induction false} RunOneStays(l: State, ps: seq<Prop>, op: Edits, a: nat, b: nat, i: nat, del: bool)
    requires OneStays(l, ps, op, a, b) && i <= |l.arr| && !(Every in op && Cron in op) && Run(l, i, del).Some?
    ensures OneStays(Run(l, i, del).value, ps, op, a, b)
    decreases |l.arr| - i
  {
    if i < |l.arr| {
      StepOneStays(l, ps, op, a, b, i, del);
      RunOneStays(Step(l, i, del), ps, op, a, b, i + 1, del);
    }
  }

  /** An old schedule that is kept beside the one to be set is wrong, whichever it is. */
  lemma OldScheduleWrong(r: seq<Prop>, ps: seq<Prop>, op: Edits, del: bool, p: Prop, q: nat)
    requires Collected(op, del) && SetsSchedule(op) && q < |r| && r[q] == p && p in ps && IsSchedule(p.key)
    requires p.key in op ==> exists q' :: 0 <= q' < |r| && q' != q && IsSchedule(r[q'].key)
    ensures !Correct(r, ps, op, del)
  {
    if p.key !in op {
      assert p in r && p !in Expected(ps, op, del);
    } else {
      var q' :| 0 <= q' < |r| && q' != q && IsSchedule(r[q'].key);
      if r[q'].key != p.key {
        assert r[q'] in r && r[q'] !in Expected(ps, op, del);
      }
    }
  }

  /** Where both schedules are kept, one of them as it was, the object is wrong. */
  lemma OneStaysWrong(l: State, ps: seq<Prop>, op: Edits, del: bool, a: nat, b: nat, order: seq<Key>)
    requires Collected(op, del) && OneStays(l, ps, op, a, b) && Keeping(ps, del, l.arr, l.len)
    requires Enumerates(order, l.op.Keys)
    ensures !Correct(NewObject(l, order), ps, op, del)
  {
    var qa :| 0 <= qa < l.len && l.arr[qa] == a;
    var qb :| 0 <= qb < l.len && l.arr[qb] == b;
    var r := NewObject(l, order);
    assert r[qa] == l.vals[a] && r[qb] == l.vals[b] && IsSchedule(r[qa].key) && IsSchedule(r[qb].key);
    if l.vals[a] == ps[a] {
      OldScheduleWrong(r, ps, op, del, ps[a], qa);
    } else {
      OldScheduleWrong(r, ps, op, del, ps[b], qb);
    }
  }

  lemma ClashWrong(ps: seq<Prop>, op: Edits, del: bool, order: seq<Key>, a: nat, b: nat)
    requires DistinctKeys(ps) && Collected(op, del) && ClashAt(ps, op, a, b)
    requires var l := Run(Start(ps, op), 0, del); l.Some? ==> Enumerates(order, l.value.op.Keys)
    ensures var l := Run(Start(ps, op), 0, del); l.Some? && !Correct(NewObject(l.value, order), ps, op, del)
  {
    var arr, len, seen := RunEnds(ps, map[], del);
    RunAlike(Start(ps, op), Start(ps, map[]), 0, del);
    RunOneStays(Start(ps, op), ps, op, a, b, 0, del);
    OneStaysWrong(Run(Start(ps, op), 0, del).value, ps, op, del, a, b, order);
  }

  /**
    The edit never panics on distinct keys, and the new object is the old one
    with the edits overriding it exactly when no edit is skipped and no schedule
    is set where both were.
   */
  lemma EditCorrectIff(ps: seq<Prop>, op: Edits, del: bool, order: seq<Key>)
    requires DistinctKeys(ps) && Collected(op, del)
    requires var l := Run(Start(ps, op), 0, del); l.Some? ==> Enumerates(order, l.value.op.Keys)
    ensures var l := Run(Start(ps, op), 0, del);
            && l.Some?
            && (Correct(NewObject(l.value, order), ps, op, del) <==> !SkipsEdit(ps, op, del) && !Clash(ps, op))
  {
    SeparateIff(ps, op);
    if Separate(ps, op) {
      SeparateCorrectIff(ps, op, del, order);
    } else {
      var a, b :| ClashAt(ps, op, a, b);
      ClashWrong(ps, op, del, order, a, b);
    }
  }

  /** Setting the cron schedule of `{every, cron}` leaves two. */
  lemma TwoCrons(every: Expression, was: Expression, cron: Expression)
    ensures var l := Run(Start([Prop(Every, every), Prop(Cron, was)], map[Cron := cron]), 0, false);
            l.Some? && l.value.op == map[] && Contents(l.value) == [Prop(Cron, cron), Prop(Cron, was)]
  {
    var op := map[Cron := cron];
    var l := Start([Prop(Every, every), Prop(Cron, was)], op);
    var m := Step(l, 0, false);
    assert m == State([0, 1], 2, [Prop(Cron, cron), Prop(Cron, was)], map[]);
    assert Step(m, 1, false) == m;
    assert Run(m, 1, false) == Run(m, 2, false) == Some(m);
  }

  /** Editing `{offset, every, name}` to a cron schedule without offset leaves both schedules. */
  lemma SchedulesCoexist(offset: Expression, every: Expression, name: Expression, cron: Expression)
    ensures var ps := [Prop(Offset, offset), Prop(Every, every), Prop(Name, name)];
            var l := Run(Start(ps, map[Cron := cron]), 0, true);
            && l.Some? && l.value.op.Keys == {Cron}
            && NewObject(l.value, [Cron]) == [Prop(Every, every), Prop(Name, name), Prop(Cron, cron)]
  {
    var ps, op := [Prop(Offset, offset), Prop(Every, every), Prop(Name, name)], map[Cron := cron];
    RunDelete(ps, op, 0);
    var l := After(ps, op, Shifted(3, 0), 2, SeenAfterDelete(3, 0));
    assert Taken(ps, op, SeenAfterDelete(3, 0)) == {};
    assert Contents(l) == [Prop(Every, every), Prop(Name, name)];
  }

  // ------------------------------------------------------- What was asked for

  /** A duration with some part that is not zero. */
  ghost predicate Nonzero(d: seq<Span>) {
    exists i :: 0 <= i < |d| && d[i].magnitude != 0
  }

  /**
    The properties that the object should hold, said of the options alone: under
    each key the new value if one was asked for and the old one otherwise, no
    offset if a zero one was asked for, and no other schedule than a new one.
   */
  ghost predicate Wanted(p: Prop, ps: seq<Prop>, o: Options) {
    match p.key
    case Name => if o.name != "" then p.value == StringLiteral(o.name) else p in ps
    case Every =>
      if Nonzero(o.every) then p.value == DurationLiteral(o.every) else o.cron == "" && p in ps
    case Cron =>
      if o.cron != "" then p.value == StringLiteral(o.cron) else !Nonzero(o.every) && p in ps
    case Offset =>
      if o.offset.None? then p in ps
      else Nonzero(o.offset.value) && p.value == DurationLiteral(o.offset.value)
    case Other(_) => p in ps
  }

  ghost predicate AsAsked(r: seq<Prop>, ps: seq<Prop>, o: Options) {
    DistinctKeys(r) && forall p :: p in r <==> Wanted(p, ps, o)
  }

  /** A property under this key is to be given a new value. */
  ghost predicate Changes(key: Key, o: Options) {
    || (key == Name && o.name != "")
    || ((key == Every || key == Cron) && (Nonzero(o.every) || o.cron != ""))
    || (key == Offset && o.offset.Some? && Nonzero(o.offset.value))
  }

  ghost predicate ZeroOffset(o: Options) {
    o.offset.Some? && !Nonzero(o.offset.value)
  }

  /** The offset goes, and right after it, not at the end, stands a property to change. */
  ghost predicate SkipsChange(ps: seq<Prop>, o: Options) {
    ZeroOffset(o) && exists j :: 0 <= j < |ps| - 2 && ps[j].key == Offset && Changes(ps[j + 1].key, o)
  }

  /** A schedule is set on an object that has both. */
  ghost predicate SetsOneOfTwo(ps: seq<Prop>, o: Options) {
    && (Nonzero(o.every) || o.cron != "")
    && (exists p :: p in ps && p.key == Every) && (exists p :: p in ps && p.key == Cron)
  }

  lemma TakesChanges(key: Key, o: Options)
    ensures Takes(key, Pending(o)).Some? <==> Changes(key, o)
    ensures Deletes(o) <==> ZeroOffset(o)
  {
  }

  lemma NothingAsked(o: Options)
    ensures Pending(o) == map[] && !Deletes(o) <==>
            o.name == "" && !Nonzero(o.every) && o.cron == "" && o.offset.None?
    ensures BothSchedules(o) <==> Nonzero(o.every) && o.cron != ""
  {
    var op := Pending(o);
    assert Name in op <==> o.name != "";
    assert Every in op <==> Nonzero(o.every);
    assert Cron in op <==> o.cron != "";
    assert Offset in op <==> o.offset.Some? && Nonzero(o.offset.value);
    assert op == map[] <==> Name !in op && Every !in op && Cron !in op && Offset !in op;
  }

  lemma ExpectedWanted(p: Prop, ps: seq<Prop>, o: Options)
    requires !BothSchedules(o)
    ensures p in Expected(ps, Pending(o), Deletes(o)) <==> Wanted(p, ps, o)
  {
    var op := Pending(o);
    TakesChanges(p.key, o);
    assert p in Expected(ps, op, Deletes(o)) <==>
           (p in ps && Keeps(p, Deletes(o)) && Takes(p.key, op) == None) || (p.key in op && p.value == op[p.key]);
  }

  lemma CorrectAsAsked(r: seq<Prop>, ps: seq<Prop>, o: Options)
    requires !BothSchedules(o)
    ensures Correct(r, ps, Pending(o), Deletes(o)) <==> AsAsked(r, ps, o)
  {
    var want := Expected(ps, Pending(o), Deletes(o));
    forall p
      ensures p in want <==> Wanted(p, ps, o)
    {
      ExpectedWanted(p, ps, o);
    }
    var have := set p | p in r;
    assert forall p :: p in have <==> p in r;
  }

  lemma SkipsSame(ps: seq<Prop>, o: Options)
    ensures SkipsEdit(ps, Pending(o), Deletes(o)) <==> SkipsChange(ps, o)
  {
    forall key
      ensures Takes(key, Pending(o)).Some? <==> Changes(key, o)
    {
      TakesChanges(key, o);
    }
    TakesChanges(Offset, o);
  }

  lemma ClashSame(ps: seq<Prop>, o: Options)
    requires DistinctKeys(ps)
    ensures Clash(ps, Pending(o)) <==> SetsOneOfTwo(ps, o)
  {
    if Clash(ps, Pending(o)) {
      var a: nat, b: nat :| ClashAt(ps, Pending(o), a, b);
      assert ps[a] in ps && ps[b] in ps && ps[a].key != ps[b].key;
    }
    if SetsOneOfTwo(ps, o) {
      var p :| p in ps && p.key == Every;
      var q :| q in ps && q.key == Cron;
      var a: nat, b: nat :| a < |ps| && b < |ps| && ps[a] == p && ps[b] == q;
      assert ClashAt(ps, Pending(o), a, b);
    }
  }

  /** The object is as asked exactly if no property was skipped and there was one schedule to set. */
  ghost predicate RightIff(r: seq<Prop>, ps: seq<Prop>, o: Options) {
    AsAsked(r, ps, o) <==> !SkipsChange(ps, o) && !SetsOneOfTwo(ps, o)
  }

  /**
    Exactly: the object ends as the options ask if and only if no property to
    change is skipped and no schedule is set on an object that has both.
   */
  lemma UpdateAsAskedIff(ps: seq<Prop>, o: Options, order: seq<Key>)
    requires DistinctKeys(ps) && !BothSchedules(o)
    requires var l := Run(Start(ps, Pending(o)), 0, Deletes(o)); l.Some? ==> Enumerates(order, l.value.op.Keys)
    ensures var l := Run(Start(ps, Pending(o)), 0, Deletes(o));
            l.Some? && RightIff(NewObject(l.value, order), ps, o)
  {
    PendingCollected(o);
    EditCorrectIff(ps, Pending(o), Deletes(o), order);
    CorrectAsAsked(NewObject(Run(Start(ps, Pending(o)), 0, Deletes(o)).value, order), ps, o);
    SkipsSame(ps, o);
    ClashSame(ps, o);
  }

  // ---------------------------------------------------------------- Idempotence

  lemma CorrectEditable(r: seq<Prop>, ps: seq<Prop>, op: Edits, del: bool)
    requires Editable(ps, op, del) && Correct(r, ps, op, del)
    ensures Editable(r, op, del)
    ensures del ==> forall k :: 0 <= k < |r| ==> !IsOffset(r[k])
  {
    forall i, j | 0 <= i < j < |r|
      ensures ApartAt(r, op, i, j)
    {
      assert r[i] in Expected(ps, op, del) && r[j] in Expected(ps, op, del);
      if r[i] in ps && r[j] in ps {
        var k, m :| 0 <= k < |ps| && 0 <= m < |ps| && ps[k] == r[i] && ps[m] == r[j];
        AnyApart(ps, op, k, m);
      }
    }
    forall k | 0 <= k < |r|
      ensures del ==> !IsOffset(r[k])
    {
      assert r[k] in Expected(ps, op, del);
    }
  }

  lemma CorrectStays(r: seq<Prop>, ps: seq<Prop>, op: Edits, del: bool, k: nat)
    requires Editable(ps, op, del) && Correct(r, ps, op, del) && k < |r|
    ensures Edited(r[k], op) == r[k]
  {
    assert r[k] in Expected(ps, op, del);
  }

  /** Repeating an edit that came out right changes nothing and adds nothing. */
  lemma EditIdempotent(r: seq<Prop>, ps: seq<Prop>, op: Edits, del: bool)
    requires Editable(ps, op, del) && Correct(r, ps, op, del)
    ensures var l := Run(Start(r, op), 0, del);
            l.Some? && l.value.op == map[] && Contents(l.value) == r
  {
    CorrectEditable(r, ps, op, del);
    RunPlain(r, op, del);
    ValsStay(r, ps, op, del);
    AllTakenUp(r, ps, op, del);
    assert op - Taken(r, op, Below(|r|)) == map[];
  }

  lemma ValsStay(r: seq<Prop>, ps: seq<Prop>, op: Edits, del: bool)
    requires Editable(ps, op, del) && Correct(r, ps, op, del)
    ensures Contents(After(r, op, Identity(|r|), |r|, Below(|r|))) == r
  {
    forall k | 0 <= k < |r|
      ensures Vals(r, op, Below(|r|))[k] == r[k]
    {
      CorrectStays(r, ps, op, del, k);
    }
  }

  lemma AllTakenUp(r: seq<Prop>, ps: seq<Prop>, op: Edits, del: bool)
    requires Editable(ps, op, del) && Correct(r, ps, op, del)
    ensures op.Keys <= Taken(r, op, Below(|r|))
  {
    forall key | key in op
      ensures key in Taken(r, op, Below(|r|))
    {
      assert Prop(key, op[key]) in Expected(ps, op, del);
      var k :| 0 <= k < |r| && r[k] == Prop(key, op[key]);
      assert Takes(r[k].key, op) == Some(key);
    }
  }
}
