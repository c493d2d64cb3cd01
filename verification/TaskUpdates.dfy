/**
  task.go, TaskUpdate.UpdateFlux on shared, mutable properties. The properties
  are objects, the slice is an array with a length, and the range keeps reading
  the array while the delete shifts it.
 */
module TaskUpdates {
  import opened Wrappers
  import opened TaskOptions
  import opened TaskOptionLaws

  class Property {
    var key: Key
    var value: Expression

    constructor (key: Key, value: Expression)
      ensures this.key == key && this.value == value
    {
      this.key := key;
      this.value := value;
    }

    ghost function Value(): Prop
      reads this
    {
      Prop(key, value)
    }
  }

  ghost function Values(ps: seq<Property>): (vs: seq<Prop>)
    reads ps
    ensures |vs| == |ps| && forall k :: 0 <= k < |ps| ==> vs[k] == ps[k].Value()
  {
    seq(|ps|, k requires 0 <= k < |ps| reads ps => ps[k].Value())
  }

  ghost predicate Distinct(ps: seq<Property>) {
    forall i, j :: 0 <= i < j < |ps| ==> ps[i] != ps[j]
  }

  /** The array and the properties are as the state `l` says, with `orig` the original list. */
  ghost predicate Represents(a: array<Property>, orig: seq<Property>, l: State)
    reads a, orig
  {
    && Shaped(l) && a.Length == |orig| == |l.arr|
    && (forall p :: 0 <= p < a.Length ==> a[p] == orig[l.arr[p]])
    && (forall k :: 0 <= k < |orig| ==> orig[k].Value() == l.vals[k])
  }

  lemma ShiftAt(arr: seq<nat>, len: nat, i: nat, q: nat)
    requires i < len <= |arr| && q < |arr|
    ensures |Shift(arr, len, i)| == |arr|
    ensures Shift(arr, len, i)[q] == if i <= q < len - 1 then arr[q + 1] else arr[q]
  {
  }

  /** The switch over the key of the visited property. */
  method VisitProperty(p: Property, pending: Edits) returns (op: Edits)
    modifies p
    ensures (p.Value(), op) == Visit(old(p.Value()), pending)
  {
    op := pending;
    match p.key {
      case Name =>
        if Name in op {
          p.value := op[Name];
          op := op - {Name};
        }
      case Offset =>
        if Offset in op {
          p.value := op[Offset];
          op := op - {Offset};
        }
      case Every =>
        if Every in op {
          p.value := op[Every];
          op := op - {Every};
        } else if Cron in op {
          p.value := op[Cron];
          op := op - {Cron};
          p.key := Cron;
        }
      case Cron =>
        if Cron in op {
          p.value := op[Cron];
          op := op - {Cron};
        } else if Every in op {
          p.key := Every;
          p.value := op[Every];
          op := op - {Every};
        }
      case Other(_) =>
    }
  }

  /** `append(s[:i], s[i+1:]...)`: copies down within the array that is being ranged over. */
  method DeleteAt(a: array<Property>, len: nat, i: nat, ghost orig: seq<Property>, ghost l: State)
    requires i < len <= a.Length && l.len == len && Represents(a, orig, l)
    modifies a
    ensures Represents(a, orig, State(Shift(l.arr, len, i), len - 1, l.vals, l.op))
  {
    forall q | i <= q < len - 1 {
      a[q] := a[q + 1];
    }
    forall q | 0 <= q < a.Length
      ensures a[q] == orig[Shift(l.arr, len, i)[q]]
    {
      ShiftAt(l.arr, len, i, q);
    }
  }

  /** One round of the range: delete if asked to, then visit the property read before the delete. */
  method VisitAt(a: array<Property>, i: nat, len: nat, op: Edits, del: bool, ghost orig: seq<Property>, ghost l: State)
    returns (ok: bool, len': nat, op': Edits)
    requires Distinct(orig) && Represents(a, orig, l) && i < a.Length && len == l.len && op == l.op
    modifies a, orig
    ensures ok == !OutOfRange(l, i, del)
    ensures ok ==> var r := Step(l, i, del); len' == r.len && op' == r.op && Represents(a, orig, r)
  {
    ok, len', op' := true, len, op;
    var p := a[i];
    ghost var k := l.arr[i];
    ghost var arr := l.arr;
    if del && p.key == Offset {
      if i + 1 > len {
        return false, len, op;
      }
      DeleteAt(a, len, i, orig, l);
      len' := len - 1;
      arr := Shift(l.arr, len, i);
    }
    assert p == orig[k] && p.Value() == l.vals[k];
    op' := VisitProperty(p, op);
    assert forall m :: 0 <= m < |orig| && m != k ==> orig[m] != p;
  }

  lemma RunUnfold(l: State, i: nat, del: bool)
    requires Shaped(l) && i < |l.arr|
    ensures Run(l, i, del) == if OutOfRange(l, i, del) then None else Run(Step(l, i, del), i + 1, del)
  {
  }

  lemma StartRepresents(a: array<Property>, pending: Edits)
    ensures var l := Start(Values(a[..]), pending); Represents(a, a[..], l) && l.len == a.Length && l.op == pending
  {
  }

  /** The same round, stated on the rest of the run. */
  method RangeStep(a: array<Property>, i: nat, len: nat, op: Edits, del: bool, ghost orig: seq<Property>, ghost l: State)
    returns (ok: bool, len': nat, op': Edits, ghost l': State)
    requires Distinct(orig) && Represents(a, orig, l) && i < a.Length && len == l.len && op == l.op
    modifies a, orig
    ensures ok ==> Represents(a, orig, l') && len' == l'.len && op' == l'.op
    ensures Run(l, i, del) == if ok then Run(l', i + 1, del) else None
  {
    RunUnfold(l, i, del);
    ok, len', op' := VisitAt(a, i, len, op, del, orig, l);
    l' := if ok then Step(l, i, del) else l;
  }

  /** The loop, from any state that the array represents. */
  method RangeFrom(a: array<Property>, pending: Edits, del: bool, ghost orig: seq<Property>, ghost start: State)
    returns (ok: bool, len: nat, op: Edits)
    requires Distinct(orig) && Represents(a, orig, start) && start.len == a.Length && start.op == pending
    modifies a, orig
    ensures var r := Run(start, 0, del);
            ok == r.Some? && (ok ==> len == r.value.len && op == r.value.op && Represents(a, orig, r.value))
  {
    ok, len, op := true, a.Length, pending;
    ghost var l := start;
    var i := 0;
    while i < a.Length
      modifies a, orig
      invariant 0 <= i <= a.Length && ok && len == l.len && op == l.op && Represents(a, orig, l)
      invariant Run(l, i, del) == Run(start, 0, del)
    {
      ok, len, op, l := RangeStep(a, i, len, op, del, orig, l);
      if !ok {
        return;
      }
      i := i + 1;
    }
  }

  /** The range over the properties. A false `ok` is the index out of range. */
  method RangeProperties(a: array<Property>, pending: Edits, del: bool) returns (ok: bool, len: nat, op: Edits)
    requires Distinct(a[..])
    modifies a, a[..]
    ensures var r := Run(Start(old(Values(a[..])), pending), 0, del);
            && ok == r.Some?
            && (ok ==> len == r.value.len && op == r.value.op && Represents(a, old(a[..]), r.value))
  {
    StartRepresents(a, pending);
    ok, len, op := RangeFrom(a, pending, del, a[..], Start(Values(a[..]), pending));
  }

  /** The object literal of the option; its slice of properties. */
  class ObjectExpression {
    var properties: seq<Property>

    constructor (properties: seq<Property>)
      ensures this.properties == properties
    {
      this.properties := properties;
    }

    ghost function Contents(): seq<Prop>
      reads this, properties
    {
      Values(properties)
    }
  }

  lemma ValuesSnoc(ps: seq<Property>, p: Property)
    ensures Values(ps + [p]) == Values(ps) + [p.Value()]
  {
  }

  lemma AppendedSnoc(op: Edits, order: seq<Key>, k: Key)
    requires (forall x :: x in order ==> x in op) && k in op
    ensures Appended(op, order + [k]) == Appended(op, order) + [Prop(k, op[k])]
  {
  }

  lemma EnumeratesSnoc(order: seq<Key>, keys: set<Key>, k: Key)
    requires Enumerates(order, keys) && k !in keys
    ensures Enumerates(order + [k], keys + {k})
  {
  }

  /** `for k := range op`: adds a property for each edit that is left, in some order. */
  method AddLeftOver(obj: ObjectExpression, op: Edits) returns (ghost order: seq<Key>)
    modifies obj
    ensures Enumerates(order, op.Keys)
    ensures obj.Contents() == old(obj.Contents()) + Appended(op, order)
    ensures fresh(obj.properties[|old(obj.properties)|..])
    ensures obj.properties[..|old(obj.properties)|] == old(obj.properties)
  {
    order := [];
    var rest := op.Keys;
    ghost var before, was := obj.properties, obj.Contents();
    assert was + [] == was;
    while rest != {}
      invariant rest <= op.Keys && Enumerates(order, op.Keys - rest)
      invariant |before| <= |obj.properties| && obj.properties[..|before|] == before
      invariant fresh(obj.properties[|before|..])
      invariant Values(obj.properties) == was + Appended(op, order)
      decreases rest
    {
      var k :| k in rest;
      var p := new Property(k, op[k]);
      ValuesSnoc(obj.properties, p);
      AppendedSnoc(op, order, k);
      EnumeratesSnoc(order, op.Keys - rest, k);
      assert op.Keys - (rest - {k}) == op.Keys - rest + {k};
      assert was + (Appended(op, order) + [p.Value()]) == was + Appended(op, order) + [p.Value()];
      obj.properties := obj.properties + [p];
      order := order + [k];
      rest := rest - {k};
    }
  }

  lemma SliceContents(a: array<Property>, orig: seq<Property>, l: State)
    requires Represents(a, orig, l)
    ensures Values(a[..l.len]) == TaskOptions.Contents(l)
  {
  }

  /** The function passed to `edit.Option`: the range, then the left-over edits. */
  method EditObject(obj: ObjectExpression, pending: Edits, del: bool) returns (ok: bool, ghost order: seq<Key>)
    requires Distinct(obj.properties)
    modifies obj, obj.properties
    ensures var r := Run(Start(old(obj.Contents()), pending), 0, del);
            && ok == r.Some?
            && (ok ==> Enumerates(order, r.value.op.Keys) && obj.Contents() == NewObject(r.value, order))
  {
    order := [];
    var ps := obj.properties;
    var a := new Property[|ps|](i requires 0 <= i < |ps| => ps[i]);
    assert a[..] == ps;
    ghost var was := obj.Contents();
    var len, op;
    ok, len, op := RangeProperties(a, pending, del);
    if !ok {
      return;
    }
    ghost var r := Run(Start(was, pending), 0, del).value;
    SliceContents(a, ps, r);
    obj.properties := a[..len];
    order := AddLeftOver(obj, op);
  }

  /** `edit.Option` with the edits that the options ask for. */
  method EditOption(o: Options, obj: ObjectExpression) returns (ok: bool)
    requires Distinct(obj.properties) && !BothSchedules(o)
    modifies obj, obj.properties
    ensures ok <==> !(ZeroOffset(o) && Collides(old(obj.Contents())))
    ensures ok && DistinctKeys(old(obj.Contents())) ==> RightIff(obj.Contents(), old(obj.Contents()), o)
  {
    ghost var was := obj.Contents();
    TakesChanges(Offset, o);
    PanicsIff(was, Pending(o), Deletes(o));
    ghost var order;
    ok, order := EditObject(obj, Pending(o), Deletes(o));
    if ok && DistinctKeys(was) {
      UpdateAsAskedIff(was, o, order);
    }
  }

  datatype UpdateResult = TwoSchedules | NothingToEdit | IndexOutOfRange | Rewritten

  class TaskUpdate {
    var options: Options

    constructor (options: Options)
      ensures this.options == options
    {
      this.options := options;
    }

    /** UpdateFlux from where the `task` option has been located in the parsed script. */
    method UpdateFlux(obj: ObjectExpression) returns (r: UpdateResult)
      requires Distinct(obj.properties)
      modifies this, obj, obj.properties
      ensures r == TwoSchedules <==> Nonzero(old(options).every) && old(options).cron != ""
      ensures r == NothingToEdit <==>
              && old(options).name == "" && !Nonzero(old(options).every)
              && old(options).cron == "" && old(options).offset.None?
      ensures r in {TwoSchedules, NothingToEdit} ==> obj.Contents() == old(obj.Contents())
      ensures r == IndexOutOfRange <==>
                r != TwoSchedules && ZeroOffset(old(options)) && Collides(old(obj.Contents()))
      ensures options == if r == Rewritten then Options("", [], "", None) else old(options)
      ensures r == Rewritten && DistinctKeys(old(obj.Contents())) ==>
                RightIff(obj.Contents(), old(obj.Contents()), old(options))
    {
      NothingAsked(options);
      if BothSchedules(options) {
        return TwoSchedules;
      }
      if Pending(options) == map[] && !Deletes(options) {
        return NothingToEdit;
      }
      var ok := EditOption(options, obj);
      if !ok {
        return IndexOutOfRange;
      }
      options := NO_OPTIONS;
      return Rewritten;
    }
  }
}
