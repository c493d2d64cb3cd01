/**
  task.go, TaskUpdate.UpdateFlux: the edit of the `task` option object. The
  loop ranges over the properties while it deletes from the array that it
  ranges over, so what it visits is not what the list holds.

  This module is the edit on values: a list of properties seen as an array of
  positions into the original list together with the length of the slice in
  use. `TaskUpdates` proves the loop over shared, mutable objects against it.
 */
module TaskOptions {
  import opened Wrappers

  // --------------------------------------------------------------- The option

  datatype Span = Span(magnitude: int, unit: string)

  datatype Expression =
    | StringLiteral(value: string)
    | DurationLiteral(values: seq<Span>)
    | OtherExpression(text: string)

  /** A property key, by what the edit makes of it; `Other` stands for every other name. */
  datatype Key = Name | Every | Cron | Offset | Other(name: string)

  datatype Prop = Prop(key: Key, value: Expression)

  /** task/options, Options: the fields that UpdateFlux looks at. */
  datatype Options = Options(name: string, every: seq<Span>, cron: string, offset: Option<seq<Span>>)

  const NO_OPTIONS := Options("", [], "", None)

  predicate IsZero(d: seq<Span>) {
    forall i :: 0 <= i < |d| ==> d[i].magnitude == 0
  }

  /** Both schedules requested: UpdateFlux returns an error and edits nothing. */
  predicate BothSchedules(o: Options) {
    !IsZero(o.every) && o.cron != ""
  }

  /** The map `op` of pending edits. */
  function Pending(o: Options): map<Key, Expression> {
    (if o.name != "" then map[Name := StringLiteral(o.name)] else map[]) +
    (if !IsZero(o.every) then map[Every := DurationLiteral(o.every)] else map[]) +
    (if o.cron != "" then map[Cron := StringLiteral(o.cron)] else map[]) +
    (if o.offset.Some? && !IsZero(o.offset.value) then map[Offset := DurationLiteral(o.offset.value)] else map[])
  }

  /** The set `toDelete` holds the offset. */
  predicate Deletes(o: Options) {
    o.offset.Some? && IsZero(o.offset.value)
  }

  // ----------------------------------------------------------------- One visit

  type Edits = map<Key, Expression>

  /** The pending edit that a property with this key takes up, if there is one. */
  function Takes(key: Key, op: Edits): Option<Key> {
    if key == Name || key == Offset then if key in op then Some(key) else None
    else if key == Every then
      if Every in op then Some(Every) else if Cron in op then Some(Cron) else None
    else if key == Cron then
      if Cron in op then Some(Cron) else if Every in op then Some(Every) else None
    else None
  }

  /** The switch in the loop: new key and value of the property, and the edits left. */
  function Visit(p: Prop, op: Edits): (Prop, Edits) {
    var t := Takes(p.key, op);
    if t.None? then (p, op) else (Prop(t.value, op[t.value]), op - {t.value})
  }

  // ------------------------------------------------------------------ The loop

  /**
    `arr` is the backing array, as positions in the original list; `len` the
    length of the slice; `vals` the properties as they are now.
   */
  datatype State = State(arr: seq<nat>, len: nat, vals: seq<Prop>, op: Edits)

  predicate Shaped(l: State) {
    && |l.arr| == |l.vals|
    && l.len <= |l.arr|
    && forall p :: 0 <= p < |l.arr| ==> l.arr[p] < |l.vals|
  }

  /** `append(s[:i], s[i+1:]...)` on a slice of length `len`: shifts within the array. */
  function Shift(arr: seq<nat>, len: nat, i: nat): seq<nat>
    requires i < len <= |arr|
  {
    arr[..i] + arr[i + 1..len] + arr[len - 1..]
  }

  /** The delete runs out of range: `s[i+1:]` beyond the length of the slice. */
  predicate OutOfRange(l: State, i: nat, del: bool)
    requires Shaped(l) && i < |l.arr|
  {
    del && l.vals[l.arr[i]].key == Offset && i + 1 > l.len
  }

  function Step(l: State, i: nat, del: bool): (r: State)
    requires Shaped(l) && i < |l.arr| && !OutOfRange(l, i, del)
    ensures Shaped(r) && |r.arr| == |l.arr|
  {
    var k := l.arr[i];
    var v := Visit(l.vals[k], l.op);
    if del && l.vals[k].key == Offset then
      State(Shift(l.arr, l.len, i), l.len - 1, l.vals[k := v.0], v.1)
    else State(l.arr, l.len, l.vals[k := v.0], v.1)
  }

  /** The rest of the range from index `i`; `None` is the panic. */
  function Run(l: State, i: nat, del: bool): (r: Option<State>)
    requires Shaped(l) && i <= |l.arr|
    ensures r.Some? ==> Shaped(r.value) && |r.value.arr| == |l.arr|
    decreases |l.arr| - i
  {
    if i == |l.arr| then Some(l)
    else if OutOfRange(l, i, del) then None
    else Run(Step(l, i, del), i + 1, del)
  }

  function Identity(n: nat): (arr: seq<nat>)
    ensures |arr| == n && forall p :: 0 <= p < n ==> arr[p] == p
  {
    seq(n, p => p)
  }

  function Start(props: seq<Prop>, op: Edits): (l: State)
    ensures Shaped(l) && |l.arr| == |props|
  {
    State(Identity(|props|), |props|, props, op)
  }

  /** What the slice holds. */
  function Contents(l: State): (ps: seq<Prop>)
    requires Shaped(l)
    ensures |ps| == l.len && forall p :: 0 <= p < l.len ==> ps[p] == l.vals[l.arr[p]]
  {
    seq(l.len, p requires 0 <= p < l.len => l.vals[l.arr[p]])
  }

  // ------------------------------------------------------- When the loop panics

  predicate IsOffset(p: Prop) {
    p.key == Offset
  }

  /**
    The last property is an offset and so is an earlier one: after the first
    delete the last array slot still holds the last property, one past the slice.
   */
  ghost predicate Collides(props: seq<Prop>) {
    && props != [] && IsOffset(props[|props| - 1])
    && exists j :: 0 <= j < |props| - 1 && IsOffset(props[j])
  }

  function Min(a: int, b: int): int {
    if a < b then a else b
  }

  /** With `c` deletes done, array slot `p` still to be read holds property `p + c`, or the last one. */
  ghost predicate Ahead(props: seq<Prop>, l: State, i: nat) {
    var n, c := |props|, |props| - l.len;
    && Shaped(l) && |l.arr| == n && i <= n && 0 <= c <= i
    && (forall p :: i <= p < n ==> l.arr[p] == Min(p + c, n - 1))
    && (forall k :: 0 <= k < n ==> IsOffset(l.vals[k]) == IsOffset(props[k]))
  }

  lemma AheadStep(props: seq<Prop>, l: State, i: nat, del: bool)
    requires Ahead(props, l, i) && i < |props| && !OutOfRange(l, i, del)
    ensures Ahead(props, Step(l, i, del), i + 1)
    ensures Step(l, i, del).len == l.len - if del && IsOffset(l.vals[l.arr[i]]) then 1 else 0
  {
    var n, r := |props|, Step(l, i, del);
    if del && IsOffset(l.vals[l.arr[i]]) {
      forall p | i + 1 <= p < n
        ensures r.arr[p] == Min(p + n - r.len, n - 1)
      {
        if p < l.len - 1 {
          assert r.arr[p] == l.arr[p + 1];
        } else {
          assert r.arr[p] == l.arr[p];
        }
      }
    }
  }

  lemma {:induction false} RunsThrough(props: seq<Prop>, l: State, i: nat, del: bool)
    requires Ahead(props, l, i)
    requires del && props != [] && IsOffset(props[|props| - 1]) ==>
               l.len == |props| && forall j :: i <= j < |props| - 1 ==> !IsOffset(props[j])
    ensures Run(l, i, del).Some?
    decreases |props| - i
  {
    if i < |props| {
      AheadStep(props, l, i, del);
      if !(del && IsOffset(props[|props| - 1]) && i == |props| - 1) {
        RunsThrough(props, Step(l, i, del), i + 1, del);
      }
    }
  }

  lemma {:induction false} RunsOut(props: seq<Prop>, l: State, i: nat)
    requires Ahead(props, l, i) && i < |props| && IsOffset(props[|props| - 1])
    requires l.len < |props| || exists j :: i <= j < |props| - 1 && IsOffset(props[j])
    ensures Run(l, i, true) == None
    decreases |props| - i
  {
    if !OutOfRange(l, i, true) {
      AheadStep(props, l, i, true);
      RunsOut(props, Step(l, i, true), i + 1);
    }
  }

  /** The range indexes out of bounds exactly when an offset is to be deleted and two collide. */
  lemma PanicsIff(props: seq<Prop>, op: Edits, del: bool)
    ensures Run(Start(props, op), 0, del) == None <==> del && Collides(props)
  {
    if del && Collides(props) {
      RunsOut(props, Start(props, op), 0);
    } else {
      RunsThrough(props, Start(props, op), 0, del);
    }
  }

  /** For instance: deleting the offset of `{offset, offset}` indexes out of range. */
  lemma TwoOffsetsPanic(a: Expression, b: Expression, op: Edits)
    ensures Run(Start([Prop(Offset, a), Prop(Offset, b)], op), 0, true) == None
  {
    var props := [Prop(Offset, a), Prop(Offset, b)];
    assert IsOffset(props[0]) && IsOffset(props[1]);
    PanicsIff(props, op, true);
  }
}
