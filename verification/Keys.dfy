/** kv/encode.go and kv/task.go: composite keys made of IDs and text. */
module Keys {
  import opened Bytes
  import opened Wrappers
  import opened Ids

  /** An encoding passed to `Encode`: EncID or EncString. */
  datatype Part = IdPart(id: ID) | TextPart(text: ByteString)

  function PartBytes(p: Part): Option<ByteString> {
    match p
    case IdPart(id) => Encode(id)
    case TextPart(text) => Some(text)
  }

  /** The concatenation, and whether every part could be encoded. */
  function Concat(parts: seq<Part>): (ByteString, bool) {
    if parts == [] then ([], true)
    else
      var init := Concat(parts[..|parts| - 1]);
      var last := PartBytes(parts[|parts| - 1]);
      if !init.1 || last.None? then (init.0, false) else (init.0 + last.value, true)
  }

  /** kv/encode.go, Encode: stops at the first part that fails, with the key so far. */
  method EncodeKey(parts: seq<Part>) returns (key: ByteString, ok: bool)
    ensures (key, ok) == Concat(parts)
    ensures ok <==> forall i :: 0 <= i < |parts| ==> PartBytes(parts[i]).Some?
    ensures !ok ==> exists k :: 0 <= k < |parts| && PartBytes(parts[k]).None? && Concat(parts[..k]) == (key, true)
  {
    key, ok := [], true;
    var i := 0;
    while i < |parts|
      invariant 0 <= i <= |parts| && ok && (key, ok) == Concat(parts[..i])
      invariant forall j :: 0 <= j < i ==> PartBytes(parts[j]).Some?
    {
      assert parts[..i + 1][..i] == parts[..i];
      var part := PartBytes(parts[i]);
      if part.None? {
        ConcatStuck(parts, i + 1);
        return key, false;
      }
      key := key + part.value;
      i := i + 1;
    }
    assert parts[..i] == parts;
  }

  lemma {:induction false} ConcatStuck(parts: seq<Part>, i: nat)
    requires i <= |parts| && !Concat(parts[..i]).1
    ensures Concat(parts) == Concat(parts[..i])
    decreases |parts| - i
  {
    if i < |parts| {
      assert parts[..i + 1][..i] == parts[..i];
      ConcatStuck(parts, i + 1);
    } else {
      assert parts[..i] == parts;
    }
  }

  // -------------------------------------------------------------- Injectivity

  /** A key of `ids` and a trailing text. */
  function Composite(ids: seq<ID>, text: ByteString): ByteString
    requires forall i :: 0 <= i < |ids| ==> ValidID(ids[i])
  {
    if ids == [] then text else Encode(ids[0]).value + Composite(ids[1..], text)
  }

  function PartsOf(ids: seq<ID>, text: ByteString): seq<Part> {
    if ids == [] then [TextPart(text)] else [IdPart(ids[0])] + PartsOf(ids[1..], text)
  }

  lemma ConcatOne(p: Part)
    requires PartBytes(p).Some?
    ensures Concat([p]) == (PartBytes(p).value, true)
  {
    var none: seq<Part> := [];
    assert [p][..0] == none;
    assert Concat(none) == ([], true);
    assert [] + PartBytes(p).value == PartBytes(p).value;
  }

  lemma {:induction false} ConcatCons(p: Part, rest: seq<Part>)
    requires PartBytes(p).Some? && Concat(rest).1
    ensures Concat([p] + rest) == (PartBytes(p).value + Concat(rest).0, true)
  {
    var all := [p] + rest;
    if rest == [] {
      assert all == [p];
      ConcatOne(p);
      assert PartBytes(p).value + [] == PartBytes(p).value;
    } else {
      var init, last := rest[..|rest| - 1], PartBytes(rest[|rest| - 1]).value;
      assert all[..|all| - 1] == [p] + init;
      ConcatCons(p, init);
      assert PartBytes(p).value + Concat(init).0 + last == PartBytes(p).value + (Concat(init).0 + last);
    }
  }

  /** `Encode` of IDs and one trailing string is the composite key. */
  lemma {:induction false} CompositeIsConcat(ids: seq<ID>, text: ByteString)
    requires forall i :: 0 <= i < |ids| ==> ValidID(ids[i])
    ensures Concat(PartsOf(ids, text)) == (Composite(ids, text), true)
  {
    if ids == [] {
      ConcatOne(TextPart(text));
    } else {
      CompositeIsConcat(ids[1..], text);
      ConcatCons(IdPart(ids[0]), PartsOf(ids[1..], text));
    }
  }

  lemma EncodeLength(id: ID)
    requires ValidID(id)
    ensures |Encode(id).value| == 16
  {
  }

  /** Only keys of one ID start with the encoding of that ID. */
  lemma PrefixIsolates(id: ID, other: ID, rest: ByteString)
    requires ValidID(id) && ValidID(other)
    ensures HasPrefix(Encode(other).value + rest, Encode(id).value) <==> other == id
  {
    var a, b := Encode(other).value, Encode(id).value;
    EncodeLength(id);
    EncodeLength(other);
    assert (a + rest)[..16] == a;
    if HasPrefix(a + rest, b) {
      assert b == (a + rest)[..16];
      EncodeInjective(other, id);
    }
  }

  /** Keys of as many IDs and one trailing text are different for different parts. */
  lemma {:induction false} CompositeInjective(ids: seq<ID>, text: ByteString, ids': seq<ID>, text': ByteString)
    requires |ids| == |ids'|
    requires forall i :: 0 <= i < |ids| ==> ValidID(ids[i]) && ValidID(ids'[i])
    requires Composite(ids, text) == Composite(ids', text')
    ensures ids == ids' && text == text'
  {
    if ids != [] {
      var a, b := Encode(ids[0]).value, Encode(ids'[0]).value;
      var s, t := Composite(ids[1..], text), Composite(ids'[1..], text');
      EncodeLength(ids[0]);
      EncodeLength(ids'[0]);
      assert a == (a + s)[..16] == (b + t)[..16] == b;
      assert s == (a + s)[16..] == (b + t)[16..] == t;
      EncodeInjective(ids[0], ids'[0]);
      CompositeInjective(ids[1..], text, ids'[1..], text');
    }
  }

  /** With a different number of IDs two keys can be the same. */
  lemma CompositeAmbiguous(a: ID, b: ID)
    requires ValidID(a) && ValidID(b)
    ensures Composite([a, b], []) == Composite([a], Encode(b).value)
  {
    var none: seq<ID> := [];
    assert [a, b][1..] == [b] && [b][1..] == none && [a][1..] == none;
    assert Composite([b], []) == Encode(b).value + Composite(none, []) == Encode(b).value;
    assert Composite([a], Encode(b).value) == Encode(a).value + Composite(none, Encode(b).value);
  }

  // ----------------------------------------------------- The task index by org

  const SLASH: Byte := 47

  /** kv/task.go, taskOrgKey. */
  function TaskOrgKey(org: ID, task: ID): ByteString
    requires ValidID(org) && ValidID(task)
  {
    Encode(org).value + ([SLASH] + Encode(task).value)
  }

  /** The organization's sixteen digits, a slash, and the task's. */
  lemma TaskOrgKeyParts(org: ID, task: ID)
    requires ValidID(org) && ValidID(task)
    ensures var key := TaskOrgKey(org, task);
            |key| == 33 && Some(key[..16]) == Encode(org) && key[16] == 47 && Some(key[17..]) == Encode(task)
  {
    var a, b, key := Encode(org).value, Encode(task).value, TaskOrgKey(org, task);
    assert key[..16] == a && key[17..] == b;
  }

  lemma TaskOrgKeyPrefix(org: ID, task: ID, other: ID)
    requires ValidID(org) && ValidID(task) && ValidID(other)
    ensures HasPrefix(TaskOrgKey(org, task), Encode(other).value) <==> org == other
  {
    PrefixIsolates(other, org, [SLASH] + Encode(task).value);
  }

  lemma {:induction false} LessSamePrefix(p: ByteString, a: ByteString, b: ByteString)
    ensures Less(p + a, p + b) <==> Less(a, b)
  {
    if p == [] {
      assert p + a == a && p + b == b;
    } else {
      assert (p + a)[1..] == p[1..] + a && (p + b)[1..] == p[1..] + b;
      LessSamePrefix(p[1..], a, b);
      assert p + a == [p[0]] + (p + a)[1..] && p + b == [p[0]] + (p + b)[1..];
    }
  }

  /** Within an organization the index is ordered by task ID. */
  lemma TaskOrgKeyOrdered(org: ID, a: ID, b: ID)
    requires ValidID(org) && ValidID(a) && ValidID(b)
    ensures Less(TaskOrgKey(org, a), TaskOrgKey(org, b)) <==> a < b
    ensures TaskOrgKey(org, a) == TaskOrgKey(org, b) <==> a == b
  {
    var x, y := [SLASH] + Encode(a).value, [SLASH] + Encode(b).value;
    LessSamePrefix(Encode(org).value, x, y);
    LessSamePrefix([SLASH], Encode(a).value, Encode(b).value);
    EncodeOrdered(a, b);
    EncodeLength(org);
    if TaskOrgKey(org, a) == TaskOrgKey(org, b) {
      assert x == TaskOrgKey(org, a)[16..] == TaskOrgKey(org, b)[16..] == y;
      assert Encode(a).value == x[1..] == y[1..] == Encode(b).value;
      EncodeInjective(a, b);
    }
  }

  lemma TaskOrgKeyLeq(org: ID, a: ID, b: ID)
    requires ValidID(org) && ValidID(a) && ValidID(b)
    ensures Leq(TaskOrgKey(org, a), TaskOrgKey(org, b)) <==> a <= b
  {
    TaskOrgKeyOrdered(org, a, b);
    TaskOrgKeyOrdered(org, b, a);
    NotLeq(TaskOrgKey(org, a), TaskOrgKey(org, b));
    if a == b {
      LeqRefl(TaskOrgKey(org, a));
    }
  }
}
