/**
  bolt/kv.go: ForwardCursor and the Next and Close of its cursor. The bolt
  cursor beneath is a position in the bucket's pairs, which are sorted by key;
  `Seek` moves it to the first key at or after the one asked for.
 */
module BoltCursor {
  import opened Bytes
  import opened Wrappers

  datatype Pair = Pair(key: ByteString, value: ByteString)

  datatype Direction = Ascending | Descending

  /** kv.CursorConfig without the hints, which bolt ignores. */
  datatype Config = Config(direction: Direction, prefix: Option<ByteString>, skipFirst: bool)

  /** Keys are non-empty and strictly ascending. */
  ghost predicate Bucket(ps: seq<Pair>) {
    && (forall i :: 0 <= i < |ps| ==> ps[i].key != [])
    && (forall i, j :: 0 <= i < j < |ps| ==> Less(ps[i].key, ps[j].key))
  }

  predicate Has(prefix: Option<ByteString>, key: ByteString) {
    prefix.None? || HasPrefix(key, prefix.value)
  }

  /** Where `Seek` lands; the length of the bucket if no key follows. */
  function Landing(ps: seq<Pair>, seek: ByteString): (i: nat)
    ensures i <= |ps|
    ensures forall q :: 0 <= q < i ==> !Leq(seek, ps[q].key)
    ensures i < |ps| ==> Leq(seek, ps[i].key)
  {
    if ps == [] || Leq(seek, ps[0].key) then 0 else 1 + Landing(ps[1..], seek)
  }

  // ---------------------------------------------- What a scan is meant to list

  datatype Range = All | From(key: ByteString) | Above(key: ByteString) | UpTo(key: ByteString) | Below(key: ByteString)

  predicate In(r: Range, key: ByteString) {
    match r
    case All => true
    case From(k) => Leq(k, key)
    case Above(k) => Less(k, key)
    case UpTo(k) => Leq(key, k)
    case Below(k) => Less(key, k)
  }

  /** The pairs in a range of keys that have the prefix, in order: a scan of the whole bucket. */
  function Select(ps: seq<Pair>, r: Range, prefix: Option<ByteString>): seq<Pair> {
    if ps == [] then []
    else (if In(r, ps[0].key) && Has(prefix, ps[0].key) then [ps[0]] else []) + Select(ps[1..], r, prefix)
  }

  function Reverse<T>(s: seq<T>): seq<T> {
    if s == [] then [] else Reverse(s[1..]) + [s[0]]
  }

  lemma JoinAssoc(a: seq<Pair>, b: seq<Pair>, c: seq<Pair>)
    ensures a + (b + c) == a + b + c
  {
  }

  lemma {:induction false} SelectJoin(a: seq<Pair>, b: seq<Pair>, r: Range, prefix: Option<ByteString>)
    ensures Select(a + b, r, prefix) == Select(a, r, prefix) + Select(b, r, prefix)
  {
    if a == [] {
      assert a + b == b;
    } else {
      assert (a + b)[1..] == a[1..] + b && (a + b)[0] == a[0];
      SelectJoin(a[1..], b, r, prefix);
      var head := if In(r, a[0].key) && Has(prefix, a[0].key) then [a[0]] else [];
      JoinAssoc(head, Select(a[1..], r, prefix), Select(b, r, prefix));
    }
  }

  lemma {:induction false} SelectNone(ps: seq<Pair>, r: Range, prefix: Option<ByteString>)
    requires forall i :: 0 <= i < |ps| ==> !(In(r, ps[i].key) && Has(prefix, ps[i].key))
    ensures Select(ps, r, prefix) == []
  {
    if ps != [] {
      SelectNone(ps[1..], r, prefix);
    }
  }

  lemma {:induction false} SelectSame(ps: seq<Pair>, r: Range, t: Range, prefix: Option<ByteString>)
    requires forall i :: 0 <= i < |ps| ==> In(r, ps[i].key) == In(t, ps[i].key)
    ensures Select(ps, r, prefix) == Select(ps, t, prefix)
  {
    if ps != [] {
      SelectSame(ps[1..], r, t, prefix);
    }
  }

  lemma {:induction false} ReverseJoin<T>(a: seq<T>, b: seq<T>)
    ensures Reverse(a + b) == Reverse(b) + Reverse(a)
  {
    if a == [] {
      assert a + b == b;
    } else {
      assert (a + b)[1..] == a[1..] + b;
      ReverseJoin(a[1..], b);
    }
  }

  lemma {:induction false} ReverseLen<T>(a: seq<T>)
    ensures |Reverse(a)| == |a|
  {
    if a != [] {
      ReverseLen(a[1..]);
    }
  }

  lemma SelectHead(ps: seq<Pair>, i: nat, prefix: Option<ByteString>)
    requires i < |ps|
    ensures Select(ps[i..], All, prefix) ==
            (if Has(prefix, ps[i].key) then [ps[i]] else []) + Select(ps[i + 1..], All, prefix)
  {
    assert ps[i..][1..] == ps[i + 1..];
  }

  lemma SelectLast(ps: seq<Pair>, i: nat, prefix: Option<ByteString>)
    requires 0 < i <= |ps|
    ensures Reverse(Select(ps[..i], All, prefix)) ==
            (if Has(prefix, ps[i - 1].key) then [ps[i - 1]] else []) + Reverse(Select(ps[..i - 1], All, prefix))
  {
    var last := [ps[i - 1]];
    assert ps[..i] == ps[..i - 1] + last;
    SelectJoin(ps[..i - 1], last, All, prefix);
    ReverseJoin(Select(ps[..i - 1], All, prefix), Select(last, All, prefix));
    assert Select(last[1..], All, prefix) == [];
  }

  // --------------------------------------------------------------- The cursor

  /** The pairs with the prefix to the right of a position, and to the left in reverse. */
  ghost function RightOf(ps: seq<Pair>, pos: int, prefix: Option<ByteString>): seq<Pair>
    requires -1 <= pos <= |ps|
  {
    Select(if pos < |ps| then ps[pos + 1..] else [], All, prefix)
  }

  ghost function LeftOf(ps: seq<Pair>, pos: int, prefix: Option<ByteString>): seq<Pair>
    requires -1 <= pos <= |ps|
  {
    Reverse(Select(if pos >= 0 then ps[..pos] else [], All, prefix))
  }

  lemma RightStep(ps: seq<Pair>, pos: int, prefix: Option<ByteString>)
    requires -1 <= pos < |ps| - 1
    ensures RightOf(ps, pos, prefix) ==
            (if Has(prefix, ps[pos + 1].key) then [ps[pos + 1]] else []) + RightOf(ps, pos + 1, prefix)
  {
    SelectHead(ps, pos + 1, prefix);
  }

  lemma LeftStep(ps: seq<Pair>, pos: int, prefix: Option<ByteString>)
    requires 0 < pos <= |ps|
    ensures LeftOf(ps, pos, prefix) ==
            (if Has(prefix, ps[pos - 1].key) then [ps[pos - 1]] else []) + LeftOf(ps, pos - 1, prefix)
  {
    SelectLast(ps, pos, prefix);
  }

  class Cursor {
    const pairs: seq<Pair>
    const config: Config
    ghost const seek: ByteString  // where the scan started
    var pos: int                  // of the bolt cursor; -1 before the first pair, |pairs| after the last
    var first: Option<Pair>       // the pair that Seek returned, until it is handed out
    var closed: bool

    ghost predicate Valid()
      reads this
    {
      && Bucket(pairs) && -1 <= pos <= |pairs|
      && (first.Some? ==> 0 <= pos < |pairs| && first.value == pairs[pos])
      && Has(config.prefix, seek)
      && (config.direction == Ascending ==> forall q :: 0 <= q < |pairs| && pos <= q ==> Leq(seek, pairs[q].key))
      && (config.direction == Descending ==> forall q :: 0 <= q < pos ==> Leq(pairs[q].key, seek))
    }

    /** What the bolt cursor has still to pass, in the order of the scan. */
    ghost function Ahead(): seq<Pair>
      requires Valid()
      reads this
    {
      if config.direction == Ascending then RightOf(pairs, pos, config.prefix) else LeftOf(pairs, pos, config.prefix)
    }

    /** The pairs that the calls of Next to come will return. */
    ghost function Remaining(): seq<Pair>
      requires Valid()
      reads this
    {
      if closed then []
      else if first.None? then Ahead()
      else if Has(config.prefix, first.value.key) then [first.value] + Ahead()
      else []
    }

    constructor (pairs: seq<Pair>, config: Config, seek: ByteString)
      requires Bucket(pairs) && Has(config.prefix, seek)
      ensures Valid() && fresh(this) && !closed
      ensures this.pairs == pairs && this.config == config && this.seek == seek
      ensures pos == Landing(pairs, seek)
      ensures first == if pos < |pairs| && !config.skipFirst then Some(pairs[pos]) else None
    {
      this.pairs := pairs;
      this.config := config;
      this.seek := seek;
      var i := Landing(pairs, seek);
      pos := i;
      first := if i < |pairs| && !config.skipFirst then Some(pairs[i]) else None;
      closed := false;
      new;
      LandingSplits(pairs, seek);
    }

    /** Beyond the first pair without the prefix there is none with it. */
    lemma StopsRight()
      requires Valid() && first.None? && config.direction == Ascending && pos + 1 < |pairs|
      requires !Has(config.prefix, pairs[pos + 1].key)
      ensures Ahead() == []
    {
      forall q | pos + 1 <= q < |pairs|
        ensures !Has(config.prefix, pairs[q].key)
      {
        if q > pos + 1 && Has(config.prefix, pairs[q].key) {
          PrefixConvex(config.prefix.value, seek, pairs[pos + 1].key, pairs[q].key);
        }
      }
      SelectNone(pairs[pos + 1..], All, config.prefix);
    }

    lemma StopsLeft()
      requires Valid() && first.None? && config.direction == Descending && pos > 0
      requires !Has(config.prefix, pairs[pos - 1].key)
      ensures Ahead() == []
    {
      forall q | 0 <= q < pos
        ensures !Has(config.prefix, pairs[q].key)
      {
        if q < pos - 1 && Has(config.prefix, pairs[q].key) {
          PrefixConvex(config.prefix.value, pairs[q].key, pairs[pos - 1].key, seek);
        }
      }
      SelectNone(pairs[..pos], All, config.prefix);
    }

    /** Moving one pair to the right, stated on what is ahead before the move. */
    lemma AheadRight()
      requires Valid() && first.None? && config.direction == Ascending && pos + 1 < |pairs|
      ensures var next, rest := pairs[pos + 1], RightOf(pairs, pos + 1, config.prefix);
              if Has(config.prefix, next.key) then Ahead() == [next] + rest else Ahead() == [] && rest == []
    {
      RightStep(pairs, pos, config.prefix);
      if !Has(config.prefix, pairs[pos + 1].key) {
        StopsRight();
      }
    }

    /** `cursor.Next()` and the check of its key. */
    method MoveRight() returns (r: Option<Pair>)
      requires Valid() && first.None? && config.direction == Ascending
      modifies this`pos
      ensures Valid()
      ensures if old(Ahead()) == [] then r == None && Ahead() == []
              else r == Some(old(Ahead())[0]) && Ahead() == old(Ahead())[1..]
    {
      if pos >= |pairs| - 1 {
        pos := |pairs|;
        return None;
      }
      AheadRight();
      pos := pos + 1;
      if !Has(config.prefix, pairs[pos].key) {
        return None;
      }
      r := Some(pairs[pos]);
    }

    /** `cursor.Prev()` and the check of its key. */
    method MoveLeft() returns (r: Option<Pair>)
      requires Valid() && first.None? && config.direction == Descending
      modifies this`pos
      ensures Valid()
      ensures if old(Ahead()) == [] then r == None && Ahead() == []
              else r == Some(old(Ahead())[0]) && Ahead() == old(Ahead())[1..]
    {
      ghost var before := Ahead();
      if pos <= 0 {
        assert before == [];
        pos := -1;
        return None;
      }
      LeftStep(pairs, pos, config.prefix);
      if !Has(config.prefix, pairs[pos - 1].key) {
        StopsLeft();
      }
      pos := pos - 1;
      if !Has(config.prefix, pairs[pos].key) {
        return None;
      }
      r := Some(pairs[pos]);
    }

    /** Hands out the next pair of the scan, and nothing for ever once the scan is done. */
    method Next() returns (r: Option<Pair>)
      requires Valid()
      modifies this`pos, this`first
      ensures Valid()
      ensures if old(Remaining()) == [] then r == None && Remaining() == []
              else r == Some(old(Remaining())[0]) && Remaining() == old(Remaining())[1..]
    {
      if closed || (first.Some? && !Has(config.prefix, first.value.key)) {
        return None;
      }
      ghost var before := Remaining();
      r, first := first, None;
      if r.Some? {
        assert before == [r.value] + Ahead();
        return;
      }
      assert before == Ahead();
      if config.direction == Descending {
        r := MoveLeft();
      } else {
        r := MoveRight();
      }
    }

    method Close()
      requires Valid()
      modifies this
      ensures Valid() && Remaining() == []
    {
      closed := true;
    }
  }

  lemma LandingSplits(ps: seq<Pair>, seek: ByteString)
    requires Bucket(ps)
    ensures forall q :: 0 <= q < |ps| ==> (Landing(ps, seek) <= q <==> Leq(seek, ps[q].key))
    ensures forall q :: 0 <= q < Landing(ps, seek) ==> Leq(ps[q].key, seek)
  {
    var i := Landing(ps, seek);
    forall q | 0 <= q < |ps|
      ensures i <= q <==> Leq(seek, ps[q].key)
      ensures q < i ==> Leq(ps[q].key, seek)
    {
      if q < i {
        NotLeq(seek, ps[q].key);
      } else if q > i {
        LeqTransitive(seek, ps[i].key, ps[q].key);
      }
    }
  }
}
