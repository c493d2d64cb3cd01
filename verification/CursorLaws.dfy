/**
  bolt/kv.go, ForwardCursor: what a cursor lists, and exactly when that is the
  range of keys that its seek key, direction and options ask for.
 */
module CursorLaws {
  import opened Bytes
  import opened Wrappers
  import opened BoltCursor

  /** A descending cursor without a seek key starts at the last key. */
  function StartKey(ps: seq<Pair>, seek: ByteString, direction: Direction): ByteString {
    if seek == [] && direction == Descending && ps != [] then ps[|ps| - 1].key else seek
  }

  /** What is listed from where `Seek` lands. */
  function Listing(ps: seq<Pair>, seek: ByteString, config: Config): seq<Pair> {
    var i := Landing(ps, seek);
    var ahead :=
      if config.direction == Ascending
      then Select(if i < |ps| then ps[i + 1..] else [], All, config.prefix)
      else Reverse(Select(ps[..i], All, config.prefix));
    if i == |ps| || config.skipFirst then ahead
    else if Has(config.prefix, ps[i].key) then [ps[i]] + ahead
    else []
  }

  /** bolt/kv.go, Bucket.ForwardCursor. `None` is ErrSeekMissingPrefix. */
  method ForwardCursor(ps: seq<Pair>, seek: ByteString, config: Config) returns (c: Option<Cursor>)
    requires Bucket(ps)
    ensures c.Some? <==> Has(config.prefix, StartKey(ps, seek, config.direction))
    ensures c.Some? ==> fresh(c.value) && c.value.Valid()
    ensures c.Some? ==> c.value.Remaining() == Listing(ps, StartKey(ps, seek, config.direction), config)
  {
    var key := seek;
    if |key| == 0 && config.direction == Descending && ps != [] {
      key := ps[|ps| - 1].key;
    }
    if config.prefix.Some? && !HasPrefix(key, config.prefix.value) {
      return None;
    }
    var cursor := new Cursor(ps, config, key);
    c := Some(cursor);
  }

  // --------------------------------------------------------------- Ascending

  lemma SelectUpper(ps: seq<Pair>, r: Range, j: nat, prefix: Option<ByteString>)
    requires j <= |ps| && forall q :: 0 <= q < |ps| ==> (In(r, ps[q].key) <==> j <= q)
    ensures Select(ps, r, prefix) == Select(ps[j..], All, prefix)
  {
    assert ps == ps[..j] + ps[j..];
    SelectJoin(ps[..j], ps[j..], r, prefix);
    SelectNone(ps[..j], r, prefix);
    SelectSame(ps[j..], r, All, prefix);
  }

  lemma SelectLower(ps: seq<Pair>, r: Range, j: nat, prefix: Option<ByteString>)
    requires j <= |ps| && forall q :: 0 <= q < |ps| ==> (In(r, ps[q].key) <==> q < j)
    ensures Select(ps, r, prefix) == Select(ps[..j], All, prefix)
  {
    assert ps == ps[..j] + ps[j..];
    SelectJoin(ps[..j], ps[j..], r, prefix);
    SelectNone(ps[j..], r, prefix);
    SelectSame(ps[..j], r, All, prefix);
  }

  lemma SelectFrom(ps: seq<Pair>, seek: ByteString, prefix: Option<ByteString>)
    requires Bucket(ps)
    ensures Select(ps, From(seek), prefix) == Select(ps[Landing(ps, seek)..], All, prefix)
  {
    LandingSplits(ps, seek);
    SelectUpper(ps, From(seek), Landing(ps, seek), prefix);
  }

  ghost predicate Stored(ps: seq<Pair>, key: ByteString) {
    exists q :: 0 <= q < |ps| && ps[q].key == key
  }

  lemma StoredLands(ps: seq<Pair>, seek: ByteString)
    requires Bucket(ps)
    ensures var i := Landing(ps, seek); Stored(ps, seek) <==> i < |ps| && ps[i].key == seek
  {
    var i := Landing(ps, seek);
    if Stored(ps, seek) {
      var q :| 0 <= q < |ps| && ps[q].key == seek;
      LeqRefl(seek);
      LandingSplits(ps, seek);
      if i < q {
        LeqAntisymmetric(seek, ps[i].key);
      }
    }
  }

  /** The first position after the seek key. */
  function Beyond(ps: seq<Pair>, seek: ByteString): (j: nat)
    ensures j <= |ps|
  {
    var i := Landing(ps, seek);
    if i < |ps| && ps[i].key == seek then i + 1 else i
  }

  lemma BeyondSplits(ps: seq<Pair>, seek: ByteString, q: nat)
    requires Bucket(ps) && q < |ps|
    ensures Beyond(ps, seek) <= q <==> Less(seek, ps[q].key)
    ensures q < Beyond(ps, seek) <==> Leq(ps[q].key, seek)
  {
    LandingSplits(ps, seek);
    NotLeq(ps[q].key, seek);
    StoredLands(ps, seek);
    if ps[q].key == seek {
      LeqRefl(seek);
    }
  }

  /** If the landed key lacks the prefix, so does every key after it. */
  lemma NothingBeyond(ps: seq<Pair>, seek: ByteString, prefix: Option<ByteString>)
    requires Bucket(ps) && Has(prefix, seek) && Landing(ps, seek) < |ps| && !Has(prefix, ps[Landing(ps, seek)].key)
    ensures Select(ps[Landing(ps, seek)..], All, prefix) == []
  {
    var i := Landing(ps, seek);
    forall q | i <= q < |ps|
      ensures !Has(prefix, ps[q].key)
    {
      if q > i && Has(prefix, ps[q].key) {
        PrefixConvex(prefix.value, seek, ps[i].key, ps[q].key);
      }
    }
    SelectNone(ps[i..], All, prefix);
  }

  /** Stopping at the first key without the prefix loses nothing: the scan is a full filter. */
  lemma AscendingScan(ps: seq<Pair>, seek: ByteString, prefix: Option<ByteString>)
    requires Bucket(ps) && Has(prefix, seek)
    ensures Listing(ps, seek, Config(Ascending, prefix, false)) == Select(ps, From(seek), prefix)
  {
    var i := Landing(ps, seek);
    SelectFrom(ps, seek, prefix);
    if i < |ps| {
      SelectHead(ps, i, prefix);
      if !Has(prefix, ps[i].key) {
        NothingBeyond(ps, seek, prefix);
      }
    } else {
      assert ps[i..] == [];
    }
  }

  lemma SelectAbove(ps: seq<Pair>, seek: ByteString, prefix: Option<ByteString>)
    requires Bucket(ps)
    ensures Select(ps, Above(seek), prefix) == Select(ps[Beyond(ps, seek)..], All, prefix)
  {
    forall q | 0 <= q < |ps|
      ensures In(Above(seek), ps[q].key) <==> Beyond(ps, seek) <= q
    {
      BeyondSplits(ps, seek, q);
    }
    SelectUpper(ps, Above(seek), Beyond(ps, seek), prefix);
  }

  /**
    Skipping the first item lists the keys after the seek key exactly if the
    seek key is stored, or there is no key with the prefix to skip by mistake.
   */
  lemma AscendingSkip(ps: seq<Pair>, seek: ByteString, prefix: Option<ByteString>)
    requires Bucket(ps) && Has(prefix, seek)
    ensures Listing(ps, seek, Config(Ascending, prefix, true)) == Select(ps, Above(seek), prefix)
       <==> Stored(ps, seek) || Select(ps, From(seek), prefix) == []
  {
    var i := Landing(ps, seek);
    StoredLands(ps, seek);
    SelectAbove(ps, seek, prefix);
    SelectFrom(ps, seek, prefix);
    if i < |ps| {
      SelectHead(ps, i, prefix);
      if !Has(prefix, ps[i].key) {
        NothingBeyond(ps, seek, prefix);
      }
    } else {
      assert ps[i..] == [];
    }
  }

  // -------------------------------------------------------------- Descending

  lemma LandsThere(ps: seq<Pair>, i: nat)
    requires Bucket(ps) && i < |ps|
    ensures Landing(ps, ps[i].key) == i && Stored(ps, ps[i].key)
  {
    StoredLands(ps, ps[i].key);
  }

  /** The landed key is the least that is not below the seek key. */
  lemma LandedLeast(ps: seq<Pair>, seek: ByteString, j: nat)
    requires Bucket(ps) && j < |ps| && Leq(seek, ps[j].key)
    ensures Landing(ps, seek) <= j && Leq(ps[Landing(ps, seek)].key, ps[j].key)
  {
    if Landing(ps, seek) == j {
      LeqRefl(ps[j].key);
    }
  }

  lemma LandedHas(ps: seq<Pair>, seek: ByteString, j: nat, p: ByteString)
    requires Bucket(ps) && j < |ps| && Leq(seek, ps[j].key) && HasPrefix(seek, p) && HasPrefix(ps[j].key, p)
    ensures Landing(ps, seek) <= j && HasPrefix(ps[Landing(ps, seek)].key, p)
  {
    LandedLeast(ps, seek, j);
    PrefixConvex(p, seek, ps[Landing(ps, seek)].key, ps[j].key);
  }

  /** Skipping the first item always lists the keys after the one that was landed on. */
  lemma SkipLanded(ps: seq<Pair>, seek: ByteString, prefix: Option<ByteString>)
    requires Bucket(ps) && Landing(ps, seek) < |ps| && Has(prefix, ps[Landing(ps, seek)].key)
    ensures Listing(ps, seek, Config(Ascending, prefix, true)) == Select(ps, Above(ps[Landing(ps, seek)].key), prefix)
  {
    LandsThere(ps, Landing(ps, seek));
    AscendingSkip(ps, ps[Landing(ps, seek)].key, prefix);
  }

  /** Where no key with the prefix is landed on, none comes after. */
  lemma SkipNothing(ps: seq<Pair>, seek: ByteString, prefix: Option<ByteString>)
    requires Bucket(ps) && Has(prefix, seek)
    requires Landing(ps, seek) < |ps| ==> !Has(prefix, ps[Landing(ps, seek)].key)
    ensures Listing(ps, seek, Config(Ascending, prefix, true)) == Select(ps, Above(seek), prefix)
  {
    AscendingScan(ps, seek, prefix);
    AscendingSkip(ps, seek, prefix);
  }

  lemma SelectUpTo(ps: seq<Pair>, seek: ByteString, prefix: Option<ByteString>)
    requires Bucket(ps)
    ensures Select(ps, UpTo(seek), prefix) == Select(ps[..Beyond(ps, seek)], All, prefix)
  {
    forall q | 0 <= q < |ps|
      ensures In(UpTo(seek), ps[q].key) <==> q < Beyond(ps, seek)
    {
      BeyondSplits(ps, seek, q);
    }
    SelectLower(ps, UpTo(seek), Beyond(ps, seek), prefix);
  }

  /** From a stored key downwards, the scan is the filter of the keys up to it, reversed. */
  lemma DescendingScan(ps: seq<Pair>, seek: ByteString, prefix: Option<ByteString>)
    requires Bucket(ps) && Has(prefix, seek) && Stored(ps, seek)
    ensures Listing(ps, seek, Config(Descending, prefix, false)) == Reverse(Select(ps, UpTo(seek), prefix))
  {
    StoredLands(ps, seek);
    SelectUpTo(ps, seek, prefix);
    SelectLast(ps, Landing(ps, seek) + 1, prefix);
  }

  /** Without a seek key the descending scan covers the bucket. */
  lemma DescendingAll(ps: seq<Pair>, prefix: Option<ByteString>)
    requires Bucket(ps) && Has(prefix, StartKey(ps, [], Descending))
    ensures Listing(ps, StartKey(ps, [], Descending), Config(Descending, prefix, false)) ==
            Reverse(Select(ps, All, prefix))
  {
    if ps != [] {
      var last := ps[|ps| - 1].key;
      assert Stored(ps, last);
      DescendingScan(ps, last, prefix);
      LeqRefl(last);
      SelectSame(ps, UpTo(last), All, prefix);
    }
  }

  /** Skipping the first item downwards lists the keys below the seek key, whether that one is stored or not. */
  lemma DescendingSkip(ps: seq<Pair>, seek: ByteString, prefix: Option<ByteString>)
    requires Bucket(ps)
    ensures Listing(ps, seek, Config(Descending, prefix, true)) == Reverse(Select(ps, Below(seek), prefix))
  {
    forall q | 0 <= q < |ps|
      ensures In(Below(seek), ps[q].key) <==> q < Landing(ps, seek)
    {
      LandingSplits(ps, seek);
      NotLeq(seek, ps[q].key);
    }
    SelectLower(ps, Below(seek), Landing(ps, seek), prefix);
  }

  /** From beyond the last key, where bolt's cursor stands behind the last pair, all of them are listed downwards. */
  lemma DescendingBeyond(ps: seq<Pair>, seek: ByteString, prefix: Option<ByteString>, skip: bool)
    requires Bucket(ps) && Landing(ps, seek) == |ps|
    ensures Listing(ps, seek, Config(Descending, prefix, skip)) == Reverse(Select(ps, UpTo(seek), prefix))
  {
    SelectUpTo(ps, seek, prefix);
  }

  /**
    From a key that is not stored, below some stored key, `Seek` lands above it:
    the scan hands out that key, or nothing at all.
   */
  lemma DescendingAbsent(ps: seq<Pair>, seek: ByteString, prefix: Option<ByteString>)
    requires Bucket(ps) && Has(prefix, seek) && !Stored(ps, seek) && Landing(ps, seek) < |ps|
    ensures Listing(ps, seek, Config(Descending, prefix, false)) == Reverse(Select(ps, UpTo(seek), prefix))
       <==> !Has(prefix, ps[Landing(ps, seek)].key) && Select(ps, UpTo(seek), prefix) == []
  {
    StoredLands(ps, seek);
    SelectUpTo(ps, seek, prefix);
    ReverseLen(Select(ps, UpTo(seek), prefix));
  }

  /** For instance: after a key that is not stored, skipping loses the one key there is. */
  lemma SkipLoses(v: ByteString)
    ensures var ps := [Pair([5], v)];
            Bucket(ps) && Listing(ps, [3], Config(Ascending, None, true)) == [] && Select(ps, Above([3]), None) == ps
  {
    var ps := [Pair([5], v)];
    assert ps[1..] == [];
  }

  /** For instance: downwards from a key that is not stored, a greater one comes first. */
  lemma DescendingStartsAbove(v: ByteString, w: ByteString)
    ensures var ps := [Pair([1], v), Pair([5], w)];
            && Bucket(ps) && Listing(ps, [3], Config(Descending, None, false)) == [ps[1], ps[0]]
            && Reverse(Select(ps, UpTo([3]), None)) == [ps[0]]
  {
    var a, b := Pair([1], v), Pair([5], w);
    var ps := [a, b];
    assert !Leq([3], [1]) && Leq([3], [5]) && Leq([1], [3]) && !Leq([5], [3]);
    assert ps[1..] == [b] && ps[..1] == [a];
    SelectOne(a, All, None);
    SelectOne(b, UpTo([3]), None);
    assert Select(ps, UpTo([3]), None) == [a] + Select([b], UpTo([3]), None);
    ReverseOne(a);
    assert Landing(ps, [3]) == 1;
  }

  lemma SelectOne(p: Pair, r: Range, prefix: Option<ByteString>)
    ensures Select([p], r, prefix) == if In(r, p.key) && Has(prefix, p.key) then [p] else []
  {
    assert [p][1..] == [];
  }

  lemma ReverseOne(p: Pair)
    ensures Reverse([p]) == [p]
  {
    assert [p][1..] == [];
  }
}
