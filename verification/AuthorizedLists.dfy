/**
  authorizer/bucket.go, FindBuckets: a list cut down, in the array it came in, to
  what the authorizer may read.
 */
module AuthorizedLists {
  import opened Wrappers
  import opened Ids
  import opened BucketTypes
  import opened Permissions
  import opened Tokens

  function ReadBucket(org: ID, id: ID): Permission {
    Permission(Read, Resource(Buckets, Some(id), Some(org)))
  }

  // ------------------------------------------------------------ What is kept

  /** What the loop does with a bucket. */
  datatype Verdict = Keep | Drop | Fail(error: Outcome)

  /** Who sees a bucket: everyone a system bucket, otherwise those who may read it. */
  ghost function Judge(authorizer: Option<Token>, b: Bucket): Verdict {
    if b.System() then Keep
    else if !ValidID(b.org) || !ValidID(b.id) then Fail(Invalid)
    else if authorizer.None? then Fail(NoAuthorizer)
    else if TokenAllows(authorizer.value, ReadBucket(b.org, b.id)) then Keep
    else Drop
  }

  /** A permission to read all buckets, those of the bucket's organization, or this one. */
  predicate Reads(p: Permission, b: Bucket) {
    && p.action == Read && p.resource.kind == Buckets
    && (p.resource.id == Some(b.id) || (p.resource.id.None? && (p.resource.org.None? || p.resource.org == Some(b.org))))
  }

  /** Which buckets are kept, by the permissions that the authorizer has. */
  lemma KeptIff(authorizer: Option<Token>, b: Bucket)
    ensures Judge(authorizer, b) == Keep <==>
            || b.kind == 1
            || (&& b.org != 0 && b.id != 0 && authorizer.Some? && authorizer.value.active
                && exists i :: 0 <= i < |authorizer.value.permissions| && Reads(authorizer.value.permissions[i], b))
    ensures Judge(authorizer, b) == Fail(Invalid) <==> b.kind != 1 && (b.org == 0 || b.id == 0)
    ensures Judge(authorizer, b) == Fail(NoAuthorizer) <==> b.kind != 1 && b.org != 0 && b.id != 0 && authorizer.None?
    ensures Judge(authorizer, b).Fail? ==> Judge(authorizer, b).error in {Invalid, NoAuthorizer}
  {
    forall p
      ensures Matches(p, ReadBucket(b.org, b.id)) <==> Reads(p, b)
    {
    }
  }

  /** The buckets to keep, in order. */
  ghost function Readable(authorizer: Option<Token>, bs: seq<Bucket>): seq<Bucket> {
    if bs == [] then []
    else
      var last := bs[|bs| - 1];
      Readable(authorizer, bs[..|bs| - 1]) + if Judge(authorizer, last) == Keep then [last] else []
  }

  /** A bucket is kept as often as it occurs, or not at all. */
  lemma {:induction false} ReadableCount(authorizer: Option<Token>, bs: seq<Bucket>, b: Bucket)
    ensures multiset(Readable(authorizer, bs))[b] == if Judge(authorizer, b) == Keep then multiset(bs)[b] else 0
  {
    if bs != [] {
      var init, last := bs[..|bs| - 1], bs[|bs| - 1];
      ReadableCount(authorizer, init, b);
      assert bs == init + [last];
    }
  }

  /** What is kept stays in the order it was in: the positions kept increase, and are those of buckets to keep. */
  lemma {:induction false} ReadableOrder(authorizer: Option<Token>, bs: seq<Bucket>) returns (at: seq<nat>)
    ensures |at| == |Readable(authorizer, bs)|
    ensures forall k :: 0 <= k < |at| ==> at[k] < |bs| && Readable(authorizer, bs)[k] == bs[at[k]]
    ensures forall j, k :: 0 <= j < k < |at| ==> at[j] < at[k]
    ensures forall i :: 0 <= i < |bs| ==> (i in at <==> Judge(authorizer, bs[i]) == Keep)
  {
    if bs == [] {
      at := [];
    } else {
      var init, last := bs[..|bs| - 1], bs[|bs| - 1];
      var before := ReadableOrder(authorizer, init);
      at := before + if Judge(authorizer, last) == Keep then [|init|] else [];
      assert forall i :: 0 <= i < |init| ==> (i in at <==> i in before);
      assert |init| in at <==> Judge(authorizer, last) == Keep;
    }
  }

  // ---------------------------------------------------------- The compaction

  ghost predicate NoFailure(authorizer: Option<Token>, bs: seq<Bucket>) {
    forall i :: 0 <= i < |bs| ==> !Judge(authorizer, bs[i]).Fail?
  }

  datatype Found = Found(count: nat) | Refused(at: nat, error: Outcome)

  /** authorizer/bucket.go, authorizeReadBucket. */
  method AuthorizeReadBucket(authorizer: Option<Token>, org: ID, id: ID) returns (o: Outcome)
    ensures o == if !ValidID(org) || !ValidID(id) then Invalid else Check(authorizer, ReadBucket(org, id))
  {
    if !ValidPermission(ReadBucket(org, id)) {
      return Invalid;
    }
    o := IsAllowed(authorizer, ReadBucket(org, id));
  }

  /** The body of the loop, up to what it does with the bucket. */
  method Examine(authorizer: Option<Token>, b: Bucket) returns (v: Verdict)
    ensures v == Judge(authorizer, b)
  {
    if b.System() {
      return Keep;
    }
    var err := AuthorizeReadBucket(authorizer, b.org, b.id);
    if err != Done && err != Unauthorized {
      return Fail(err);
    }
    if err == Unauthorized {
      return Drop;
    }
    return Keep;
  }

  /** Compaction so far: `n` of the first `i` buckets kept, and nothing beyond them written. */
  ghost predicate Compacted(authorizer: Option<Token>, now: seq<Bucket>, was: seq<Bucket>, n: nat, i: nat) {
    && |now| == |was| && n <= i <= |was|
    && now[..n] == Readable(authorizer, was[..i])
    && now[n..] == was[n..]
  }

  lemma CompactStep(authorizer: Option<Token>, now: seq<Bucket>, was: seq<Bucket>, n: nat, i: nat)
    requires Compacted(authorizer, now, was, n, i) && i < |was|
    ensures now[i] == was[i]
    ensures Judge(authorizer, was[i]) == Keep ==> Compacted(authorizer, now[n := was[i]], was, n + 1, i + 1)
    ensures Judge(authorizer, was[i]) != Keep ==> Compacted(authorizer, now, was, n, i + 1)
  {
    assert now[i] == now[n..][i - n] == was[n..][i - n];
    assert was[..i + 1][..i] == was[..i];
    var next := now[n := was[i]];
    assert next[..n + 1] == now[..n] + [was[i]];
    assert next[n + 1..] == now[n..][1..] && was[n + 1..] == was[n..][1..];
  }

  /**
    authorizer/bucket.go, FindBuckets, on the array that the wrapped service
    returned: the first `count` elements of the same array, or the error of the
    first bucket that has one.
   */
  method FindBuckets(authorizer: Option<Token>, bs: array<Bucket>) returns (r: Found)
    modifies bs
    ensures r.Found? <==> NoFailure(authorizer, old(bs[..]))
    ensures r.Found? ==> r.count <= bs.Length && bs[..r.count] == Readable(authorizer, old(bs[..]))
    ensures r.Found? ==> bs[r.count..] == old(bs[r.count..])
    ensures r.Refused? ==>
              && r.at < bs.Length && Judge(authorizer, old(bs[..])[r.at]) == Fail(r.error)
              && NoFailure(authorizer, old(bs[..])[..r.at])
  {
    ghost var was := bs[..];
    var n, i := 0, 0;
    while i < bs.Length
      invariant Compacted(authorizer, bs[..], was, n, i)
      invariant NoFailure(authorizer, was[..i])
    {
      CompactStep(authorizer, bs[..], was, n, i);
      var v := Examine(authorizer, bs[i]);
      if v.Fail? {
        return Refused(i, v.error);
      }
      if v == Keep {
        ghost var now := bs[..];
        bs[n] := bs[i];
        assert bs[..] == now[n := was[i]];
        n := n + 1;
      }
      i := i + 1;
    }
    assert was[..i] == was;
    return Found(n);
  }
}
