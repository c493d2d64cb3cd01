/** Byte strings in the order bolt keeps its keys in. */
module Bytes {
  type Byte = b: int | 0 <= b < 256
  type ByteString = seq<Byte>

  /** `bytes.Compare(a, b) <= 0`. */
  predicate Leq(a: ByteString, b: ByteString) {
    a == [] || (b != [] && (a[0] < b[0] || (a[0] == b[0] && Leq(a[1..], b[1..]))))
  }

  predicate Less(a: ByteString, b: ByteString) {
    Leq(a, b) && a != b
  }

  /** `bytes.HasPrefix(k, p)`. */
  predicate HasPrefix(k: ByteString, p: ByteString) {
    p <= k
  }

  lemma {:induction false} LeqRefl(a: ByteString)
    ensures Leq(a, a)
  {
    if a != [] {
      LeqRefl(a[1..]);
    }
  }

  lemma {:induction false} LeqAntisymmetric(a: ByteString, b: ByteString)
    requires Leq(a, b) && Leq(b, a)
    ensures a == b
  {
    if a != [] {
      LeqAntisymmetric(a[1..], b[1..]);
      assert a == [a[0]] + a[1..] && b == [b[0]] + b[1..];
    }
  }

  lemma {:induction false} LeqTransitive(a: ByteString, b: ByteString, c: ByteString)
    requires Leq(a, b) && Leq(b, c)
    ensures Leq(a, c)
  {
    if a != [] && a[0] == b[0] && b[0] == c[0] {
      LeqTransitive(a[1..], b[1..], c[1..]);
    }
  }

  lemma {:induction false} LeqTotal(a: ByteString, b: ByteString)
    ensures Leq(a, b) || Leq(b, a)
  {
    if a != [] && b != [] {
      LeqTotal(a[1..], b[1..]);
    }
  }

  lemma NotLeq(a: ByteString, b: ByteString)
    ensures !Leq(a, b) <==> Less(b, a)
  {
    LeqTotal(a, b);
    if Leq(a, b) && Leq(b, a) {
      LeqAntisymmetric(a, b);
    }
  }

  lemma {:induction false} PrefixLeq(p: ByteString, k: ByteString)
    requires HasPrefix(k, p)
    ensures Leq(p, k)
  {
    if p != [] {
      PrefixLeq(p[1..], k[1..]);
    }
  }

  /** The keys with one prefix stand together: nothing between two of them lacks it. */
  lemma {:induction false} PrefixConvex(p: ByteString, a: ByteString, b: ByteString, c: ByteString)
    requires Leq(a, b) && Leq(b, c) && HasPrefix(a, p) && HasPrefix(c, p)
    ensures HasPrefix(b, p)
  {
    if p != [] {
      assert a[0] == p[0] == c[0];
      assert b[0] == p[0];
      assert HasPrefix(a[1..], p[1..]) && HasPrefix(c[1..], p[1..]);
      PrefixConvex(p[1..], a[1..], b[1..], c[1..]);
    }
  }
}
