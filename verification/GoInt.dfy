/**
  Go's 64-bit two's complement integers, modelled on unbounded integers with
  the wrap-around written out. A `time.Duration` and an `int` are both one of
  these.
 */
module GoInt {
  const TWO63: int := 0x8000_0000_0000_0000
  const TWO64: int := 0x1_0000_0000_0000_0000
  const MIN_INT64: int := -0x8000_0000_0000_0000
  const MAX_INT64: int := 0x7fff_ffff_ffff_ffff

  predicate IsInt64(x: int) {
    MIN_INT64 <= x <= MAX_INT64
  }

  /** The 64-bit value an arithmetic result wraps to. */
  function Wrap(x: int): (w: int)
    ensures IsInt64(w)
    ensures IsInt64(x) ==> w == x
  {
    if IsInt64(x) then x else (x + 0x8000_0000_0000_0000) % 0x1_0000_0000_0000_0000 - 0x8000_0000_0000_0000
  }

  /** Go's `/` truncates toward zero. */
  function Quo(a: int, b: int): int
    requires b > 0
  {
    if a >= 0 then a / b else -(-a / b)
  }

  /** Go's `%` takes the sign of the dividend. */
  function Rem(a: int, b: int): int
    requires b > 0
  {
    if a >= 0 then a % b else -(-a % b)
  }

  /** Wrapping is the only representative of its class modulo 2^64. */
  lemma WrapUnique(x: int, y: int, k: int)
    requires x == y + k * TWO64
    requires IsInt64(y)
    ensures Wrap(x) == y
  {
  }

  lemma WrapShift(x: int, k: int)
    ensures Wrap(x + k * TWO64) == Wrap(x)
  {
    var j := (x + TWO63) / TWO64;
    assert x == Wrap(x) + j * TWO64;
    WrapUnique(x + k * TWO64, Wrap(x), j + k);
  }

  lemma WrapAdd(a: int, b: int)
    ensures Wrap(Wrap(a) + Wrap(b)) == Wrap(a + b)
  {
    var j, k := (a + TWO63) / TWO64, (b + TWO63) / TWO64;
    assert a == Wrap(a) + j * TWO64 && b == Wrap(b) + k * TWO64;
    WrapShift(Wrap(a) + Wrap(b), j + k);
  }

  lemma WrapMul(a: int, b: int)
    ensures Wrap(Wrap(a) * b) == Wrap(a * b)
  {
    var j := (a + TWO63) / TWO64;
    assert a == Wrap(a) + j * TWO64;
    assert a * b == Wrap(a) * b + (j * b) * TWO64 by {
      assert (j * TWO64) * b == (j * b) * TWO64;
    }
    WrapShift(Wrap(a) * b, j * b);
  }

  lemma WrapNeg(a: int)
    ensures Wrap(-Wrap(a)) == Wrap(-a)
  {
    var j := (a + TWO63) / TWO64;
    assert a == Wrap(a) + j * TWO64;
    WrapShift(-Wrap(a), -j);
  }
}
