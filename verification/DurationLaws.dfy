/**
  Laws of the duration texts: when the scanner's wrapped total is the exact
  one, and that the printer of http/duration.go, FormatDuration, is read back.
 */
module DurationLaws {
  import opened GoInt
  import opened Decimal
  import opened Wrappers
  import opened Durations

  // ---------------------------------------------------------------- Overflow

  lemma WrapHalves(x: nat)
    ensures Wrap(x) == if x % TWO64 < TWO63 then x % TWO64 else x % TWO64 - TWO64
    ensures Wrap(x) == x <==> x < TWO63
  {
    var k := x / TWO64;
    assert x == x % TWO64 + k * TWO64;
    if x % TWO64 < TWO63 {
      WrapUnique(x, x % TWO64, k);
    } else {
      WrapUnique(x, x % TWO64 - TWO64, k + 1);
    }
  }

  lemma WrapNegated(x: int)
    requires x >= 0
    ensures Wrap(-Wrap(x)) == Wrap(-x)
    ensures Wrap(-x) == -x <==> x <= TWO63
  {
    WrapNeg(x);
  }

  /**
    Without a sign, the check at the end of the scan tells the sign of the
    wrapped total only. It rejects every exact sum in the upper half of each
    2^64 block, and nothing else.
   */
  lemma UnsignedOverflow(s: string, cs: seq<Component>)
    requires Denotes(s, false, cs)
    ensures Sum(cs) < TWO63 ==> Parse(s) == Parsed(Sum(cs))
    ensures TWO63 <= Sum(cs) < TWO64 ==> Parse(s).Overflowed?
    ensures Parse(s).Parsed? <==> Sum(cs) % TWO64 < TWO63
    ensures Parse(s) == Parsed(Sum(cs)) <==> Sum(cs) < TWO63
    ensures Parse(s).Overflowed? ==>
              var last := cs[|cs| - 1]; Parse(s).measure == Value(last.digits) && Parse(s).unit == last.unit
  {
    ParseIs(s, false, cs);
    MeaningUnsigned(cs);
  }

  lemma MeaningUnsigned(cs: seq<Component>)
    requires cs != [] && ValidComponents(cs)
    ensures Sum(cs) < TWO63 ==> Meaning(false, cs) == Parsed(Sum(cs))
    ensures TWO63 <= Sum(cs) < TWO64 ==> Meaning(false, cs).Overflowed?
    ensures Meaning(false, cs).Parsed? <==> Sum(cs) % TWO64 < TWO63
    ensures Meaning(false, cs) == Parsed(Sum(cs)) <==> Sum(cs) < TWO63
  {
    WrapHalves(Sum(cs));
  }

  lemma MeaningSigned(cs: seq<Component>)
    requires cs != [] && ValidComponents(cs)
    ensures Meaning(true, cs) == Parsed(Wrap(-Sum(cs)))
    ensures Wrap(-Sum(cs)) == -Sum(cs) <==> Sum(cs) <= TWO63
  {
    WrapNegated(Sum(cs));
  }

  /** With a sign nothing is rejected, and the value is exact down to the least integer. */
  lemma SignedOverflow(s: string, cs: seq<Component>)
    requires Denotes(s, true, cs)
    ensures Parse(s) == Parsed(Wrap(-Sum(cs)))
    ensures Parse(s) == Parsed(-Sum(cs)) <==> Sum(cs) <= TWO63
  {
    ParseIs(s, true, cs);
    MeaningSigned(cs);
  }

  /** A reading in range is read exactly, whatever its sign. */
  lemma ReadsExactly(s: string, negative: bool, cs: seq<Component>, x: int)
    requires Denotes(s, negative, cs) && Sum(cs) == x <= MAX_INT64
    ensures Parse(s) == Parsed(if negative then -x else x)
  {
    if negative {
      SignedOverflow(s, cs);
    } else {
      UnsignedOverflow(s, cs);
    }
  }

  lemma SumOfTwo(a: Component, b: Component)
    requires ValidComponent(a) && ValidComponent(b)
    ensures ValidComponents([a, b]) && Sum([a, b]) == a.Nanos() + b.Nanos()
  {
    TextCons(b, []);
    TextCons(a, [b]);
    assert [b] + [] == [b] && [a] + [b] == [a, b];
  }

  lemma SignedTwo(a: Component, b: Component)
    requires ValidComponent(a) && ValidComponent(b) && a.Nanos() + b.Nanos() == TWO63 + 1
    ensures exists s, cs :: Denotes(s, true, cs) && Sum(cs) == TWO63 + 1 && Parse(s) == Parsed(MAX_INT64)
  {
    SumOfTwo(a, b);
    var cs := [a, b];
    var s := "-" + Text(cs);
    assert Denotes(s, true, cs);
    SignedOverflow(s, cs);
    WrapUnique(-TWO63 - 1, MAX_INT64, -1);
  }

  /** For instance: minus 2^63 + 1 nanoseconds is read as the largest duration. */
  lemma SignedUndetected()
    ensures exists s, cs :: Denotes(s, true, cs) && Sum(cs) == TWO63 + 1 && Parse(s) == Parsed(MAX_INT64)
  {
    ValueFormatNat(MAX_INT64);
    ValueFormatNat(2);
    SignedTwo(Component(FormatNat(MAX_INT64), N), Component(FormatNat(2), N));
  }

  lemma SumOfThree(a: Component, b: Component)
    requires ValidComponent(a) && ValidComponent(b)
    ensures ValidComponents([a, a, b]) && Sum([a, a, b]) == a.Nanos() + a.Nanos() + b.Nanos()
  {
    TextCons(b, []);
    TextCons(a, [b]);
    TextCons(a, [a, b]);
    assert [b] + [] == [b] && [a] + [b] == [a, b] && [a] + [a, b] == [a, a, b];
  }

  lemma UnsignedThree(a: Component, b: Component)
    requires ValidComponent(a) && ValidComponent(b) && a.Nanos() + a.Nanos() + b.Nanos() == TWO64
    ensures exists s, cs :: Denotes(s, false, cs) && Sum(cs) == TWO64 && Parse(s) == Parsed(0)
  {
    SumOfThree(a, b);
    var cs := [a, a, b];
    WrapUnique(TWO64, 0, 1);
    assert Denotes(Text(cs), false, cs);
    ParseIs(Text(cs), false, cs);
  }

  /** An exact sum of 2^64 passes the overflow check as zero. */
  lemma OverflowUndetected()
    ensures exists s, cs :: Denotes(s, false, cs) && Sum(cs) == TWO64 && Parse(s) == Parsed(0)
  {
    ValueFormatNat(MAX_INT64);
    ValueFormatNat(2);
    UnsignedThree(Component(FormatNat(MAX_INT64), N), Component(FormatNat(2), N));
  }

  // ---------------------------------------------------------- FormatDuration

  predicate Divides(u: Unit, d: int) {
    Rem(d, u.Size()) == 0
  }

  /** The largest unit that divides the duration. */
  function LargestUnit(d: int): (u: Unit)
    ensures Divides(u, d)
  {
    if Divides(Y, d) then Y
    else if Divides(Mo, d) then Mo
    else if Divides(W, d) then W
    else if Divides(D, d) then D
    else if Divides(H, d) then H
    else if Divides(M, d) then M
    else if Divides(S, d) then S
    else if Divides(Ms, d) then Ms
    else if Divides(Us, d) then Us
    else Ns
  }

  function Print(d: int, u: Unit): string {
    FormatInt(Quo(d, u.Size())) + u.Name()
  }

  /** http/duration.go, FormatDuration. */
  function FormatDuration(d: int): string {
    Print(d, if d == 0 then S else LargestUnit(d))
  }

  /** The units that a duration may be printed in. */
  ghost predicate Printable(u: Unit) {
    u in {Y, Mo, W, D, H, M, S, Ms, Us, Ns}
  }

  lemma LargestDivides(d: int, u: Unit)
    requires Printable(u) && Divides(u, d)
    ensures Printable(LargestUnit(d)) && u.Size() <= LargestUnit(d).Size()
  {
  }

  /** What is printed: the whole number of the largest unit that divides the duration, then that unit. */
  lemma FormatText(d: int) returns (u: Unit)
    ensures FormatDuration(d) == FormatInt(Quo(d, u.Size())) + u.Name()
    ensures Printable(u) && Divides(u, d)
    ensures d != 0 ==> forall v :: Printable(v) && Divides(v, d) ==> v.Size() <= u.Size()
    ensures d == 0 ==> u == S && FormatDuration(d) == "0s"
  {
    u := if d == 0 then S else LargestUnit(d);
    forall v | Printable(v) && Divides(v, d)
      ensures v.Size() <= LargestUnit(d).Size()
    {
      LargestDivides(d, v);
    }
    assert Divides(Ns, d);
    LargestDivides(d, Ns);
    ZeroText();
  }

  lemma ZeroText()
    ensures Print(0, S) == "0s"
  {
    assert FormatNat(0) == ['0'];
    assert S.Name() == ['s'];
  }

  lemma SingleReading(n: nat, u: Unit, negative: bool)
    requires n <= MAX_INT64
    ensures var cs := [Component(FormatNat(n), u)];
            && Denotes((if negative then "-" else "") + (FormatNat(n) + u.Name()), negative, cs)
            && Sum(cs) == n * u.Size()
  {
    var c := Component(FormatNat(n), u);
    ValueFormatNat(n);
    assert ValidComponent(c);
    assert [c] == [c] + [];
    TextCons(c, []);
    assert Text([c]) == c.Text();
  }

  lemma MulGrows(q: int, size: int)
    requires q >= 0 && size >= 1
    ensures q * size >= q
  {
    assert q * size == q + q * (size - 1);
  }

  lemma ExactQuotient(a: int, size: int) returns (q: int)
    requires a >= 0 && size > 0 && a % size == 0
    ensures q == a / size && q >= 0 && q * size == a && q <= a
    ensures a > 0 ==> q > 0
  {
    q := a / size;
    assert a == q * size + a % size;
    MulGrows(q, size);
    assert q == 0 ==> q * size == 0;
  }

  lemma ReadsBack(q: int, u: Unit, negative: bool)
    requires 0 <= q <= MAX_INT64 && q * u.Size() <= MAX_INT64
    ensures Parse((if negative then "-" else "") + (FormatNat(q) + u.Name())) ==
            Parsed(if negative then -(q * u.Size()) else q * u.Size())
  {
    SingleReading(q, u, negative);
    ReadsExactly((if negative then "-" else "") + (FormatNat(q) + u.Name()), negative,
                 [Component(FormatNat(q), u)], q * u.Size());
  }

  lemma PrintText(d: int, u: Unit, q: int)
    requires q >= 0 && Quo(d, u.Size()) == (if d < 0 then -q else q) && (d < 0 ==> q > 0)
    ensures Print(d, u) == (if d < 0 then "-" else "") + (FormatNat(q) + u.Name())
  {
    var name, digits := u.Name(), FormatNat(q);
    assert "-" + digits + name == "-" + (digits + name);
    assert "" + (digits + name) == digits + name;
  }

  lemma PrintReads(d: int, u: Unit)
    requires IsInt64(d) && d != MIN_INT64 && Divides(u, d)
    ensures Parse(Print(d, u)) == Parsed(d)
  {
    var q := ExactQuotient(if d < 0 then -d else d, u.Size());
    PrintText(d, u, q);
    ReadsBack(q, u, d < 0);
  }

  // ----------------------------------------------------------- Units compared

  /** How many of which smaller unit one of these is. */
  function Parts(u: Unit): (nat, Unit) {
    match u
    case Y => (365, D)
    case Mo => (30, D)
    case W => (7, D)
    case D => (24, H)
    case H => (60, M)
    case M => (60, S)
    case S => (1000, Ms)
    case Ms => (1000, Us)
    case Us | U | Mu | Mus => (1000, Ns)
    case Ns | N => (1, Ns)
  }

  lemma PartsSize(u: Unit)
    ensures u.Size() == Parts(u).0 * Parts(u).1.Size() && Ns.Size() == 1
  {
  }

  lemma ReadsPlain(n: nat, u: Unit, x: nat)
    requires x == n * u.Size() <= MAX_INT64
    ensures Parse(FormatNat(n) + u.Name()) == Parsed(x)
  {
    MulGrows(n, u.Size());
    ReadsBack(n, u, false);
    assert "" + (FormatNat(n) + u.Name()) == FormatNat(n) + u.Name();
  }

  lemma ScaleParts(n: nat, k: nat, size: nat, x: nat)
    requires x == n * (k * size)
    ensures x == n * k * size
  {
  }

  /** A year is read as 365 days, a month as 30, a week as 7, a day as 24 hours, and so on down to the nanosecond. */
  lemma UnitsRead(n: nat, u: Unit, x: nat)
    requires x == n * u.Size() <= MAX_INT64
    ensures Parse(FormatNat(n) + u.Name()) == Parse(FormatNat(n * Parts(u).0) + Parts(u).1.Name()) == Parsed(x)
  {
    var k, v := Parts(u).0, Parts(u).1;
    PartsSize(u);
    ScaleParts(n, k, v.Size(), x);
    ReadsPlain(n, u, x);
    ReadsPlain(n * k, v, x);
  }

  /** The nanosecond is the unit of the result. */
  lemma NanosecondsRead(n: nat)
    requires n <= MAX_INT64
    ensures Parse(FormatNat(n) + Ns.Name()) == Parsed(n)
  {
    PartsSize(Ns);
    ReadsPlain(n, Ns, n);
  }

  /** How the units are spelled: those of one letter, */
  lemma ShortNames()
    ensures N.Name() == "n" && U.Name() == "u" && Mu.Name() == "µ" && M.Name() == "m" && S.Name() == "s"
    ensures H.Name() == "h" && D.Name() == "d" && W.Name() == "w" && Y.Name() == "y"
  {
  }

  /** and of two. */
  lemma LongNames()
    ensures Ns.Name() == "ns" && Us.Name() == "us" && Mus.Name() == "µs" && Ms.Name() == "ms" && Mo.Name() == "mo"
  {
  }

  // ------------------------------------------------ The unreadable least one

  lemma FirstComponentMissing(s: string)
    requires ByteLen(s) >= 2 && SignLen(s) < |s| && ComponentAt(s, SignLen(s)) == None
    ensures Parse(s) == InvalidDuration
  {
    ScanIsParse(s);
  }

  lemma TooManyDigits(digits: string, tail: string)
    requires AllDigits(digits) && digits != "" && ParseDigits(digits) == None
    requires tail != "" ==> !IsDigit(tail[0])
    ensures Parse("-" + digits + tail) == InvalidDuration
  {
    var s, j := "-" + digits + tail, 1 + |digits|;
    assert forall k :: 1 <= k < j ==> s[k] == digits[k - 1];
    assert tail != "" ==> s[j] == tail[0];
    DigitsEndOf(s, 1, j);
    assert s[1..j] == digits;
    FirstComponentMissing(s);
  }

  lemma LeastUnit(n: int)
    requires n == TWO63
    ensures LargestUnit(-n) == Ns && Quo(-n, Ns.Size()) == -n
  {
  }

  lemma LeastText(n: int)
    requires n == TWO63
    ensures FormatDuration(-n) == "-" + FormatNat(n) + "ns"
  {
    LeastUnit(n);
    LongNames();
  }

  lemma LeastUnreadable(n: int)
    requires n == TWO63
    ensures Parse(FormatDuration(-n)) == InvalidDuration
  {
    LeastText(n);
    ValueFormatNat(n);
    TooManyDigits(FormatNat(n), "ns");
  }

  /** `FormatDuration` is read back for every duration but the least integer. */
  lemma FormatReads(d: int)
    requires IsInt64(d)
    ensures Parse(FormatDuration(d)) == if d != MIN_INT64 then Parsed(d) else InvalidDuration
  {
    if d == MIN_INT64 {
      LeastUnreadable(-d);
    } else {
      PrintReads(d, if d == 0 then S else LargestUnit(d));
    }
  }

  /** No two durations print alike. */
  lemma FormatInjective(d: int, e: int)
    requires IsInt64(d) && IsInt64(e) && FormatDuration(d) == FormatDuration(e)
    ensures d == e
  {
    FormatReads(d);
    FormatReads(e);
  }
}
