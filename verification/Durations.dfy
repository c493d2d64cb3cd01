/**
  http/duration.go: the durations that requests carry as text.

  `ParseDuration` is proved against a grammar: a duration is an optional minus
  sign and one or more components, each a run of digits and a unit. What the
  scanner returns is then stated over the exact, unbounded sum of the
  components, so that every wrap-around of its 64-bit arithmetic is visible.
 */
module Durations {
  import opened GoInt
  import opened Decimal
  import opened Wrappers

  // ---------------------------------------------------------------- Constants

  const NANOSECOND: int := 1
  const MICROSECOND: int := 1_000
  const MILLISECOND: int := 1_000_000
  const SECOND: int := 1_000_000_000
  const MINUTE: int := 60_000_000_000
  const HOUR: int := 3_600_000_000_000

  datatype Unit =
    | N | Ns | U | Us | Mu | Mus | M | Ms | Mo | S | H | D | W | Y
  {
    function Len(): nat {
      match this
      case Ns | Us | Mus | Ms | Mo => 2
      case _ => 1
    }

    function First(): char {
      match this
      case N | Ns => 'n'
      case U | Us => 'u'
      case Mu | Mus => 'µ'
      case M | Ms | Mo => 'm'
      case S => 's'
      case H => 'h'
      case D => 'd'
      case W => 'w'
      case Y => 'y'
    }

    /** The unit's spelling: its letter, and for some an `s` or an `o` after it. */
    function Name(): (name: string)
      ensures |name| == Len() && !IsDigit(name[0])
    {
      if Len() == 1 then [First()] else [First(), if this == Mo then 'o' else 's']
    }

    /** The length of one unit in nanoseconds, exactly. */
    function Size(): nat {
      match this
      case N | Ns => 1
      case U | Us | Mu | Mus => 1_000
      case Ms => 1_000_000
      case S => 1_000_000_000
      case M => 60_000_000_000
      case H => 3_600_000_000_000
      case D => 86_400_000_000_000
      case W => 604_800_000_000_000
      case Mo => 2_592_000_000_000_000
      case Y => 31_536_000_000_000_000
    }

    function Nanos(n: int): int {
      n * Size()
    }
  }

  // ------------------------------------------------------------------ Grammar

  datatype Component = Component(digits: string, unit: Unit) {
    function Text(): (text: string)
      ensures |text| == Len()
    {
      digits + unit.Name()
    }

    function Len(): nat {
      |digits| + unit.Len()
    }

    function Nanos(): nat
      requires AllDigits(digits)
    {
      unit.Nanos(Value(digits))
    }
  }

  /** A number that `strconv.ParseInt` takes, followed by a unit. */
  predicate ValidComponent(c: Component) {
    ParseDigits(c.digits).Some?
  }

  predicate ValidComponents(cs: seq<Component>) {
    forall i :: 0 <= i < |cs| ==> ValidComponent(cs[i])
  }

  function Text(cs: seq<Component>): string {
    if cs == [] then "" else cs[0].Text() + Text(cs[1..])
  }

  /** The exact length, in nanoseconds, that the components add up to. */
  function Sum(cs: seq<Component>): (sum: int)
    requires ValidComponents(cs)
    ensures sum >= 0
  {
    if cs == [] then 0
    else
      assert ValidComponent(cs[0]);
      cs[0].Nanos() + Sum(cs[1..])
  }

  predicate Denotes(s: string, negative: bool, cs: seq<Component>) {
    cs != [] && ValidComponents(cs) && s == (if negative then "-" else "") + Text(cs)
  }

  datatype ParseResult =
    | Parsed(d: int)
    | InvalidDuration
    | Overflowed(measure: int, unit: Unit)

  /** The end of the scan: the overflow check, and the sign. */
  function Conclude(negative: bool, d: int, measure: int, unit: Unit): ParseResult {
    if negative then Parsed(Wrap(-d)) else if d < 0 then Overflowed(measure, unit) else Parsed(d)
  }

  /** What a well-formed duration comes to in 64-bit arithmetic. */
  function Meaning(negative: bool, cs: seq<Component>): ParseResult
    requires cs != [] && ValidComponents(cs)
  {
    Conclude(negative, Wrap(Sum(cs)), Value(cs[|cs| - 1].digits), cs[|cs| - 1].unit)
  }

  ghost predicate WellFormed(s: string) {
    exists negative, cs :: Denotes(s, negative, cs)
  }

  /** The meaning of a well-formed text; `DenotesUnique` below says it has only one. */
  ghost function Parse(s: string): ParseResult {
    if WellFormed(s) then
      var negative, cs :| Denotes(s, negative, cs);
      Meaning(negative, cs)
    else InvalidDuration
  }

  // ------------------------------------------------------------------ Scanner

  /** The end of the run of digits at position `i`. */
  function DigitsEnd(a: string, i: nat): (j: nat)
    requires i <= |a|
    ensures i <= j <= |a|
    decreases |a| - i
  {
    if i < |a| && IsDigit(a[i]) then DigitsEnd(a, i + 1) else i
  }

  /** The unit at position `i`, chosen by looking at most one rune ahead. */
  function UnitAt(a: string, i: nat): (u: Option<Unit>)
    requires i < |a|
    ensures u.Some? ==> i + u.value.Len() <= |a|
  {
    var next := if i + 1 < |a| then a[i + 1] else ' ';
    match a[i]
    case 'n' => Some(if next == 's' then Ns else N)
    case 'u' => Some(if next == 's' then Us else U)
    case 'µ' => Some(if next == 's' then Mus else Mu)
    case 'm' => Some(if next == 's' then Ms else if next == 'o' then Mo else M)
    case 's' => Some(S)
    case 'h' => Some(H)
    case 'd' => Some(D)
    case 'w' => Some(W)
    case 'y' => Some(Y)
    case _ => None
  }

  /** The component at position `i`, if there is one. */
  function ComponentAt(a: string, i: nat): (c: Option<Component>)
    requires i <= |a|
    ensures c.Some? ==> ValidComponent(c.value) && i + c.value.Len() <= |a|
  {
    var j := DigitsEnd(a, i);
    if j == i || j == |a| || ParseDigits(a[i..j]).None? || UnitAt(a, j).None? then None
    else Some(Component(a[i..j], UnitAt(a, j).value))
  }

  /** The components the scanner meets from position `i` to the end of the text. */
  function Components(a: string, i: nat): (cs: Option<seq<Component>>)
    requires i <= |a|
    ensures cs.Some? ==> ValidComponents(cs.value)
    decreases |a| - i
  {
    if i == |a| then Some([])
    else
      match ComponentAt(a, i)
      case None => None
      case Some(c) =>
        var rest := Components(a, i + c.Len());
        if rest.None? then None else Some([c] + rest.value)
  }

  /** The number of bytes of a rune in UTF-8. */
  function RuneLen(c: char): nat {
    var r := c as int;
    if r < 0x80 then 1 else if r < 0x800 then 2 else if r < 0x1_0000 then 3 else 4
  }

  /** Go's `len` of a string. */
  function ByteLen(s: string): (n: nat)
    ensures n >= |s|
  {
    if s == "" then 0 else RuneLen(s[0]) + ByteLen(s[1..])
  }

  function SignLen(s: string): (n: nat)
    ensures n <= |s|
  {
    if s != "" && s[0] == '-' then 1 else 0
  }

  // ------------------------------------------------- The scanner cuts soundly

  lemma TextCons(c: Component, cs: seq<Component>)
    requires ValidComponent(c) && ValidComponents(cs)
    ensures ValidComponents([c] + cs)
    ensures Text([c] + cs) == c.Text() + Text(cs)
    ensures Sum([c] + cs) == c.Nanos() + Sum(cs)
  {
    assert ([c] + cs)[1..] == cs;
  }

  lemma {:induction false} DigitsEndIsRun(a: string, i: nat, k: nat)
    requires i <= |a| && i <= k < DigitsEnd(a, i)
    ensures IsDigit(a[k])
    decreases |a| - i
  {
    if i < k {
      DigitsEndIsRun(a, i + 1, k);
    }
  }

  lemma ComponentAtText(a: string, i: nat)
    requires i <= |a| && ComponentAt(a, i).Some?
    ensures var c := ComponentAt(a, i).value; a[i..i + c.Len()] == c.Text()
  {
    var j := DigitsEnd(a, i);
    var u := UnitAt(a, j).value;
    assert a[j..j + u.Len()] == u.Name();
    assert a[i..j + u.Len()] == a[i..j] + a[j..j + u.Len()];
  }

  lemma SliceJoin(s: string, i: nat, j: nat)
    requires i <= j <= |s|
    ensures s[i..] == s[i..j] + s[j..]
  {
  }

  lemma SoundText(a: string, i: nat, c: Component)
    requires i <= |a| && ComponentAt(a, i) == Some(c)
    ensures c.Text() + a[i + c.Len()..] == a[i..]
  {
    ComponentAtText(a, i);
    SliceJoin(a, i, i + c.Len());
  }

  lemma SoundStep(a: string, i: nat, cs: seq<Component>)
    requires i <= |a| && cs != [] && ComponentAt(a, i) == Some(cs[0])
    requires ValidComponents(cs[1..]) && Text(cs[1..]) == a[i + cs[0].Len()..]
    ensures ValidComponents(cs) && Text(cs) == a[i..]
  {
    assert cs == [cs[0]] + cs[1..];
    SoundText(a, i, cs[0]);
  }

  // ------------------------------------------- and finds every valid division

  lemma {:induction false} DigitsEndOf(a: string, i: nat, j: nat)
    requires i <= j <= |a| && forall k :: i <= k < j ==> IsDigit(a[k])
    requires j < |a| ==> !IsDigit(a[j])
    ensures DigitsEnd(a, i) == j
    decreases j - i
  {
    if i < j {
      DigitsEndOf(a, i + 1, j);
    }
  }

  /** No unit continues into the next component, which starts with a digit. */
  lemma UnitAtOf(a: string, j: nat, unit: Unit)
    requires j + unit.Len() <= |a| && a[j..j + unit.Len()] == unit.Name()
    requires j + unit.Len() < |a| ==> IsDigit(a[j + unit.Len()])
    ensures UnitAt(a, j) == Some(unit) && !IsDigit(a[j])
  {
    assert forall k :: 0 <= k < unit.Len() ==> a[j + k] == unit.Name()[k];
    assert a[j] == unit.Name()[0];
    if unit.Len() == 2 {
      assert a[j + 1] == unit.Name()[1];
    }
  }

  lemma {:induction false} TextStart(cs: seq<Component>)
    requires ValidComponents(cs) && cs != []
    ensures |Text(cs)| >= 2 && IsDigit(Text(cs)[0])
  {
    assert ValidComponent(cs[0]);
  }

  lemma ComponentAtOf(a: string, i: nat, c: Component, rest: string)
    requires i <= |a| && ValidComponent(c) && a[i..] == c.Text() + rest
    requires rest != "" ==> IsDigit(rest[0])
    ensures ComponentAt(a, i) == Some(c)
    ensures i + c.Len() <= |a| && a[i + c.Len()..] == rest
  {
    var j, t := i + |c.digits|, a[i..];
    assert |t| == |a| - i;
    assert a[i..j] == t[..|c.digits|] == c.digits;
    var k := j + c.unit.Len();
    assert a[j..k] == t[|c.digits|..c.Len()] == c.unit.Name();
    assert a[k..] == t[c.Len()..] == rest;
    assert k < |a| ==> a[k] == rest[0];
    UnitAtOf(a, j, c.unit);
    assert forall m :: i <= m < j ==> a[m] == c.digits[m - i];
    DigitsEndOf(a, i, j);
  }

  lemma ComponentAtCons(a: string, i: nat, cs: seq<Component>)
    requires i <= |a| && ValidComponents(cs) && cs != [] && a[i..] == Text(cs)
    ensures ComponentAt(a, i) == Some(cs[0])
    ensures i < i + cs[0].Len() <= |a| && a[i + cs[0].Len()..] == Text(cs[1..])
    ensures ValidComponents(cs[1..])
  {
    assert ValidComponent(cs[0]);
    if cs[1..] != [] {
      TextStart(cs[1..]);
    }
    ComponentAtOf(a, i, cs[0], Text(cs[1..]));
  }

  /** The scanner meets these components one after the other. */
  ghost predicate Meets(a: string, i: nat, cs: seq<Component>)
    requires i <= |a|
    decreases |cs|
  {
    if cs == [] then i == |a| else i < |a| && ComponentAt(a, i) == Some(cs[0]) && Meets(a, i + cs[0].Len(), cs[1..])
  }

  lemma MeetsFirst(a: string, i: nat, cs: seq<Component>)
    requires i <= |a| && ValidComponents(cs) && a[i..] == Text(cs)
    requires cs != [] && i + cs[0].Len() <= |a| ==> Meets(a, i + cs[0].Len(), cs[1..])
    ensures Meets(a, i, cs)
  {
    if cs == [] {
      assert |a[i..]| == 0;
    } else {
      ComponentAtCons(a, i, cs);
    }
  }

  lemma TextTail(a: string, i: nat, cs: seq<Component>)
    requires i <= |a| && cs != [] && a[i..] == Text(cs)
    ensures i + cs[0].Len() <= |a| && a[i + cs[0].Len()..] == Text(cs[1..])
  {
    assert a[i + cs[0].Len()..] == a[i..][cs[0].Len()..];
  }

  lemma {:induction false} TextMeets(a: string, i: nat, cs: seq<Component>)
    requires i <= |a| && ValidComponents(cs) && a[i..] == Text(cs)
    ensures Meets(a, i, cs)
    decreases |cs|
  {
    if cs != [] {
      TextTail(a, i, cs);
      TextMeets(a, i + cs[0].Len(), cs[1..]);
    }
    MeetsFirst(a, i, cs);
  }

  lemma ComponentsCons(a: string, i: nat, cs: seq<Component>)
    requires i < |a| && cs != [] && ComponentAt(a, i) == Some(cs[0]) && Components(a, i + cs[0].Len()) == Some(cs[1..])
    ensures Components(a, i) == Some(cs)
  {
    assert cs == [cs[0]] + cs[1..];
  }

  lemma {:induction false} MeetsComponents(a: string, i: nat, cs: seq<Component>)
    requires i <= |a| && Meets(a, i, cs)
    ensures Components(a, i) == Some(cs)
    decreases |cs|
  {
    if cs != [] {
      MeetsComponents(a, i + cs[0].Len(), cs[1..]);
      ComponentsCons(a, i, cs);
    }
  }

  lemma {:induction false} MeetsText(a: string, i: nat, cs: seq<Component>)
    requires i <= |a| && Meets(a, i, cs)
    ensures ValidComponents(cs) && Text(cs) == a[i..]
    decreases |cs|
  {
    if cs != [] {
      MeetsText(a, i + cs[0].Len(), cs[1..]);
      SoundStep(a, i, cs);
    }
  }

  lemma {:induction false} ComponentsMeet(a: string, i: nat, cs: seq<Component>)
    requires i <= |a| && Components(a, i) == Some(cs)
    ensures Meets(a, i, cs)
    decreases |cs|
  {
    if cs != [] {
      assert cs[1..] == Components(a, i + cs[0].Len()).value;
      ComponentsMeet(a, i + cs[0].Len(), cs[1..]);
    }
  }

  /** What the scanner cuts a text into spells the text. */
  lemma ComponentsSound(a: string, i: nat)
    requires i <= |a| && Components(a, i).Some?
    ensures Text(Components(a, i).value) == a[i..]
  {
    ComponentsMeet(a, i, Components(a, i).value);
    MeetsText(a, i, Components(a, i).value);
  }

  /** Every valid division of a text is the one that the scanner finds. */
  lemma ComponentsComplete(a: string, i: nat, cs: seq<Component>)
    requires i <= |a| && ValidComponents(cs) && a[i..] == Text(cs)
    ensures Components(a, i) == Some(cs)
  {
    TextMeets(a, i, cs);
    MeetsComponents(a, i, cs);
  }

  /** The division of a text into components is unique, whatever the lookahead. */
  lemma TextInjective(cs: seq<Component>, ds: seq<Component>)
    requires ValidComponents(cs) && ValidComponents(ds)
    requires Text(cs) == Text(ds)
    ensures cs == ds
  {
    assert Text(cs)[0..] == Text(cs);
    ComponentsComplete(Text(cs), 0, cs);
    ComponentsComplete(Text(cs), 0, ds);
  }

  lemma SignOf(s: string, negative: bool, cs: seq<Component>)
    requires Denotes(s, negative, cs)
    ensures |s| >= 2 && negative == (SignLen(s) == 1) && s[SignLen(s)..] == Text(cs)
  {
    TextStart(cs);
    assert negative ==> s[1..] == Text(cs);
    assert !negative ==> s == Text(cs) && s[0..] == s;
  }

  /** A text has at most one reading: the lookahead leaves no ambiguity. */
  lemma DenotesUnique(s: string, n1: bool, cs1: seq<Component>, n2: bool, cs2: seq<Component>)
    requires Denotes(s, n1, cs1) && Denotes(s, n2, cs2)
    ensures n1 == n2 && cs1 == cs2
  {
    SignOf(s, n1, cs1);
    SignOf(s, n2, cs2);
    TextInjective(cs1, cs2);
  }

  lemma ParseIs(s: string, negative: bool, cs: seq<Component>)
    requires Denotes(s, negative, cs)
    ensures Parse(s) == Meaning(negative, cs)
  {
    var n', cs' :| Denotes(s, n', cs') && Parse(s) == Meaning(n', cs');
    DenotesUnique(s, negative, cs, n', cs');
  }

  // --------------------------------------------------------- The loop itself

  lemma ScaleTwice(n: int, a: int, b: int)
    ensures Wrap(Wrap(n * a) * b) == Wrap(n * (a * b))
  {
    WrapMul(n * a, b);
    assert n * a * b == n * (a * b);
  }

  /** `n` times three factors, wrapping after each, is one wrapped product. */
  lemma ScaleThrice(n: int, a: int, b: int, c: int)
    ensures Wrap(Wrap(Wrap(n * a) * b) * c) == Wrap(n * (a * b * c))
  {
    ScaleTwice(n, a, b);
    ScaleTwice(n, a * b, c);
  }

  /** The switch over the unit: adds `n` units to `d` and steps past the unit. */
  method AddUnit(a: string, i: nat, n: int, d: int)
    returns (ok: bool, unit: Unit, total: int, next: nat)
    requires i < |a| && IsInt64(d)
    ensures ok == UnitAt(a, i).Some?
    ensures ok ==> unit == UnitAt(a, i).value && next == i + unit.Len()
    ensures ok ==> total == Wrap(d + unit.Nanos(n))
  {
    ok, unit, total, next := true, N, d, i;
    var amount := 0;
    var following := if i + 1 < |a| then a[i + 1] else ' ';
    match a[i] {
      case 'n' =>
        amount := Wrap(n * NANOSECOND);
        if following == 's' {
          unit, next := Ns, next + 1;
        }
      case 'u' =>
        unit := U;
        amount := Wrap(n * MICROSECOND);
        if following == 's' {
          unit, next := Us, next + 1;
        }
      case 'µ' =>
        unit := Mu;
        amount := Wrap(n * MICROSECOND);
        if following == 's' {
          unit, next := Mus, next + 1;
        }
      case 'm' =>
        if following == 's' {
          unit, next := Ms, next + 1;
          amount := Wrap(n * MILLISECOND);
        } else if following == 'o' {
          unit, next := Mo, next + 1;
          amount := Wrap(Wrap(Wrap(n * 30) * 24) * HOUR);
          ScaleThrice(n, 30, 24, HOUR);
        } else {
          unit := M;
          amount := Wrap(n * MINUTE);
        }
      case 's' =>
        unit := S;
        amount := Wrap(n * SECOND);
      case 'h' =>
        unit := H;
        amount := Wrap(n * HOUR);
      case 'd' =>
        unit := D;
        amount := Wrap(Wrap(n * 24) * HOUR);
        ScaleTwice(n, 24, HOUR);
      case 'w' =>
        unit := W;
        amount := Wrap(Wrap(Wrap(n * 7) * 24) * HOUR);
        ScaleThrice(n, 7, 24, HOUR);
      case 'y' =>
        unit := Y;
        amount := Wrap(Wrap(Wrap(n * 365) * 24) * HOUR);
        ScaleThrice(n, 365, 24, HOUR);
      case _ =>
        ok := false;
        return;
    }
    assert amount == Wrap(unit.Nanos(n));
    WrapAdd(d, unit.Nanos(n));
    total := Wrap(d + amount);
    next := next + 1;
  }

  lemma ByteLenMinus()
    ensures ByteLen("-") == 1
  {
    assert "-"[1..] == "";
  }

  lemma SignSplit(s: string)
    requires ByteLen(s) >= 2
    ensures SignLen(s) < |s|
    ensures s == (if SignLen(s) == 1 then "-" else "") + s[SignLen(s)..]
  {
    ByteLenMinus();
    assert |s| == 1 && s[0] == '-' ==> s == "-";
  }

  /** What the scanner returns for the components it meets, with total `d` so far. */
  function Evaluate(negative: bool, cs: seq<Component>, d: int, measure: int, unit: Unit): ParseResult
    requires ValidComponents(cs)
  {
    if cs == [] then Conclude(negative, d, measure, unit)
    else
      assert ValidComponent(cs[0]);
      Evaluate(negative, cs[1..], Wrap(d + cs[0].Nanos()), Value(cs[0].digits), cs[0].unit)
  }

  /** What the scanner will return from position `i` on. */
  function Outcome(s: string, i: nat, d: int, measure: int, unit: Unit): ParseResult
    requires i <= |s|
  {
    match Components(s, i)
    case None => InvalidDuration
    case Some(cs) => Evaluate(SignLen(s) == 1, cs, d, measure, unit)
  }

  /** The function that the method `ParseDuration` below computes. */
  function Scan(s: string): ParseResult {
    if ByteLen(s) < 2 then InvalidDuration else Outcome(s, SignLen(s), 0, 0, N)
  }

  lemma EvaluateCons(negative: bool, c: Component, rest: seq<Component>, d: int, measure: int, unit: Unit)
    requires ValidComponent(c) && ValidComponents(rest)
    ensures ValidComponents([c] + rest)
    ensures Evaluate(negative, [c] + rest, d, measure, unit) ==
            Evaluate(negative, rest, Wrap(d + c.Nanos()), Value(c.digits), c.unit)
  {
    assert ([c] + rest)[1..] == rest;
  }

  lemma OutcomeNone(s: string, i: nat, d: int, measure: int, unit: Unit)
    requires i < |s| && ComponentAt(s, i) == None
    ensures Outcome(s, i, d, measure, unit) == InvalidDuration
  {
  }

  lemma OutcomeSome(s: string, i: nat, c: Component, d: int, measure: int, unit: Unit)
    requires i < |s| && ComponentAt(s, i) == Some(c)
    ensures Outcome(s, i, d, measure, unit) == Outcome(s, i + c.Len(), Wrap(d + c.Nanos()), Value(c.digits), c.unit)
  {
    match Components(s, i + c.Len()) {
      case None =>
      case Some(rest) => EvaluateCons(SignLen(s) == 1, c, rest, d, measure, unit);
    }
  }

  lemma WrapStep(a: int, b: int, c: int)
    ensures Wrap(Wrap(a + b) + c) == Wrap(a + (b + c))
  {
    WrapAdd(a + b, c);
    WrapAdd(Wrap(a + b), c);
  }

  lemma EvaluateOne(negative: bool, c: Component, d: int, measure: int, unit: Unit)
    requires ValidComponent(c)
    ensures Evaluate(negative, [c], d, measure, unit) == Conclude(negative, Wrap(d + Sum([c])), Value(c.digits), c.unit)
  {
    TextCons(c, []);
    EvaluateCons(negative, c, [], d, measure, unit);
    assert [c] + [] == [c];
  }

  lemma SumWrapped(c: Component, tail: seq<Component>, d: int)
    requires ValidComponent(c) && ValidComponents(tail)
    ensures ValidComponents([c] + tail)
    ensures Wrap(Wrap(d + c.Nanos()) + Sum(tail)) == Wrap(d + Sum([c] + tail))
  {
    TextCons(c, tail);
    WrapStep(d, c.Nanos(), Sum(tail));
  }

  /** Wrapping after every component comes to the same as wrapping the exact sum once. */
  lemma {:induction false} EvaluateIsMeaning(negative: bool, cs: seq<Component>, d: int, measure: int, unit: Unit)
    requires ValidComponents(cs) && cs != []
    ensures Evaluate(negative, cs, d, measure, unit) ==
            Conclude(negative, Wrap(d + Sum(cs)), Value(cs[|cs| - 1].digits), cs[|cs| - 1].unit)
  {
    var c, tail := cs[0], cs[1..];
    assert cs == [c] + tail;
    EvaluateCons(negative, c, tail, d, measure, unit);
    if tail == [] {
      EvaluateOne(negative, c, d, measure, unit);
      assert cs == [c];
    } else {
      EvaluateIsMeaning(negative, tail, Wrap(d + c.Nanos()), Value(c.digits), c.unit);
      SumWrapped(c, tail, d);
      assert tail[|tail| - 1] == cs[|cs| - 1];
    }
  }

  lemma ScanEvaluates(s: string, cs: seq<Component>)
    requires ByteLen(s) >= 2 && ValidComponents(cs) && Components(s, SignLen(s)) == Some(cs)
    ensures Scan(s) == Evaluate(SignLen(s) == 1, cs, 0, 0, N)
  {
  }

  lemma EvaluateFromZero(negative: bool, cs: seq<Component>)
    requires ValidComponents(cs) && cs != []
    ensures Evaluate(negative, cs, 0, 0, N) == Meaning(negative, cs)
  {
    EvaluateIsMeaning(negative, cs, 0, 0, N);
    assert 0 + Sum(cs) == Sum(cs);
  }

  lemma ScanWellFormed(s: string, negative: bool, cs: seq<Component>)
    requires Denotes(s, negative, cs)
    ensures Scan(s) == Meaning(negative, cs)
  {
    EvaluateFromZero(negative, cs);
    SignOf(s, negative, cs);
    ComponentsComplete(s, SignLen(s), cs);
    ScanEvaluates(s, cs);
  }

  lemma ScanAccepts(s: string)
    requires Scan(s) != InvalidDuration
    ensures WellFormed(s)
  {
    ComponentsSound(s, SignLen(s));
    SignSplit(s);
    assert Denotes(s, SignLen(s) == 1, Components(s, SignLen(s)).value);
  }

  /** The scanner implements the grammar: it returns the meaning of every text. */
  lemma ScanIsParse(s: string)
    ensures Scan(s) == Parse(s)
  {
    if WellFormed(s) {
      var negative, cs :| Denotes(s, negative, cs);
      ScanWellFormed(s, negative, cs);
      ParseIs(s, negative, cs);
    } else if Scan(s) != InvalidDuration {
      ScanAccepts(s);
    }
  }

  /** One round of the outer loop: scan digits, convert them, switch over the unit. */
  method NextComponent(s: string, start: nat, d: int)
    returns (ok: bool, measure: int, unit: Unit, total: int, next: nat)
    requires start < |s| && IsInt64(d)
    ensures ok == ComponentAt(s, start).Some?
    ensures ok ==> var c := ComponentAt(s, start).value;
                   && measure == Value(c.digits) && unit == c.unit
                   && total == Wrap(d + c.Nanos()) && next == start + c.Len()
  {
    measure, unit, total, next := 0, N, d, start;
    var i := start;
    while i < |s| && IsDigit(s[i])
      invariant start <= i <= |s| && DigitsEnd(s, start) == DigitsEnd(s, i)
    {
      i := i + 1;
    }
    if i >= |s| || i == start {
      return false, measure, unit, total, next;
    }
    var n := ParseDigits(s[start..i]);
    if n.None? {
      return false, measure, unit, total, next;
    }
    measure := n.value;
    ok, unit, total, next := AddUnit(s, i, measure, d);
  }

  lemma OutcomeEnd(s: string, d: int, measure: int, unit: Unit)
    ensures Outcome(s, |s|, d, measure, unit) == Conclude(SignLen(s) == 1, d, measure, unit)
  {
  }

  /** The same round, stated on what the scanner will return. */
  method ScanNext(s: string, start: nat, d: int, ghost was: int, ghost of: Unit)
    returns (ok: bool, measure: int, unit: Unit, total: int, next: nat)
    requires start < |s| && IsInt64(d)
    ensures ok ==> start < next <= |s| && IsInt64(total) && Outcome(s, start, d, was, of) == Outcome(s, next, total, measure, unit)
    ensures !ok ==> Outcome(s, start, d, was, of) == InvalidDuration
  {
    ok, measure, unit, total, next := NextComponent(s, start, d);
    if ok {
      OutcomeSome(s, start, ComponentAt(s, start).value, d, was, of);
    } else {
      OutcomeNone(s, start, d, was, of);
    }
  }

  /** The scanning loop with its early exits, and the overflow check at its end. */
  method ScanComponents(s: string) returns (r: ParseResult)
    requires s != ""
    ensures r == Outcome(s, SignLen(s), 0, 0, N)
  {
    var d, i, negative := 0, 0, false;
    if s[i] == '-' {
      negative := true;
      i := i + 1;
    }
    var measure, unit := 0, N;
    while i < |s|
      invariant i <= |s| && IsInt64(d)
      invariant Outcome(s, i, d, measure, unit) == Outcome(s, SignLen(s), 0, 0, N)
    {
      var ok;
      ok, measure, unit, d, i := ScanNext(s, i, d, measure, unit);
      if !ok {
        return InvalidDuration;
      }
    }
    OutcomeEnd(s, d, measure, unit);
    if d < 0 && !negative {
      return Overflowed(measure, unit);
    }
    if negative {
      d := Wrap(-d);
    }
    return Parsed(d);
  }

  /** http/duration.go, ParseDuration: returns the meaning of every text. */
  method ParseDuration(s: string) returns (r: ParseResult)
    ensures r == Parse(s)
  {
    ScanIsParse(s);
    if ByteLen(s) < 2 {
      return InvalidDuration;
    }
    r := ScanComponents(s);
  }
}
