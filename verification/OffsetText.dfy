/**
  http/task_service.go, customParseDuration: the offset of a task printed in
  hours, minutes and seconds, and read back by `ParseDuration`.
 */
module OffsetText {
  import opened GoInt
  import opened Decimal
  import opened Durations
  import DurationLaws

  function Part(n: int, u: Unit): string {
    if n == 0 then "" else FormatInt(n) + u.Name()
  }

  /** The magnitude the printer works on: `d * -1` wraps for the least integer. */
  function Magnitude(d: int): (a: int)
    ensures IsInt64(d) ==> IsInt64(a)
  {
    if d < 0 then Wrap(-d) else d
  }

  function Hours(a: int): int {
    Quo(a, 3_600_000_000_000)
  }

  function Minutes(a: int): int {
    Quo(Rem(a, 3_600_000_000_000), 60_000_000_000)
  }

  function Seconds(a: int): int {
    Quo(Rem(a, 60_000_000_000), 1_000_000_000)
  }

  function Sign(d: int): string {
    if d < 0 then "-" else ""
  }

  /** Sign, then every non-zero part. */
  function OffsetString(d: int): string {
    var a := Magnitude(d);
    Sign(d) + Part(Hours(a), H) + Part(Minutes(a), M) + Part(Seconds(a), S)
  }

  lemma HourParts(a: int)
    ensures a == Hours(a) * 3_600_000_000_000 + Rem(a, 3_600_000_000_000)
    ensures -3_600_000_000_000 < Rem(a, 3_600_000_000_000) < 3_600_000_000_000
  {
  }

  lemma MinuteParts(r: int)
    ensures r == Quo(r, 60_000_000_000) * 60_000_000_000 + Rem(r, 60_000_000_000)
    ensures -60_000_000_000 < Rem(r, 60_000_000_000) < 60_000_000_000
  {
  }

  lemma SecondParts(r: int)
    ensures r == Quo(r, 1_000_000_000) * 1_000_000_000 + Rem(r, 1_000_000_000)
  {
  }

  lemma ModMod(m: nat, b: nat)
    requires b > 0
    ensures m % (60 * b) % b == m % b
  {
    var q, r := m / (60 * b), m % (60 * b);
    var p := r / b;
    assert m == q * (60 * b) + r && r == p * b + r % b;
    assert m == (60 * q + p) * b + r % b by {
      assert q * (60 * b) == (60 * q) * b;
    }
    ModUnique(m, b, 60 * q + p, r % b);
  }

  lemma MulAtLeast(k: int, b: int)
    requires k >= 1 && b > 0
    ensures k * b >= b
  {
    assert k * b == b + (k - 1) * b;
  }

  lemma ModUnique(m: int, b: int, k: int, r: int)
    requires b > 0 && 0 <= r < b && m == k * b + r
    ensures m % b == r
  {
    var j := m / b;
    assert m == j * b + m % b;
    assert (k - j) * b == k * b - j * b && (j - k) * b == j * b - k * b;
    if k > j {
      MulAtLeast(k - j, b);
    } else if k < j {
      MulAtLeast(j - k, b);
    }
  }

  lemma MinutesInHour(a: int)
    ensures Rem(Rem(a, 3_600_000_000_000), 60_000_000_000) == Rem(a, 60_000_000_000)
  {
    ModMod(if a < 0 then -a else a, 60_000_000_000);
  }

  lemma SecondsInMinute(a: int)
    ensures Rem(Rem(a, 60_000_000_000), 1_000_000_000) == Rem(a, 1_000_000_000)
  {
    ModMod(if a < 0 then -a else a, 1_000_000_000);
  }

  lemma TakeOff(a: int, x: int, r: int)
    requires IsInt64(a) && IsInt64(x) && IsInt64(r) && a == x + r
    ensures Wrap(a - Wrap(x)) == r
  {
  }

  lemma HoursOff(a: int)
    requires IsInt64(a)
    ensures Wrap(a - Wrap(Hours(a) * 3_600_000_000_000)) == Rem(a, 3_600_000_000_000)
  {
    HourParts(a);
    assert Rem(a, 3_600_000_000_000) >= 0 <==> a >= 0 || Rem(a, 3_600_000_000_000) == 0;
    TakeOff(a, Hours(a) * 3_600_000_000_000, Rem(a, 3_600_000_000_000));
  }

  lemma MinutesOff(r: int)
    requires -3_600_000_000_000 < r < 3_600_000_000_000
    ensures Wrap(r - Wrap(Quo(r, 60_000_000_000) * 60_000_000_000)) == Rem(r, 60_000_000_000)
  {
    MinuteParts(r);
    TakeOff(r, Quo(r, 60_000_000_000) * 60_000_000_000, Rem(r, 60_000_000_000));
  }

  /** `fmt.Sprintf("%s%d<unit>", str, n)`, for a non-zero number. */
  function Append(str: string, n: int, u: Unit): (r: string)
    ensures r == str + Part(n, u)
  {
    if n != 0 then str + (FormatInt(n) + u.Name()) else str
  }

  lemma NothingLeft()
    ensures Quo(0, 60_000_000_000) == 0 && Rem(0, 60_000_000_000) == 0 && Quo(0, 1_000_000_000) == 0
  {
  }

  lemma EmptyPart(str: string, u: Unit)
    ensures str + Part(0, u) == str
  {
  }

  lemma EmptyParts(str: string, min: int, sec: int)
    requires min == 0 && sec == 0
    ensures str + Part(min, M) + Part(sec, S) == str
  {
    EmptyPart(str, M);
    EmptyPart(str, S);
  }

  /** The minutes and seconds of what is left after the hours. */
  method PrintMinutes(str0: string, rest: int) returns (str: string)
    requires -3_600_000_000_000 < rest < 3_600_000_000_000
    ensures str == str0 + Part(Quo(rest, 60_000_000_000), M) + Part(Quo(Rem(rest, 60_000_000_000), 1_000_000_000), S)
  {
    var min := Quo(rest, 60_000_000_000);
    str := Append(str0, min, M);
    if Rem(rest, 60_000_000_000) == 0 {
      NothingLeft();
      EmptyPart(str, S);
      return;
    }
    MinutesOff(rest);
    var left := Wrap(rest - Wrap(min * 60_000_000_000));
    var sec := Quo(left, 1_000_000_000);
    str := Append(str, sec, S);
  }

  lemma ClockEnds(d: int)
    requires IsInt64(d) && Rem(d, 3_600_000_000_000) == 0
    ensures Minutes(d) == 0 && Seconds(d) == 0
  {
    MinutesInHour(d);
    NothingLeft();
  }

  lemma ClockEndsText(str: string, d: int)
    requires IsInt64(d) && Rem(d, 3_600_000_000_000) == 0
    ensures str + Part(Minutes(d), M) + Part(Seconds(d), S) == str
  {
    ClockEnds(d);
    EmptyParts(str, Minutes(d), Seconds(d));
  }

  lemma ClockRest(d: int, rest: int)
    requires IsInt64(d) && rest == Wrap(d - Wrap(Hours(d) * 3_600_000_000_000))
    ensures -3_600_000_000_000 < rest < 3_600_000_000_000
    ensures Quo(rest, 60_000_000_000) == Minutes(d) && Quo(Rem(rest, 60_000_000_000), 1_000_000_000) == Seconds(d)
  {
    MinutesInHour(d);
    HourParts(d);
    HoursOff(d);
  }

  /** The hours, minutes and seconds; the printer stops early once nothing is left, which prints the same parts. */
  method PrintClock(str0: string, d: int) returns (str: string)
    requires IsInt64(d)
    ensures str == str0 + Part(Hours(d), H) + Part(Minutes(d), M) + Part(Seconds(d), S)
  {
    var hours := Quo(d, 3_600_000_000_000);
    str := Append(str0, hours, H);
    if Rem(d, 3_600_000_000_000) == 0 {
      ClockEndsText(str, d);
      return;
    }
    var rest := Wrap(d - Wrap(hours * 3_600_000_000_000));
    ClockRest(d, rest);
    str := PrintMinutes(str, rest);
  }

  /** http/task_service.go, customParseDuration. */
  method CustomParseDuration(d: int) returns (str: string)
    requires IsInt64(d)
    ensures str == OffsetString(d)
  {
    str := "";
    var rest := d;
    if rest < 0 {
      str := "-";
      rest := Wrap(-rest);
    }
    str := PrintClock(str, rest);
  }

  lemma ClockOf(h: nat, m: nat, s: nat, f: nat, a: int)
    requires m < 60 && s < 60 && f < 1_000_000_000
    requires a == h * 3_600_000_000_000 + m * 60_000_000_000 + s * 1_000_000_000 + f
    ensures Hours(a) == h && Minutes(a) == m && Seconds(a) == s
  {
    var r := m * 60_000_000_000 + s * 1_000_000_000 + f;
    assert Rem(a, 3_600_000_000_000) == r;
    assert Rem(a, 60_000_000_000) == s * 1_000_000_000 + f;
  }

  function Shown(n: nat, unit: string): string {
    if n == 0 then "" else FormatNat(n) + unit
  }

  /** The text of an offset of so many hours, minutes, seconds and a fraction: the fraction and what is zero are left out. */
  lemma OffsetShown(negative: bool, h: nat, m: nat, s: nat, f: nat)
    requires m < 60 && s < 60 && f < 1_000_000_000
    requires 0 < h * 3_600_000_000_000 + m * 60_000_000_000 + s * 1_000_000_000 + f <= MAX_INT64
    ensures var a := h * 3_600_000_000_000 + m * 60_000_000_000 + s * 1_000_000_000 + f;
            OffsetString(if negative then -a else a) ==
            (if negative then "-" else "") + Shown(h, "h") + Shown(m, "m") + Shown(s, "s")
  {
    ClockOf(h, m, s, f, h * 3_600_000_000_000 + m * 60_000_000_000 + s * 1_000_000_000 + f);
    DurationLaws.ShortNames();
  }

  // ------------------------------------------------------------ Reading back

  function PartComponents(n: int, u: Unit): seq<Component>
    requires n >= 0
  {
    if n == 0 then [] else [Component(FormatNat(n), u)]
  }

  lemma PartReading(n: int, u: Unit)
    requires 0 <= n <= MAX_INT64
    ensures var cs := PartComponents(n, u);
            ValidComponents(cs) && Durations.Text(cs) == Part(n, u) && Sum(cs) == n * u.Size()
  {
    if n > 0 {
      DurationLaws.SingleReading(n, u, false);
      var text := FormatNat(n) + u.Name();
      assert "" + text == text;
      assert "" + Durations.Text(PartComponents(n, u)) == Durations.Text(PartComponents(n, u));
    }
  }

  lemma Assoc<T>(a: seq<T>, b: seq<T>, c: seq<T>)
    ensures a + (b + c) == a + b + c
  {
  }

  lemma {:induction false} ReadingsJoin(cs: seq<Component>, ds: seq<Component>)
    requires ValidComponents(cs) && ValidComponents(ds)
    ensures ValidComponents(cs + ds)
    ensures Durations.Text(cs + ds) == Durations.Text(cs) + Durations.Text(ds)
    ensures Sum(cs + ds) == Sum(cs) + Sum(ds)
  {
    if cs == [] {
      assert cs + ds == ds;
      assert "" + Durations.Text(ds) == Durations.Text(ds);
    } else {
      var c, tail := cs[0], cs[1..];
      assert ValidComponent(c) && ValidComponents(tail);
      assert [c] + tail == cs;
      TextCons(c, tail);
      ReadingsJoin(tail, ds);
      TextCons(c, tail + ds);
      Assoc([c], tail, ds);
      Assoc(c.Text(), Durations.Text(tail), Durations.Text(ds));
    }
  }

  lemma JoinThree(cs: seq<Component>, ds: seq<Component>, es: seq<Component>)
    requires ValidComponents(cs) && ValidComponents(ds) && ValidComponents(es)
    ensures ValidComponents(cs + ds + es)
    ensures Durations.Text(cs + ds + es) == Durations.Text(cs) + Durations.Text(ds) + Durations.Text(es)
    ensures Sum(cs + ds + es) == Sum(cs) + Sum(ds) + Sum(es)
  {
    ReadingsJoin(cs, ds);
    ReadingsJoin(cs + ds, es);
  }

  function ClockComponents(a: int): seq<Component>
    requires a >= 0
  {
    PartComponents(Hours(a), H) + PartComponents(Minutes(a), M) + PartComponents(Seconds(a), S)
  }

  lemma ClockSum(a: int)
    requires 0 <= a <= MAX_INT64
    ensures 0 <= Hours(a) <= MAX_INT64 && 0 <= Minutes(a) <= MAX_INT64 && 0 <= Seconds(a) <= MAX_INT64
    ensures Hours(a) * 3_600_000_000_000 + Minutes(a) * 60_000_000_000 + Seconds(a) * 1_000_000_000
         == a / 1_000_000_000 * 1_000_000_000
  {
    HourParts(a);
    MinuteParts(Rem(a, 3_600_000_000_000));
    MinutesInHour(a);
    SecondParts(Rem(a, 60_000_000_000));
    SecondsInMinute(a);
    SecondParts(a);
  }

  lemma ClockReading(a: int)
    requires 0 <= a <= MAX_INT64
    ensures var cs := ClockComponents(a);
            && ValidComponents(cs)
            && Durations.Text(cs) == Part(Hours(a), H) + Part(Minutes(a), M) + Part(Seconds(a), S)
            && Sum(cs) == a / 1_000_000_000 * 1_000_000_000
            && (cs == [] <==> a < 1_000_000_000)
  {
    ClockSum(a);
    PartReading(Hours(a), H);
    PartReading(Minutes(a), M);
    PartReading(Seconds(a), S);
    JoinThree(PartComponents(Hours(a), H), PartComponents(Minutes(a), M), PartComponents(Seconds(a), S));
  }

  lemma ClockDenotes(d: int)
    requires IsInt64(d) && d != MIN_INT64
    requires Magnitude(d) >= 1_000_000_000
    ensures Denotes(OffsetString(d), d < 0, ClockComponents(Magnitude(d)))
  {
    var a := Magnitude(d);
    ClockReading(a);
    Assoc(Sign(d), Part(Hours(a), H), Part(Minutes(a), M));
    Assoc(Sign(d), Part(Hours(a), H) + Part(Minutes(a), M), Part(Seconds(a), S));
  }

  lemma WholePart(d: int)
    requires IsInt64(d) && d != MIN_INT64
    ensures var x := Magnitude(d) / 1_000_000_000 * 1_000_000_000;
            0 <= x <= MAX_INT64 && Quo(d, 1_000_000_000) * 1_000_000_000 == if d < 0 then -x else x
  {
  }

  lemma ClockParses(d: int)
    requires IsInt64(d) && d != MIN_INT64
    requires Magnitude(d) >= 1_000_000_000
    ensures Parse(OffsetString(d)) == Parsed(Quo(d, 1_000_000_000) * 1_000_000_000)
  {
    var a := Magnitude(d);
    ClockDenotes(d);
    ClockReading(a);
    WholePart(d);
    DurationLaws.ReadsExactly(OffsetString(d), d < 0, ClockComponents(a),
                              a / 1_000_000_000 * 1_000_000_000);
  }

  /** Below one second nothing is printed after the sign. */
  lemma ShortUnreadable(d: int)
    requires IsInt64(d) && d != MIN_INT64 && Magnitude(d) < 1_000_000_000
    ensures OffsetString(d) == Sign(d)
    ensures Parse(OffsetString(d)) == InvalidDuration
  {
    var a := Magnitude(d);
    assert Hours(a) == 0 && Minutes(a) == 0 && Seconds(a) == 0;
    assert Sign(d) + "" + "" + "" == Sign(d);
    ByteLenMinus();
    ScanIsParse(Sign(d));
  }

  /** The least integer keeps its sign after `d * -1`, so two signs are printed. */
  lemma LeastUnreadable()
    ensures Parse(OffsetString(MIN_INT64)) == InvalidDuration
  {
    var s := OffsetString(MIN_INT64);
    WrapUnique(TWO63, MIN_INT64, 1);
    assert Magnitude(MIN_INT64) == MIN_INT64;
    assert Hours(MIN_INT64) < 0;
    assert s[0] == '-' && s[1] == '-';
    DurationLaws.FirstComponentMissing(s);
  }

  /** The printed offset reads back as the offset cut to whole seconds, from one second up. */
  lemma OffsetReads(d: int)
    requires IsInt64(d)
    ensures Parse(OffsetString(d)) ==
            if d != MIN_INT64 && (d >= 1_000_000_000 || d <= -1_000_000_000)
            then Parsed(Quo(d, 1_000_000_000) * 1_000_000_000) else InvalidDuration
  {
    if d == MIN_INT64 {
      LeastUnreadable();
    } else if Magnitude(d) >= 1_000_000_000 {
      ClockParses(d);
    } else {
      ShortUnreadable(d);
    }
  }

  lemma WholeSeconds(d: int)
    requires Rem(d, 1_000_000_000) == 0 && d != 0
    ensures d != MIN_INT64 && (d >= 1_000_000_000 || d <= -1_000_000_000)
    ensures Quo(d, 1_000_000_000) * 1_000_000_000 == d
  {
  }

  /** On whole seconds the two printers are read alike, though they print differently. */
  lemma PrintersAgree(d: int)
    requires IsInt64(d) && Rem(d, 1_000_000_000) == 0 && d != 0
    ensures Parse(OffsetString(d)) == Parsed(d) == Parse(DurationLaws.FormatDuration(d))
  {
    WholeSeconds(d);
    assert Parse(OffsetString(d)) == Parsed(d) by {
      OffsetReads(d);
    }
    DurationLaws.FormatReads(d);
  }
}
