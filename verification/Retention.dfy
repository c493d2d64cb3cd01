/**
  http/bucket_service.go: a bucket's retention period in nanoseconds and as the
  whole seconds of a retention rule.
 */
module Retention {
  import opened GoInt
  import opened Wrappers
  import opened Ids
  import opened BucketTypes

  // ----------------------------------------------------------------- Periods

  /** `time.Duration.Round(time.Second)`: half a second away from zero, and the extreme value where that overflows. */
  function RoundSecond(d: int): int
    requires IsInt64(d)
  {
    var r := Rem(d, 1_000_000_000);
    if d < 0 then
      if -r + -r < 1_000_000_000 then Wrap(d - r)
      else
        var down := Wrap(d - 1_000_000_000 - r);
        if down < d then down else MIN_INT64
    else if r + r < 1_000_000_000 then Wrap(d - r)
    else
      var up := Wrap(d + 1_000_000_000 - r);
      if up > d then up else MAX_INT64
  }

  /** The seconds that newBucket writes for a period. */
  function Seconds(d: int): int
    requires IsInt64(d)
  {
    Quo(RoundSecond(d), 1_000_000_000)
  }

  /** `time.Duration(seconds) * time.Second`. */
  function Nanos(seconds: int): int {
    Wrap(seconds * 1_000_000_000)
  }

  /** http/bucket_service.go, retentionRule.RetentionPeriod; `None` is the error. */
  function RetentionPeriod(seconds: int): Option<int> {
    if Nanos(seconds) < 1_000_000_000 then None else Some(Nanos(seconds))
  }

  /** A rule means its number of seconds exactly up to the largest that fits a period. */
  lemma RetentionExactIff(seconds: int)
    requires IsInt64(seconds)
    ensures RetentionPeriod(seconds) == Some(seconds * 1_000_000_000) <==> 1 <= seconds <= 9_223_372_036
  {
  }

  /** A rule is accepted exactly if its period, modulo 2^64, is a second at least and not negative. */
  lemma RetentionAcceptedIff(seconds: int)
    requires IsInt64(seconds)
    ensures RetentionPeriod(seconds).Some? <==> 1_000_000_000 <= seconds * 1_000_000_000 % TWO64 < TWO63
    ensures RetentionPeriod(seconds).Some? ==> RetentionPeriod(seconds).value == seconds * 1_000_000_000 % TWO64
  {
    var x := seconds * 1_000_000_000;
    var m, k := x % TWO64, x / TWO64;
    assert x == m + k * TWO64;
    if m < TWO63 {
      WrapUnique(x, m, k);
    } else {
      WrapUnique(x, m - TWO64, k + 1);
    }
  }

  /** Beyond that a rule can be accepted for a wrapped period. */
  lemma RetentionWraps()
    ensures RetentionPeriod(18_446_744_075) == Some(1_290_448_384)
  {
    WrapUnique(18_446_744_075 * 1_000_000_000, 1_290_448_384, 1);
  }

  /** The seconds of a period: the nearest, or the last whole second where the nearest does not fit. */
  lemma SecondsNearest(d: int)
    requires 0 <= d <= MAX_INT64
    ensures 0 <= Seconds(d) <= 9_223_372_036
    ensures d < 9_223_372_036_500_000_000 ==> -500_000_000 <= d - Seconds(d) * 1_000_000_000 < 500_000_000
    ensures d >= 9_223_372_036_500_000_000 ==> Seconds(d) == 9_223_372_036
    ensures Seconds(d) == 0 <==> d < 500_000_000
  {
    var q, r := d / 1_000_000_000, d % 1_000_000_000;
    assert d == q * 1_000_000_000 + r;
    if r + r < 1_000_000_000 {
      WholeSeconds(q);
    } else if d < 9_223_372_036_500_000_000 {
      assert d + 1_000_000_000 - r == (q + 1) * 1_000_000_000;
      WholeSeconds(q + 1);
    } else {
      WrapUnique(d + 1_000_000_000 - r, d + 1_000_000_000 - r - TWO64, 1);
    }
  }

  lemma WholeSeconds(q: nat)
    ensures q * 1_000_000_000 / 1_000_000_000 == q
  {
  }

  lemma SecondsOfNegative(d: int)
    requires MIN_INT64 <= d < 0
    ensures Seconds(d) <= 0
  {
  }

  // ----------------------------------------------------------------- Buckets

  /** http/bucket_service.go, bucket: only the seconds of a rule are read. */
  datatype HttpBucket = HttpBucket(
    id: ID, org: ID, kind: string, name: string, description: string, policy: string, rules: seq<int>)

  /** bucket.go, BucketType.String and ParseBucketType. */
  function TypeText(kind: int): string {
    if kind == SYSTEM_TYPE then "system" else "user"
  }

  function ParseType(s: string): int {
    if s == "system" then SYSTEM_TYPE else USER_TYPE
  }

  /** http/bucket_service.go, newBucket. */
  function NewBucket(b: Bucket): HttpBucket
    requires IsInt64(b.period)
  {
    var rp := Seconds(b.period);
    HttpBucket(b.id, b.org, TypeText(b.kind), b.name, b.description, b.policy, if rp > 0 then [rp] else [])
  }

  /** http/bucket_service.go, bucket.toInfluxDB; `None` is the error. */
  function ToInfluxDB(h: HttpBucket): Option<Bucket> {
    var d := if |h.rules| > 0 then Nanos(h.rules[0]) else 0;
    if |h.rules| > 0 && d < 1_000_000_000 then None
    else Some(Bucket(h.id, h.org, ParseType(h.kind), h.name, h.description, h.policy, d))
  }

  /** The HTTP form: the type as text, and one rule of the seconds unless there are none. */
  lemma HttpForm(b: Bucket)
    requires IsInt64(b.period)
    ensures var h := NewBucket(b);
            && h.kind == (if b.kind == 1 then "system" else "user")
            && (h.rules == [] <==> b.period < 500_000_000)
            && (h.rules != [] ==> |h.rules| == 1 && h.rules[0] == Seconds(b.period) > 0)
            && h.id == b.id && h.org == b.org && h.name == b.name
            && h.description == b.description && h.policy == b.policy
  {
    if b.period < 0 {
      SecondsOfNegative(b.period);
    } else {
      SecondsNearest(b.period);
    }
  }

  /** The form is refused exactly for a rule that is; without a rule the bucket never expires. */
  lemma ToInfluxDBIff(h: HttpBucket)
    ensures ToInfluxDB(h).None? <==> h.rules != [] && RetentionPeriod(h.rules[0]).None?
    ensures ToInfluxDB(h).Some? ==>
              var b := ToInfluxDB(h).value;
              && (if h.rules == [] then b.period == 0 else Some(b.period) == RetentionPeriod(h.rules[0]))
              && b.kind == (if h.kind == "system" then 1 else 0)
              && b.id == h.id && b.org == h.org && b.name == h.name
              && b.description == h.description && b.policy == h.policy
  {
  }

  /** What a bucket is after a trip through its HTTP form. */
  function Settled(b: Bucket): Bucket
    requires IsInt64(b.period)
  {
    b.(kind := if b.kind == SYSTEM_TYPE then SYSTEM_TYPE else USER_TYPE,
       period := if b.period < 0 then 0 else Seconds(b.period) * 1_000_000_000)
  }

  lemma TypeTrip(kind: int)
    ensures ParseType(TypeText(kind)) == if kind == SYSTEM_TYPE then SYSTEM_TYPE else USER_TYPE
  {
    assert "user"[0] != "system"[0];
  }

  /** The trip never fails, for any period. */
  lemma RoundTrip(b: Bucket)
    requires IsInt64(b.period)
    ensures ToInfluxDB(NewBucket(b)) == Some(Settled(b))
  {
    TypeTrip(b.kind);
    if b.period < 0 {
      SecondsOfNegative(b.period);
    } else {
      SecondsNearest(b.period);
      if Seconds(b.period) > 0 {
        RetentionExactIff(Seconds(b.period));
      }
    }
  }

  /** It moves a period by half a second at most, by less than one at the far end. */
  lemma RoundTripNear(b: Bucket)
    requires 0 <= b.period <= MAX_INT64
    ensures var moved := Settled(b).period - b.period;
            && -1_000_000_000 < moved <= 500_000_000
            && (b.period < 9_223_372_036_500_000_000 ==> -500_000_000 < moved)
  {
    SecondsNearest(b.period);
  }

  /** A second trip changes nothing. */
  lemma RoundTripSettles(b: Bucket)
    requires IsInt64(b.period)
    ensures 0 <= Settled(b).period <= MAX_INT64 && Settled(Settled(b)) == Settled(b)
  {
    if b.period >= 0 {
      SecondsNearest(b.period);
      SecondsExact(Seconds(b.period));
    } else {
      SecondsExact(0);
    }
  }

  lemma SecondsExact(s: nat)
    requires s <= 9_223_372_036
    ensures Seconds(s * 1_000_000_000) == s
  {
    WholeSeconds(s);
  }

  lemma SettledPeriodSame(d: int)
    requires 0 <= d <= MAX_INT64
    ensures Seconds(d) * 1_000_000_000 == d <==> d % 1_000_000_000 == 0
  {
    if d % 1_000_000_000 == 0 {
      SecondsExact(d / 1_000_000_000);
    } else {
      assert Seconds(d) * 1_000_000_000 % 1_000_000_000 == 0;
    }
  }

  lemma SettledSame(b: Bucket)
    requires IsInt64(b.period)
    ensures Settled(b) == b <==>
            (b.kind == SYSTEM_TYPE || b.kind == USER_TYPE) && b.period >= 0 && b.period % 1_000_000_000 == 0
  {
    if b.period >= 0 {
      SettledPeriodSame(b.period);
    }
  }

  /** Exactly the buckets of a known type with a period of whole seconds come back as they were. */
  lemma RoundTripExactIff(b: Bucket)
    requires IsInt64(b.period)
    ensures ToInfluxDB(NewBucket(b)) == Some(b) <==>
            (b.kind == SYSTEM_TYPE || b.kind == USER_TYPE) && b.period >= 0 && b.period % 1_000_000_000 == 0
  {
    RoundTrip(b);
    SettledSame(b);
  }

  /** A period under half a second comes back as the one that never ends. */
  lemma ShortIsForever(b: Bucket)
    requires 0 <= b.period <= MAX_INT64
    ensures Settled(b).period == 0 <==> b.period < 500_000_000
  {
    SecondsNearest(b.period);
  }
}
