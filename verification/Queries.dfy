/** Query parameters of a URL, as `url.Values` keeps them. */
module Queries {
  /** A parameter's name: those that the modelled code reads, and any other. */
  datatype Param =
    | After | Org | OrgID | User | Limit | Status | Name
    | Offset | SortBy | Descending
    | Other(name: string)

  type Values = map<Param, seq<string>>

  /** Every value of a parameter. A parameter with no value is not written to the URL. */
  function All(v: Values, k: Param): seq<string> {
    if k in v then v[k] else []
  }

  /** `Values.Get`: the first value, or nothing. */
  function Get(v: Values, k: Param): string {
    if All(v, k) == [] then "" else All(v, k)[0]
  }

  /** Both write the same URL. */
  ghost predicate Same(v: Values, w: Values) {
    forall k :: All(v, k) == All(w, k)
  }

  function NonEmpty(ss: seq<string>): seq<string> {
    if ss == [] then [] else (if ss[0] != "" then [ss[0]] else []) + NonEmpty(ss[1..])
  }

  /** The values that are not empty, each as often as before. */
  lemma {:induction false} NonEmptyIs(ss: seq<string>, s: string)
    ensures multiset(NonEmpty(ss))[s] == if s == "" then 0 else multiset(ss)[s]
  {
    if ss != [] {
      NonEmptyIs(ss[1..], s);
      assert ss == [ss[0]] + ss[1..];
    }
  }

  lemma {:induction false} NonEmptySame(ss: seq<string>)
    requires forall i :: 0 <= i < |ss| ==> ss[i] != ""
    ensures NonEmpty(ss) == ss
  {
    if ss != [] {
      NonEmptySame(ss[1..]);
      assert ss == [ss[0]] + ss[1..];
    }
  }

  lemma NonEmptyAt(ss: seq<string>, i: nat)
    requires i < |ss|
    ensures NonEmpty(ss[i..]) == (if ss[i] != "" then [ss[i]] else []) + NonEmpty(ss[i + 1..])
  {
    assert ss[i..][1..] == ss[i + 1..];
  }

  /** The loop over one parameter's values, each added unless it is empty. */
  method AddValues(v: Values, k: Param, ss: seq<string>) returns (out: Values)
    ensures All(out, k) == All(v, k) + NonEmpty(ss)
    ensures forall j :: j != k ==> All(out, j) == All(v, j)
  {
    out := v;
    ghost var all := All(v, k) + NonEmpty(ss);
    var i := 0;
    while i < |ss|
      invariant i <= |ss|
      invariant All(out, k) + NonEmpty(ss[i..]) == all
      invariant forall j :: j != k ==> All(out, j) == All(v, j)
    {
      NonEmptyAt(ss, i);
      if ss[i] != "" {
        ghost var was := All(out, k);
        assert was + ([ss[i]] + NonEmpty(ss[i + 1..])) == was + [ss[i]] + NonEmpty(ss[i + 1..]);
        out := out[k := All(out, k) + [ss[i]]];
      } else {
        assert [] + NonEmpty(ss[i + 1..]) == NonEmpty(ss[i + 1..]);
      }
      i := i + 1;
    }
  }

  /** The loop over a map of parameters, in whatever order the map gives them. */
  method AddParams(v: Values, params: Values) returns (out: Values)
    ensures forall k :: All(out, k) == All(v, k) + NonEmpty(All(params, k))
  {
    out := v;
    var left := params.Keys;
    while left != {}
      invariant left <= params.Keys
      invariant forall k :: All(out, k) == All(v, k) + if k in left then [] else NonEmpty(All(params, k))
    {
      var k :| k in left;
      out := AddValues(out, k, params[k]);
      left := left - {k};
    }
  }
}
