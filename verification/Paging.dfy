/** http/paging.go and paging.go: paging options in a URL, and the links of a page. */
module Paging {
  import opened GoInt
  import opened Decimal
  import opened Wrappers
  import opened Queries

  const DEFAULT_PAGE_SIZE := 20
  const MAX_PAGE_SIZE := 100

  /** paging.go, FindOptions. */
  datatype FindOptions = FindOptions(limit: int, offset: int, sortBy: string, descending: bool)

  // --------------------------------------------------------------- Decoding

  /** `strconv.ParseBool`. */
  function ParseBool(s: string): Option<bool> {
    if s in ["1", "t", "T", "TRUE", "true", "True"] then Some(true)
    else if s in ["0", "f", "F", "FALSE", "false", "False"] then Some(false)
    else None
  }

  function FormatBool(b: bool): string {
    if b then "true" else "false"
  }

  predicate GoodOffset(s: string) {
    s != "" ==> Atoi(s).Some?
  }

  predicate GoodLimit(s: string) {
    s != "" ==> Atoi(s).Some? && 1 <= Atoi(s).value <= MAX_PAGE_SIZE
  }

  predicate GoodBool(s: string) {
    s != "" ==> ParseBool(s).Some?
  }

  /** Requests that are not refused. */
  predicate Accepts(v: Values) {
    GoodOffset(Get(v, Offset)) && GoodLimit(Get(v, Limit)) && GoodBool(Get(v, Descending))
  }

  /** The options an accepted request asks for. */
  function OptionsOf(v: Values): (o: FindOptions)
    requires Accepts(v)
    ensures 1 <= o.limit <= 100 && IsInt64(o.offset)
  {
    var offset, limit, descending := Get(v, Offset), Get(v, Limit), Get(v, Descending);
    FindOptions(
      if limit == "" then DEFAULT_PAGE_SIZE else Atoi(limit).value,
      if offset == "" then 0 else Atoi(offset).value,
      Get(v, SortBy),
      descending != "" && ParseBool(descending).value)
  }

  datatype Decoded = Options(opts: FindOptions) | OffsetInvalid | LimitInvalid | LimitOutOfRange | DescendingInvalid

  /** http/paging.go, decodeFindOptions; the first parameter at fault is reported. */
  method DecodeFindOptions(v: Values) returns (r: Decoded)
    ensures r.Options? <==> Accepts(v)
    ensures r.Options? ==> r.opts == OptionsOf(v)
    ensures r.Options? ==>
              && (if Get(v, Limit) == "" then r.opts.limit == 20 else Atoi(Get(v, Limit)) == Some(r.opts.limit))
              && (if Get(v, Offset) == "" then r.opts.offset == 0 else Atoi(Get(v, Offset)) == Some(r.opts.offset))
              && (if Get(v, Descending) == "" then !r.opts.descending
                  else ParseBool(Get(v, Descending)) == Some(r.opts.descending))
              && r.opts.sortBy == Get(v, SortBy) && 1 <= r.opts.limit <= 100
    ensures r == LimitInvalid <==> GoodOffset(Get(v, Offset)) && Get(v, Limit) != "" && Atoi(Get(v, Limit)).None?
    ensures r == OffsetInvalid <==> !GoodOffset(Get(v, Offset))
    ensures r in {LimitInvalid, LimitOutOfRange} <==> GoodOffset(Get(v, Offset)) && !GoodLimit(Get(v, Limit))
  {
    var opts := FindOptions(0, 0, "", false);
    var offset := Get(v, Offset);
    if offset != "" {
      var o := Atoi(offset);
      if o.None? {
        return OffsetInvalid;
      }
      opts := opts.(offset := o.value);
    }
    var limit := Get(v, Limit);
    if limit != "" {
      var l := Atoi(limit);
      if l.None? {
        return LimitInvalid;
      }
      if l.value < 1 || l.value > MAX_PAGE_SIZE {
        return LimitOutOfRange;
      }
      opts := opts.(limit := l.value);
    } else {
      opts := opts.(limit := DEFAULT_PAGE_SIZE);
    }
    var sortBy := Get(v, SortBy);
    if sortBy != "" {
      opts := opts.(sortBy := sortBy);
    }
    var descending := Get(v, Descending);
    if descending != "" {
      var desc := ParseBool(descending);
      if desc.None? {
        return DescendingInvalid;
      }
      opts := opts.(descending := desc.value);
    }
    return Options(opts);
  }

  // ------------------------------------------------------------------ Links

  /** What options say under each name. */
  function Field(o: FindOptions, k: Param): seq<string> {
    match k
    case Descending => [FormatBool(o.descending)]
    case Offset => [FormatInt(o.offset)]
    case Limit => if o.limit > 0 then [FormatInt(o.limit)] else []
    case SortBy => if o.sortBy != "" then [o.sortBy] else []
    case _ => []
  }

  /** paging.go, FindOptions.QueryParams. */
  method QueryParams(o: FindOptions) returns (qp: Values)
    ensures forall k :: All(qp, k) == Field(o, k)
  {
    qp := map[Descending := [FormatBool(o.descending)], Offset := [FormatInt(o.offset)]];
    if o.limit > 0 {
      qp := qp[Limit := [FormatInt(o.limit)]];
    }
    if o.sortBy != "" {
      qp := qp[SortBy := [o.sortBy]];
    }
  }

  /** The query of a link for a filter and options, with the values `at` under offset. */
  ghost predicate Query(v: Values, filter: Values, o: FindOptions, at: seq<string>) {
    forall k :: All(v, k) == if k == Offset then at else NonEmpty(All(filter, k)) + NonEmpty(Field(o, k))
  }

  /** A link to the page at `offset`. */
  ghost predicate LinksTo(v: Values, filter: Values, o: FindOptions, offset: int) {
    Query(v, filter, o, [FormatInt(offset)])
  }

  datatype Links = Links(self: Values, next: Option<Values>, prev: Option<Values>)

  /** http/paging.go:84-108, the query of the self link. */
  method SelfQuery(o: FindOptions, filter: Values) returns (values: Values)
    ensures Query(values, filter, o, NonEmpty(All(filter, Offset)) + [FormatInt(o.offset)])
  {
    values := AddParams(map[], filter);
    var params := QueryParams(o);
    values := AddParams(values, params);
    OffsetShown(o);
  }

  /** The query after `Set("offset", ...)`. */
  function Moved(v: Values, offset: int): Values {
    v[Offset := [FormatInt(offset)]]
  }

  lemma MovedLinks(v: Values, filter: Values, o: FindOptions, at: seq<string>, to: int)
    requires Query(v, filter, o, at)
    ensures LinksTo(Moved(v, to), filter, o, to)
  {
  }

  /** The offset that the next and the previous page are linked at. */
  function NextOffset(o: FindOptions): int {
    Wrap(o.offset + o.limit)
  }

  function PrevOffset(o: FindOptions): int {
    if Wrap(o.offset - o.limit) < 0 then 0 else Wrap(o.offset - o.limit)
  }

  /** http/paging.go, newPagingLinks. */
  method NewPagingLinks(o: FindOptions, filter: Values, num: int) returns (r: Links)
    ensures Query(r.self, filter, o, NonEmpty(All(filter, Offset)) + [FormatInt(o.offset)])
    ensures r.next.Some? <==> num >= o.limit
    ensures r.next.Some? ==> LinksTo(r.next.value, filter, o, NextOffset(o))
    ensures r.prev.Some? <==> o.offset > 0
    ensures r.prev.Some? ==> LinksTo(r.prev.value, filter, o, PrevOffset(o))
  {
    var values := SelfQuery(o, filter);
    var self, next, prev := values, None, None;
    ghost var at := NonEmpty(All(filter, Offset)) + [FormatInt(o.offset)];
    if num >= o.limit {
      var nextOffset := Wrap(o.offset + o.limit);
      MovedLinks(values, filter, o, at, nextOffset);
      values, at := Moved(values, nextOffset), [FormatInt(nextOffset)];
      next := Some(values);
    }
    if o.offset > 0 {
      var prevOffset := Wrap(o.offset - o.limit);
      if prevOffset < 0 {
        prevOffset := 0;
      }
      MovedLinks(values, filter, o, at, prevOffset);
      values := Moved(values, prevOffset);
      prev := Some(values);
    }
    return Links(self, next, prev);
  }

  lemma IntShown(n: int)
    ensures FormatInt(n) != "" && NonEmpty([FormatInt(n)]) == [FormatInt(n)]
  {
    assert NonEmpty([FormatInt(n)]) == [FormatInt(n)] + NonEmpty([]);
  }

  lemma OffsetShown(o: FindOptions)
    ensures NonEmpty(Field(o, Offset)) == [FormatInt(o.offset)]
  {
    IntShown(o.offset);
  }

  // --------------------------------------------------------- Links decoded

  /** The filter's own parameters leave those of the paging options alone. */
  ghost predicate Clear(filter: Values) {
    forall k :: k in {Limit, SortBy, Descending} ==> NonEmpty(All(filter, k)) == []
  }

  lemma BoolReads(b: bool)
    ensures FormatBool(b) != "" && ParseBool(FormatBool(b)) == Some(b)
  {
  }

  lemma TextShown(s: string)
    ensures NonEmpty(if s != "" then [s] else []) == if s != "" then [s] else []
  {
    assert NonEmpty([s]) == (if s != "" then [s] else []) + NonEmpty([]);
  }

  lemma LinkRead(v: Values, filter: Values, o: FindOptions, at: seq<string>, k: Param, s: string)
    requires Query(v, filter, o, at) && k != Offset && NonEmpty(All(filter, k)) == []
    requires Field(o, k) == if s != "" then [s] else []
    ensures Get(v, k) == s
  {
    TextShown(s);
    assert All(v, k) == [] + NonEmpty(Field(o, k));
  }

  lemma LimitRead(v: Values, filter: Values, o: FindOptions, offset: int)
    requires LinksTo(v, filter, o, offset) && Clear(filter)
    ensures Get(v, Limit) == if o.limit > 0 then FormatInt(o.limit) else ""
  {
    IntShown(o.limit);
    LinkRead(v, filter, o, [FormatInt(offset)], Limit, if o.limit > 0 then FormatInt(o.limit) else "");
  }

  lemma DescendingRead(v: Values, filter: Values, o: FindOptions, offset: int)
    requires LinksTo(v, filter, o, offset) && Clear(filter)
    ensures Get(v, Descending) == FormatBool(o.descending)
  {
    BoolReads(o.descending);
    LinkRead(v, filter, o, [FormatInt(offset)], Descending, FormatBool(o.descending));
  }

  lemma LinkReads(v: Values, filter: Values, o: FindOptions, offset: int)
    requires LinksTo(v, filter, o, offset) && Clear(filter)
    ensures Get(v, Offset) == FormatInt(offset) && Get(v, Limit) == (if o.limit > 0 then FormatInt(o.limit) else "")
    ensures Get(v, SortBy) == o.sortBy && Get(v, Descending) == FormatBool(o.descending)
  {
    LimitRead(v, filter, o, offset);
    LinkRead(v, filter, o, [FormatInt(offset)], SortBy, o.sortBy);
    DescendingRead(v, filter, o, offset);
  }

  lemma ReadsDecodeIff(v: Values, o: FindOptions, offset: int)
    requires IsInt64(offset) && IsInt64(o.limit) && Get(v, Offset) == FormatInt(offset)
    requires Get(v, Limit) == (if o.limit > 0 then FormatInt(o.limit) else "")
    requires Get(v, SortBy) == o.sortBy && Get(v, Descending) == FormatBool(o.descending)
    ensures Accepts(v) <==> o.limit <= 100
    ensures Accepts(v) && OptionsOf(v) == o.(offset := offset) <==> 1 <= o.limit <= 100
    ensures o.limit < 1 ==> OptionsOf(v) == o.(offset := offset, limit := 20)
  {
    BoolReads(o.descending);
    IntShown(offset);
    IntShown(o.limit);
    AtoiFormatInt(offset);
    AtoiFormatInt(o.limit);
  }

  /**
    A link decodes to its options at its offset exactly when the limit is one
    that a request may carry.
   */
  lemma LinkDecodesIff(v: Values, filter: Values, o: FindOptions, offset: int)
    requires LinksTo(v, filter, o, offset) && Clear(filter) && IsInt64(offset) && IsInt64(o.limit)
    ensures Accepts(v) <==> o.limit <= 100
    ensures Accepts(v) && OptionsOf(v) == o.(offset := offset) <==> 1 <= o.limit <= 100
    ensures o.limit < 1 ==> OptionsOf(v) == o.(offset := offset, limit := 20)
  {
    LinkReads(v, filter, o, offset);
    ReadsDecodeIff(v, o, offset);
  }

  /**
    Going on and coming back: the page before the next one is the page itself,
    and the page after the previous one is the page itself unless going back
    stopped short at the first.
   */
  lemma ThereAndBack(o: FindOptions)
    requires 0 <= o.offset <= MAX_INT64 && 1 <= o.limit <= 100
    ensures o.offset + o.limit <= MAX_INT64 ==>
              NextOffset(o) > 0 && PrevOffset(o.(offset := NextOffset(o))) == o.offset
    ensures NextOffset(o.(offset := PrevOffset(o))) == o.offset <==> o.offset >= o.limit
    ensures NextOffset(o) == o.offset + o.limit <==> o.offset + o.limit <= MAX_INT64
  {
    if o.offset + o.limit > MAX_INT64 {
      WrapUnique(o.offset + o.limit, o.offset + o.limit - TWO64, 1);
    }
  }
}
