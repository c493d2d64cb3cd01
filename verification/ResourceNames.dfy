/** authz.go, Resource.String: the path that names a resource. */
module ResourceNames {
  import opened Wrappers
  import opened Ids
  import opened Permissions

  function TypeName(kind: ResourceType): string {
    match kind
    case Authorizations => "authorizations"
    case Buckets => "buckets"
    case Dashboards => "dashboards"
    case Orgs => "orgs"
    case Sources => "sources"
    case Tasks => "tasks"
    case Telegrafs => "telegrafs"
    case Users => "users"
    case Variables => "variables"
    case Scrapers => "scrapers"
    case Secrets => "secrets"
    case Labels => "labels"
    case Views => "views"
    case Documents => "documents"
    case NotificationRules => "notificationRules"
    case NotificationEndpoints => "notificationEndpoints"
    case Checks => "checks"
    case OtherType(name) => name
  }

  /** `filepath.Join` of elements that are not empty, have no slash and are not dots. */
  function JoinPath(elems: seq<string>): string {
    if elems == [] then "" else if |elems| == 1 then elems[0] else elems[0] + "/" + JoinPath(elems[1..])
  }

  /** The elements of a resource's path. */
  function Elements(r: Resource): seq<string> {
    if r.org.Some? && r.id.Some? then [TypeName(Orgs), IdText(r.org.value), TypeName(r.kind), IdText(r.id.value)]
    else if r.org.Some? then [TypeName(Orgs), IdText(r.org.value), TypeName(r.kind)]
    else if r.id.Some? then [TypeName(r.kind), IdText(r.id.value)]
    else [TypeName(r.kind)]
  }

  /** authz.go, Resource.String. */
  function Path(r: Resource): string {
    JoinPath(Elements(r))
  }

  lemma JoinTwo(a: string, b: string, tail: seq<string>)
    requires tail != []
    ensures JoinPath([a, b] + tail) == a + "/" + b + "/" + JoinPath(tail)
  {
    assert ([a, b] + tail)[1..] == [b] + tail && ([b] + tail)[1..] == tail;
    assert a + "/" + (b + "/" + JoinPath(tail)) == a + "/" + b + "/" + JoinPath(tail);
  }

  lemma JoinLast(kind: string, id: Option<ID>)
    ensures JoinPath(if id.Some? then [kind, IdText(id.value)] else [kind]) ==
            kind + (if id.Some? then "/" + IdText(id.value) else "")
  {
    if id.Some? {
      assert [kind, IdText(id.value)][1..] == [IdText(id.value)];
      assert kind + "/" + IdText(id.value) == kind + ("/" + IdText(id.value));
    } else {
      assert kind + "" == kind;
    }
  }

  lemma PrefixText(a: string, b: string, kind: string, end: string)
    ensures a + "/" + b + "/" + (kind + end) == a + "/" + b + "/" + kind + end
  {
  }

  /** The path of a resource in an organization starts with that; the type comes next, and then an ID. */
  lemma PathText(r: Resource)
    ensures Path(r) ==
            (if r.org.Some? then "orgs" + "/" + IdText(r.org.value) + "/" else "") + TypeName(r.kind)
            + (if r.id.Some? then "/" + IdText(r.id.value) else "")
  {
    var kind := TypeName(r.kind);
    var tail := if r.id.Some? then [kind, IdText(r.id.value)] else [kind];
    var end := if r.id.Some? then "/" + IdText(r.id.value) else "";
    JoinLast(kind, r.id);
    if r.org.Some? {
      assert Elements(r) == ["orgs", IdText(r.org.value)] + tail;
      JoinTwo("orgs", IdText(r.org.value), tail);
      PrefixText("orgs", IdText(r.org.value), kind, end);
    } else {
      assert "" + kind + end == kind + end;
    }
  }

  // ------------------------------------------------------------- Paths split

  ghost predicate NoSlash(s: string) {
    forall i :: 0 <= i < |s| ==> s[i] != '/'
  }

  ghost predicate NoSlashes(elems: seq<string>) {
    forall i :: 0 <= i < |elems| ==> NoSlash(elems[i])
  }

  lemma FirstElement(a: string, x: string, b: string, y: string)
    requires NoSlash(a) && NoSlash(b) && a + "/" + x == b + "/" + y
    ensures a == b && x == y
  {
    var s, t := a + "/" + x, b + "/" + y;
    assert s[|a|] == '/' && t[|b|] == '/';
    assert s[..|a|] == a && s[|a| + 1..] == x && t[..|b|] == b && t[|b| + 1..] == y;
  }

  lemma OneElement(a: string, b: string, y: string)
    requires NoSlash(a)
    ensures a != b + "/" + y
  {
    assert (b + "/" + y)[|b|] == '/';
  }

  /** A path determines its elements. */
  lemma {:induction false} JoinInjective(a: seq<string>, b: seq<string>)
    requires a != [] && b != [] && NoSlashes(a) && NoSlashes(b) && JoinPath(a) == JoinPath(b)
    ensures a == b
  {
    if |a| == 1 && |b| > 1 {
      OneElement(a[0], b[0], JoinPath(b[1..]));
    } else if |a| > 1 && |b| == 1 {
      OneElement(b[0], a[0], JoinPath(a[1..]));
    } else if |a| > 1 {
      FirstElement(a[0], JoinPath(a[1..]), b[0], JoinPath(b[1..]));
      JoinInjective(a[1..], b[1..]);
      assert a == [a[0]] + a[1..] && b == [b[0]] + b[1..];
    }
  }

  // ------------------------------------------------------------- The elements

  lemma {:induction false} DigitsNoSlash(n: nat, v: nat)
    ensures forall i :: 0 <= i < n ==> Digits(n, v)[i] != 47
  {
    if n > 0 {
      DigitsNoSlash(n - 1, v / 16);
    }
  }

  lemma IdNoSlash(id: ID)
    requires ValidID(id)
    ensures NoSlash(IdText(id))
  {
    EncodeIsDigits(id);
    DigitsNoSlash(16, id);
    NumberIsAscii(16, id);
  }

  lemma IdTextInjective(a: ID, b: ID)
    requires ValidID(a) && ValidID(b) && IdText(a) == IdText(b)
    ensures a == b
  {
    ParseIdText(a);
    ParseIdText(b);
  }

  /** The first half of the types, in the order of their declaration. */
  predicate Early(kind: ResourceType) {
    kind in {Authorizations, Buckets, Dashboards, Orgs, Sources, Tasks, Telegrafs, Users, Variables}
  }

  lemma EarlyNoSlash(kind: ResourceType)
    requires Early(kind)
    ensures NoSlash(TypeName(kind)) && |TypeName(kind)| >= 4
  {
  }

  lemma LateNoSlash(kind: ResourceType)
    requires !Early(kind) && !kind.OtherType?
    ensures NoSlash(TypeName(kind)) && |TypeName(kind)| >= 4
  {
  }

  lemma TypeNoSlash(kind: ResourceType)
    requires !kind.OtherType?
    ensures NoSlash(TypeName(kind)) && |TypeName(kind)| >= 4
  {
    if Early(kind) {
      EarlyNoSlash(kind);
    } else {
      LateNoSlash(kind);
    }
  }

  /** The length and first two letters tell the names apart. */
  function Mark(kind: ResourceType): (int, char, char) {
    match kind
    case Authorizations => (14, 'a', 'u')
    case Buckets => (7, 'b', 'u')
    case Dashboards => (10, 'd', 'a')
    case Orgs => (4, 'o', 'r')
    case Sources => (7, 's', 'o')
    case Tasks => (5, 't', 'a')
    case Telegrafs => (9, 't', 'e')
    case Users => (5, 'u', 's')
    case Variables => (9, 'v', 'a')
    case Scrapers => (8, 's', 'c')
    case Secrets => (7, 's', 'e')
    case Labels => (6, 'l', 'a')
    case Views => (5, 'v', 'i')
    case Documents => (9, 'd', 'o')
    case NotificationRules => (17, 'n', 'o')
    case NotificationEndpoints => (21, 'n', 'o')
    case Checks => (6, 'c', 'h')
    case OtherType(_) => (0, ' ', ' ')
  }

  lemma TypeMark(kind: ResourceType)
    requires !kind.OtherType?
    ensures |TypeName(kind)| >= 2 && (|TypeName(kind)|, TypeName(kind)[0], TypeName(kind)[1]) == Mark(kind)
  {
  }

  lemma TypeNameInjective(a: ResourceType, b: ResourceType)
    requires !a.OtherType? && !b.OtherType? && TypeName(a) == TypeName(b)
    ensures a == b
  {
    TypeMark(a);
    TypeMark(b);
    MarkInjective(a, b);
  }

  lemma MarkInjective(a: ResourceType, b: ResourceType)
    requires !a.OtherType? && !b.OtherType? && Mark(a) == Mark(b)
    ensures a == b
  {
  }

  lemma ElementsNoSlash(r: Resource)
    requires ValidResource(r)
    ensures NoSlashes(Elements(r))
  {
    TypeNoSlash(r.kind);
    TypeNoSlash(Orgs);
    if r.org.Some? {
      IdNoSlash(r.org.value);
    }
    if r.id.Some? {
      IdNoSlash(r.id.value);
    }
  }

  /** Valid resources with the same path are the same. */
  lemma PathInjective(a: Resource, b: Resource)
    requires ValidResource(a) && ValidResource(b) && Path(a) == Path(b)
    ensures a == b
  {
    ElementsNoSlash(a);
    ElementsNoSlash(b);
    JoinInjective(Elements(a), Elements(b));
    ElementsInjective(a, b);
  }

  lemma ElementsInjective(a: Resource, b: Resource)
    requires ValidResource(a) && ValidResource(b) && Elements(a) == Elements(b)
    ensures a == b
  {
    var x, y := Elements(a), Elements(b);
    if a.org.Some? {
      assert x[1] == y[1] && x[2] == y[2];
      IdTextInjective(a.org.value, b.org.value);
      TypeNameInjective(a.kind, b.kind);
      if a.id.Some? {
        assert x[3] == y[3];
        IdTextInjective(a.id.value, b.id.value);
      }
    } else {
      assert x[0] == y[0];
      TypeNameInjective(a.kind, b.kind);
      if a.id.Some? {
        assert x[1] == y[1];
        IdTextInjective(a.id.value, b.id.value);
      }
    }
  }
}
