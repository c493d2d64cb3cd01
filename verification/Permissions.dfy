/** authz.go: which permission grants which, and the permissions that come with a role. */
module Permissions {
  import opened Wrappers
  import opened Ids

  datatype Action = Read | Write | OtherAction(name: string)

  datatype ResourceType =
    | Authorizations | Buckets | Dashboards | Orgs | Sources | Tasks | Telegrafs | Users | Variables
    | Scrapers | Secrets | Labels | Views | Documents | NotificationRules | NotificationEndpoints | Checks
    | OtherType(name: string)

  datatype Resource = Resource(kind: ResourceType, id: Option<ID>, org: Option<ID>)

  datatype Permission = Permission(action: Action, resource: Resource)

  /** authz.go, Permission.Matches: whether `p` grants what `r` asks for. */
  predicate Matches(p: Permission, r: Permission) {
    if p.action != r.action then false
    else if p.resource.kind != r.resource.kind then false
    else if p.resource.org.None? && p.resource.id.None? then true
    else if p.resource.org.Some? && p.resource.id.None? && r.resource.org.Some? && p.resource.org == r.resource.org then true
    else if p.resource.id.Some? && r.resource.id.Some? && p.resource.id == r.resource.id then true
    else false
  }

  predicate ValidResource(r: Resource) {
    && !r.kind.OtherType?
    && (r.org.Some? ==> ValidID(r.org.value))
    && (r.id.Some? ==> ValidID(r.id.value))
  }

  /** authz.go, Permission.Valid. */
  predicate ValidPermission(p: Permission) {
    ValidResource(p.resource) && !p.action.OtherAction?
  }

  // -------------------------------------------------- What a permission covers

  /** Every resource has one owning organization. */
  type Ownership = (ResourceType, ID) -> ID

  /** The things a permission covers: an action on a resource, named by its ID. */
  ghost predicate Covers(p: Permission, action: Action, kind: ResourceType, id: ID, owner: Ownership) {
    && p.action == action && p.resource.kind == kind
    && (p.resource.id.Some? ==> p.resource.id.value == id)
    && (p.resource.id.None? && p.resource.org.Some? ==> p.resource.org.value == owner(kind, id))
  }

  /** A permission that names an organization with an ID names the owner. */
  ghost predicate Respects(p: Permission, owner: Ownership) {
    p.resource.org.Some? && p.resource.id.Some? ==> owner(p.resource.kind, p.resource.id.value) == p.resource.org.value
  }

  /** The request for one thing, with the organization that owns it. */
  function RequestFor(action: Action, kind: ResourceType, id: ID, owner: Ownership): Permission {
    Permission(action, Resource(kind, Some(id), Some(owner(kind, id))))
  }

  /** A request that names its organization is matched exactly by the permissions that cover it. */
  lemma MatchesIsCovers(p: Permission, action: Action, kind: ResourceType, id: ID, owner: Ownership)
    ensures Matches(p, RequestFor(action, kind, id, owner)) <==> Covers(p, action, kind, id, owner)
  {
  }

  /** A permission for everything of one type in an organization. */
  predicate OrgWide(p: Permission) {
    p.resource.org.Some? && p.resource.id.None?
  }

  /** The permission covers everything that `q` covers. */
  ghost predicate CoversAll(p: Permission, q: Permission, owner: Ownership) {
    forall action, kind, id :: Covers(q, action, kind, id, owner) ==> Covers(p, action, kind, id, owner)
  }

  /**
    What a permission matches covers no more than it does, exactly unless a
    permission for an organization matches one that names that organization
    with an ID of another.
   */
  lemma MatchesSoundIff(p: Permission, q: Permission, owner: Ownership)
    requires Matches(p, q)
    ensures CoversAll(p, q, owner) <==> (OrgWide(p) ==> Respects(q, owner))
  {
    if OrgWide(p) && !Respects(q, owner) {
      var id := q.resource.id.value;
      assert Covers(q, q.action, q.resource.kind, id, owner) && !Covers(p, q.action, q.resource.kind, id, owner);
    }
  }

  lemma MatchesReflexive(p: Permission)
    ensures Matches(p, p)
  {
  }

  ghost predicate Chains(p: Permission, q: Permission, r: Permission) {
    Matches(p, q) && Matches(q, r)
  }

  /** Matching composes into a request exactly when the request names no ID. */
  lemma TransitiveIff(r: Permission)
    ensures (forall p, q :: Chains(p, q, r) ==> Matches(p, r)) <==> r.resource.id.None?
  {
    if r.resource.id.Some? {
      var other := Some(if r.resource.org == Some(1) then 2 else 1);
      var p := r.(resource := r.resource.(org := other, id := None));
      var q := r.(resource := r.resource.(org := other));
      assert Chains(p, q, r) && !Matches(p, r);
    }
  }

  // ------------------------------------------------------------- Named requests

  /** A request for an ID without an organization. */
  predicate BareID(r: Permission) {
    r.resource.id.Some? && r.resource.org.None?
  }

  /** A request that gives an ID with the organization that owns it, or no ID. */
  ghost predicate Named(r: Permission, owner: Ownership) {
    Respects(r, owner) && !BareID(r)
  }

  /** Of the named requests `q` matches none that `p` does not, exactly under the same condition. */
  lemma GrantExactIff(p: Permission, q: Permission, owner: Ownership)
    requires Matches(p, q)
    ensures (forall r :: Named(r, owner) && Matches(q, r) ==> Matches(p, r)) <==> (OrgWide(p) ==> Respects(q, owner))
  {
    if OrgWide(p) && !Respects(q, owner) {
      var r := AsOwned(q, owner);
      assert Named(r, owner) && Matches(q, r) && !Matches(p, r);
    }
  }

  /** The permission with its ID under the organization that owns it. */
  function AsOwned(q: Permission, owner: Ownership): Permission {
    if q.resource.id.None? then q
    else q.(resource := q.resource.(org := Some(owner(q.resource.kind, q.resource.id.value))))
  }

  /** Of the named requests, a permission for an ID matches the one for that ID only. */
  lemma NamedMatch(q: Permission, r: Permission, owner: Ownership)
    requires Named(r, owner)
    ensures Named(AsOwned(q, owner), owner) && Matches(q, AsOwned(q, owner))
    ensures q.resource.id.Some? ==> (Matches(q, r) <==> r == AsOwned(q, owner))
  {
  }

  // ----------------------------------------------------- Lists of permissions

  ghost predicate Allowed(r: Permission, ps: seq<Permission>) {
    exists i :: 0 <= i < |ps| && Matches(ps[i], r)
  }

  /** authz.go, PermissionAllowed. */
  method PermissionAllowed(r: Permission, ps: seq<Permission>) returns (ok: bool)
    ensures ok <==> Allowed(r, ps)
  {
    for i := 0 to |ps|
      invariant forall j :: 0 <= j < i ==> !Matches(ps[j], r)
    {
      if Matches(ps[i], r) {
        return true;
      }
    }
    return false;
  }

  /** Every named request that the one list allows, the other does too. */
  ghost predicate Inside(ps: seq<Permission>, roots: seq<Permission>, owner: Ownership) {
    forall r :: Named(r, owner) && Allowed(r, ps) ==> Allowed(r, roots)
  }

  /** The roots allow each permission of the list, asked for under the organization that owns it. */
  ghost predicate OwnedAllowed(ps: seq<Permission>, roots: seq<Permission>, owner: Ownership) {
    forall i :: 0 <= i < |ps| ==> Allowed(AsOwned(ps[i], owner), roots)
  }

  lemma OwnedCovers(q: Permission, r: Permission, roots: seq<Permission>, owner: Ownership)
    requires Named(r, owner) && Matches(q, r) && Allowed(AsOwned(q, owner), roots)
    ensures Allowed(r, roots)
  {
    NamedMatch(q, r, owner);
    if q.resource.id.None? {
      var j :| 0 <= j < |roots| && Matches(roots[j], q);
      assert Matches(roots[j], r);
    }
  }

  /** Exactly when one list of permissions stays inside another. */
  lemma InsideIff(ps: seq<Permission>, roots: seq<Permission>, owner: Ownership)
    ensures Inside(ps, roots, owner) <==> OwnedAllowed(ps, roots, owner)
  {
    if Inside(ps, roots, owner) {
      forall i | 0 <= i < |ps|
        ensures Allowed(AsOwned(ps[i], owner), roots)
      {
        NamedMatch(ps[i], AsOwned(ps[i], owner), owner);
      }
    } else {
      var r :| Named(r, owner) && Allowed(r, ps) && !Allowed(r, roots);
      var i :| 0 <= i < |ps| && Matches(ps[i], r);
      if Allowed(AsOwned(ps[i], owner), roots) {
        OwnedCovers(ps[i], r, roots, owner);
      }
    }
  }

  lemma AllowedJoin(r: Permission, ps: seq<Permission>, qs: seq<Permission>)
    ensures Allowed(r, ps + qs) <==> Allowed(r, ps) || Allowed(r, qs)
  {
    if i :| 0 <= i < |ps| && Matches(ps[i], r) {
      assert Matches((ps + qs)[i], r);
    }
    if i :| 0 <= i < |qs| && Matches(qs[i], r) {
      assert Matches((ps + qs)[|ps| + i], r);
    }
    if i :| 0 <= i < |ps + qs| && Matches((ps + qs)[i], r) {
      assert if i < |ps| then Matches(ps[i], r) else Matches(qs[i - |ps|], r);
    }
  }

  /** authz.go, AllResourceTypes. */
  const ALL_TYPES: seq<ResourceType> := [
    Authorizations, Buckets, Dashboards, Orgs, Sources, Tasks, Telegrafs, Users, Variables,
    Scrapers, Secrets, Labels, Views, Documents, NotificationRules, NotificationEndpoints, Checks]

  const ACTIONS: seq<Action> := [Read, Write]

  /** What a role in an organization is for; none is everything. */
  function Grant(org: Option<ID>, kind: ResourceType): Resource {
    if org.Some? && kind == Orgs then Resource(kind, org, None) else Resource(kind, None, org)
  }

  function ForActions(actions: seq<Action>, resource: Resource): seq<Permission> {
    if actions == [] then [] else ForActions(actions[..|actions| - 1], resource) + [Permission(actions[|actions| - 1], resource)]
  }

  /** Every action on every type, in the order of the nested loops. */
  function Grants(kinds: seq<ResourceType>, actions: seq<Action>, org: Option<ID>): seq<Permission> {
    if kinds == [] then []
    else Grants(kinds[..|kinds| - 1], actions, org) + ForActions(actions, Grant(org, kinds[|kinds| - 1]))
  }

  method AppendActions(ps: seq<Permission>, resource: Resource) returns (out: seq<Permission>)
    ensures out == ps + ForActions(ACTIONS, resource)
  {
    out := ps;
    for j := 0 to |ACTIONS|
      invariant out == ps + ForActions(ACTIONS[..j], resource)
    {
      assert ACTIONS[..j + 1][..j] == ACTIONS[..j];
      out := out + [Permission(ACTIONS[j], resource)];
    }
    assert ACTIONS[..|ACTIONS|] == ACTIONS;
  }

  /** The loop of authz.go, OwnerPermissions. */
  method OwnerOf(kinds: seq<ResourceType>, org: ID) returns (ps: seq<Permission>)
    ensures ps == Grants(kinds, ACTIONS, Some(org))
  {
    ps := [];
    for i := 0 to |kinds|
      invariant ps == Grants(kinds[..i], ACTIONS, Some(org))
    {
      assert kinds[..i + 1][..i] == kinds[..i];
      if kinds[i] == Orgs {
        ps := AppendActions(ps, Resource(kinds[i], Some(org), None));
        continue;
      }
      ps := AppendActions(ps, Resource(kinds[i], None, Some(org)));
    }
    assert kinds[..|kinds|] == kinds;
  }

  /** authz.go, OwnerPermissions. */
  method OwnerPermissions(org: ID) returns (ps: seq<Permission>)
    ensures ps == Grants(ALL_TYPES, ACTIONS, Some(org))
    ensures forall r :: Allowed(r, ps) <==>
              !r.resource.kind.OtherType? && (r.action == Read || r.action == Write) && OrgOf(r) == Some(org)
  {
    ps := OwnerOf(ALL_TYPES, org);
    forall r
      ensures Allowed(r, ps) <==>
              !r.resource.kind.OtherType? && (r.action == Read || r.action == Write) && OrgOf(r) == Some(org)
    {
      RolesAllow(r, org);
    }
  }

  /** The loop of authz.go, MemberPermissions. */
  method MemberOf(kinds: seq<ResourceType>, org: ID) returns (ps: seq<Permission>)
    ensures ps == Grants(kinds, [Read], Some(org))
  {
    ps := [];
    for i := 0 to |kinds|
      invariant ps == Grants(kinds[..i], [Read], Some(org))
    {
      assert kinds[..i + 1][..i] == kinds[..i];
      OneAction(Grant(Some(org), kinds[i]));
      if kinds[i] == Orgs {
        ps := ps + [Permission(Read, Resource(kinds[i], Some(org), None))];
        continue;
      }
      ps := ps + [Permission(Read, Resource(kinds[i], None, Some(org)))];
    }
    assert kinds[..|kinds|] == kinds;
  }

  lemma OneAction(resource: Resource)
    ensures ForActions([Read], resource) == [Permission(Read, resource)]
  {
    assert [Read][..0] == [];
  }

  /** authz.go, MemberPermissions. */
  method MemberPermissions(org: ID) returns (ps: seq<Permission>)
    ensures ps == Grants(ALL_TYPES, [Read], Some(org))
    ensures forall r :: Allowed(r, ps) <==> !r.resource.kind.OtherType? && r.action == Read && OrgOf(r) == Some(org)
  {
    ps := MemberOf(ALL_TYPES, org);
    forall r
      ensures Allowed(r, ps) <==> !r.resource.kind.OtherType? && r.action == Read && OrgOf(r) == Some(org)
    {
      RolesAllow(r, org);
    }
  }

  /** The loop of authz.go, OperPermissions. */
  method OperatorOf(kinds: seq<ResourceType>) returns (ps: seq<Permission>)
    ensures ps == Grants(kinds, ACTIONS, None)
  {
    ps := [];
    for i := 0 to |kinds|
      invariant ps == Grants(kinds[..i], ACTIONS, None)
    {
      assert kinds[..i + 1][..i] == kinds[..i];
      ps := AppendActions(ps, Resource(kinds[i], None, None));
    }
    assert kinds[..|kinds|] == kinds;
  }

  /** authz.go, OperPermissions. */
  method OperPermissions() returns (ps: seq<Permission>)
    ensures ps == Grants(ALL_TYPES, ACTIONS, None)
    ensures forall r :: Allowed(r, ps) <==> !r.resource.kind.OtherType? && (r.action == Read || r.action == Write)
  {
    ps := OperatorOf(ALL_TYPES);
    forall r
      ensures Allowed(r, ps) <==> !r.resource.kind.OtherType? && (r.action == Read || r.action == Write)
    {
      RolesAllow(r, 0);
    }
  }

  // ------------------------------------------------------- What roles allow

  lemma {:induction false} ForActionsAllow(r: Permission, actions: seq<Action>, resource: Resource)
    ensures Allowed(r, ForActions(actions, resource)) <==> r.action in actions && Matches(Permission(r.action, resource), r)
  {
    if actions != [] {
      var init, last := actions[..|actions| - 1], actions[|actions| - 1];
      ForActionsAllow(r, init, resource);
      AllowedJoin(r, ForActions(init, resource), [Permission(last, resource)]);
      AllowedOne(r, Permission(last, resource));
      assert actions == init + [last];
    }
  }

  lemma AllowedOne(r: Permission, p: Permission)
    ensures Allowed(r, [p]) <==> Matches(p, r)
  {
    assert Matches(p, r) ==> Matches([p][0], r);
  }

  lemma {:induction false} GrantsAllow(r: Permission, kinds: seq<ResourceType>, actions: seq<Action>, org: Option<ID>)
    ensures Allowed(r, Grants(kinds, actions, org)) <==>
            && r.action in actions && r.resource.kind in kinds
            && Matches(Permission(r.action, Grant(org, r.resource.kind)), r)
  {
    if kinds != [] {
      var init, last := kinds[..|kinds| - 1], kinds[|kinds| - 1];
      GrantsAllow(r, init, actions, org);
      ForActionsAllow(r, actions, Grant(org, last));
      AllowedJoin(r, Grants(init, actions, org), ForActions(actions, Grant(org, last)));
      assert kinds == init + [last];
    }
  }

  lemma KnownTypes(i: nat)
    requires i < |ALL_TYPES|
    ensures !ALL_TYPES[i].OtherType?
  {
  }

  lemma TypesListed()
    ensures ALL_TYPES[..4] == [Authorizations, Buckets, Dashboards, Orgs]
    ensures ALL_TYPES[4..8] == [Sources, Tasks, Telegrafs, Users]
    ensures ALL_TYPES[8..12] == [Variables, Scrapers, Secrets, Labels]
    ensures ALL_TYPES[12..] == [Views, Documents, NotificationRules, NotificationEndpoints, Checks]
  {
  }

  lemma TypeKnown(kind: ResourceType)
    ensures kind in ALL_TYPES <==> !kind.OtherType?
  {
    if i :| 0 <= i < |ALL_TYPES| && ALL_TYPES[i] == kind {
      KnownTypes(i);
    }
    TypesListed();
    assert !kind.OtherType? ==> kind in ALL_TYPES[..4] + ALL_TYPES[4..8] + ALL_TYPES[8..12] + ALL_TYPES[12..];
  }

  /** The organization a request is for: an organization itself is named by its ID. */
  function OrgOf(r: Permission): Option<ID> {
    if r.resource.kind == Orgs then r.resource.id else r.resource.org
  }

  /**
    The requests that owners, members and operators may make: an owner anything
    known in the organization, a member reading it, an operator anything known.
   */
  lemma RolesAllow(r: Permission, org: ID)
    ensures Allowed(r, Grants(ALL_TYPES, ACTIONS, Some(org))) <==>
            !r.resource.kind.OtherType? && !r.action.OtherAction? && OrgOf(r) == Some(org)
    ensures Allowed(r, Grants(ALL_TYPES, [Read], Some(org))) <==>
            !r.resource.kind.OtherType? && r.action == Read && OrgOf(r) == Some(org)
    ensures Allowed(r, Grants(ALL_TYPES, ACTIONS, None)) <==> !r.resource.kind.OtherType? && !r.action.OtherAction?
  {
    GrantsAllow(r, ALL_TYPES, ACTIONS, Some(org));
    GrantsAllow(r, ALL_TYPES, [Read], Some(org));
    GrantsAllow(r, ALL_TYPES, ACTIONS, None);
    TypeKnown(r.resource.kind);
  }
}
