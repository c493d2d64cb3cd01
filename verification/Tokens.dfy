/**
  authorizer/auth.go and authorizer/authorize.go over a store of tokens: what a
  run of creating, updating and deleting tokens can come to allow.
 */
module Tokens {
  import opened Wrappers
  import opened Ids
  import opened Permissions

  /** auth.go, Authorization. */
  datatype Token = Token(active: bool, user: ID, org: ID, permissions: seq<Permission>)

  /** auth.go, Authorization.Allowed. */
  ghost predicate TokenAllows(t: Token, r: Permission) {
    t.active && Allowed(r, t.permissions)
  }

  datatype Outcome = Done | NoAuthorizer | Invalid | Unauthorized | Forbidden | NotFound

  /** What authorizer/authorize.go, IsAllowed returns for one permission. */
  ghost function Check(authorizer: Option<Token>, r: Permission): Outcome {
    if authorizer.None? then NoAuthorizer else if TokenAllows(authorizer.value, r) then Done else Unauthorized
  }

  /** authorizer/authorize.go, IsAllowed; `None` is a context without an authorizer. */
  method IsAllowed(authorizer: Option<Token>, r: Permission) returns (o: Outcome)
    ensures o in {Done, NoAuthorizer, Unauthorized} && (o == NoAuthorizer <==> authorizer.None?)
    ensures o == Done <==>
            && authorizer.Some? && authorizer.value.active
            && exists i :: 0 <= i < |authorizer.value.permissions| && Matches(authorizer.value.permissions[i], r)
    ensures o == Check(authorizer, r)
  {
    if authorizer.None? {
      return NoAuthorizer;
    }
    var allowed := PermissionAllowed(r, authorizer.value.permissions);
    if !authorizer.value.active || !allowed {
      return Unauthorized;
    }
    return Done;
  }

  ghost predicate AllAllowed(t: Token, ps: seq<Permission>) {
    forall i :: 0 <= i < |ps| ==> TokenAllows(t, ps[i])
  }

  /** authorizer/auth.go, VerifyPermissions. */
  method VerifyPermissions(authorizer: Option<Token>, ps: seq<Permission>) returns (o: Outcome)
    ensures o in {Done, Forbidden}
    ensures o == Done <==> ps == [] || (authorizer.Some? && AllAllowed(authorizer.value, ps))
  {
    for i := 0 to |ps|
      invariant i > 0 ==> authorizer.Some?
      invariant authorizer.Some? ==> forall j :: 0 <= j < i ==> TokenAllows(authorizer.value, ps[j])
    {
      var allowed := IsAllowed(authorizer, ps[i]);
      if allowed != Done {
        return Forbidden;
      }
    }
    return Done;
  }

  /** The permission it takes to change a user's tokens. */
  function WriteUser(user: ID): Permission {
    Permission(Write, Resource(Users, Some(user), None))
  }

  /** The tokens, as the wrapped service keeps them. */
  type Store = map<ID, Token>

  ghost predicate MayWrite(actor: Token, user: ID) {
    ValidID(user) && TokenAllows(actor, WriteUser(user))
  }

  /** A permission to write users at large, or this one. */
  predicate WritesUser(p: Permission, user: ID) {
    && p.action == Write && p.resource.kind == Users
    && (p.resource.id == Some(user) || (p.resource.id.None? && p.resource.org.None?))
  }

  /** Who may change a user's tokens: an active token with a permission to write that user. */
  lemma MayWriteIff(actor: Token, user: ID)
    ensures MayWrite(actor, user) <==>
            && user != 0 && actor.active
            && exists i :: 0 <= i < |actor.permissions| && WritesUser(actor.permissions[i], user)
  {
    forall p
      ensures Matches(p, WriteUser(user)) <==> WritesUser(p, user)
    {
    }
  }

  /** auth.go, Authorization.Valid: a permission that names an organization names the token's. */
  predicate ForItsOrg(t: Token) {
    forall i :: 0 <= i < |t.permissions| && t.permissions[i].resource.org.Some? ==>
      t.permissions[i].resource.org.value == t.org
  }

  ghost predicate MayCreate(actor: Token, t: Token) {
    MayWrite(actor, t.user) && AllAllowed(actor, t.permissions) && ForItsOrg(t)
  }

  class AuthorizationService {
    var tokens: Store

    /** authorizer/auth.go, authorizeWriteAuthorization. */
    method AuthorizeWrite(authorizer: Option<Token>, user: ID) returns (o: Outcome)
      ensures o == if !ValidID(user) then Invalid else Check(authorizer, WriteUser(user))
    {
      if !ValidID(user) {
        return Invalid;
      }
      o := IsAllowed(authorizer, WriteUser(user));
    }

    /**
      authorizer/auth.go, CreateAuthorization, with the ID that the wrapped service
      gives the token once it has found it valid.
     */
    method CreateAuthorization(authorizer: Option<Token>, id: ID, t: Token) returns (o: Outcome)
      modifies this
      ensures o == Done <==> authorizer.Some? && MayCreate(authorizer.value, t)
      ensures o == Done ==> forall i :: 0 <= i < |t.permissions| && t.permissions[i].resource.org.Some? ==>
                t.permissions[i].resource.org.value == t.org
      ensures o == Forbidden <==>
              authorizer.Some? && MayWrite(authorizer.value, t.user) && !AllAllowed(authorizer.value, t.permissions)
      ensures o == NoAuthorizer <==> ValidID(t.user) && authorizer.None?
      ensures o == Invalid <==>
              || !ValidID(t.user)
              || (&& authorizer.Some? && MayWrite(authorizer.value, t.user)
                  && AllAllowed(authorizer.value, t.permissions) && !ForItsOrg(t))
      ensures tokens == if o == Done then old(tokens)[id := t] else old(tokens)
    {
      o := AuthorizeWrite(authorizer, t.user);
      if o != Done {
        return;
      }
      o := VerifyPermissions(authorizer, t.permissions);
      if o != Done {
        return;
      }
      if !ForItsOrg(t) {
        return Invalid;
      }
      tokens := tokens[id := t];
    }

    /** authorizer/auth.go, UpdateAuthorization, for a new status. */
    method UpdateAuthorization(authorizer: Option<Token>, id: ID, active: bool) returns (o: Outcome)
      modifies this
      ensures o == NotFound <==> id !in old(tokens)
      ensures o == Invalid <==> id in old(tokens) && !ValidID(old(tokens)[id].user)
      ensures o == NoAuthorizer <==> id in old(tokens) && ValidID(old(tokens)[id].user) && authorizer.None?
      ensures o == Done <==> id in old(tokens) && authorizer.Some? && MayWrite(authorizer.value, old(tokens)[id].user)
      ensures tokens == if o == Done then old(tokens)[id := old(tokens)[id].(active := active)] else old(tokens)
    {
      if id !in tokens {
        return NotFound;
      }
      o := AuthorizeWrite(authorizer, tokens[id].user);
      if o != Done {
        return;
      }
      tokens := tokens[id := tokens[id].(active := active)];
    }

    /** authorizer/auth.go, DeleteAuthorization. */
    method DeleteAuthorization(authorizer: Option<Token>, id: ID) returns (o: Outcome)
      modifies this
      ensures o == NotFound <==> id !in old(tokens)
      ensures o == Invalid <==> id in old(tokens) && !ValidID(old(tokens)[id].user)
      ensures o == NoAuthorizer <==> id in old(tokens) && ValidID(old(tokens)[id].user) && authorizer.None?
      ensures o == Done <==> id in old(tokens) && authorizer.Some? && MayWrite(authorizer.value, old(tokens)[id].user)
      ensures tokens == if o == Done then old(tokens) - {id} else old(tokens)
    {
      if id !in tokens {
        return NotFound;
      }
      o := AuthorizeWrite(authorizer, tokens[id].user);
      if o != Done {
        return;
      }
      tokens := tokens - {id};
    }

    /** A call by a token of the store. */
    method Perform(c: Call) returns (done: bool)
      modifies this
      ensures done <==> Succeeds(old(tokens), c)
      ensures tokens == if done then After(old(tokens), c) else old(tokens)
    {
      if c.actor !in tokens {
        return false;
      }
      var actor, o := Some(tokens[c.actor]), Done;
      match c {
        case Create(_, id, t) => o := CreateAuthorization(actor, id, t);
        case Update(_, id, active) => o := UpdateAuthorization(actor, id, active);
        case Delete(_, id) => o := DeleteAuthorization(actor, id);
      }
      return o == Done;
    }
  }

  // -------------------------------------------------------------------- Runs

  /** A call that a token of the store makes and that succeeds. */
  datatype Call = Create(actor: ID, id: ID, token: Token) | Update(actor: ID, id: ID, active: bool) | Delete(actor: ID, id: ID)

  ghost predicate Succeeds(s: Store, c: Call) {
    && c.actor in s
    && match c
       case Create(actor, _, t) => MayCreate(s[actor], t)
       case Update(actor, id, _) => id in s && MayWrite(s[actor], s[id].user)
       case Delete(actor, id) => id in s && MayWrite(s[actor], s[id].user)
  }

  function After(s: Store, c: Call): Store {
    match c
    case Create(_, id, t) => s[id := t]
    case Update(_, id, active) => if id in s then s[id := s[id].(active := active)] else s
    case Delete(_, id) => s - {id}
  }

  ghost predicate Run(s: Store, calls: seq<Call>)
    decreases |calls|
  {
    calls == [] || (Succeeds(s, calls[0]) && Run(After(s, calls[0]), calls[1..]))
  }

  function Outcomes(s: Store, calls: seq<Call>): Store
    decreases |calls|
  {
    if calls == [] then s else Outcomes(After(s, calls[0]), calls[1..])
  }

  /** The call creates the token, or activates it. */
  predicate Revives(c: Call, id: ID) {
    c.id == id && (c.Create? || (c.Update? && c.active))
  }

  /** A token that is inactive or gone makes no call until it is created or activated again. */
  lemma {:induction false} InactiveNeverActs(s: Store, calls: seq<Call>, id: ID)
    requires Run(s, calls) && (id in s ==> !s[id].active)
    requires forall k :: 0 <= k < |calls| ==> !Revives(calls[k], id)
    ensures forall k :: 0 <= k < |calls| ==> calls[k].actor != id
    decreases |calls|
  {
    if calls != [] {
      var rest := calls[1..];
      assert !Revives(calls[0], id);
      assert forall k :: 0 <= k < |rest| ==> rest[k] == calls[k + 1];
      InactiveNeverActs(After(s, calls[0]), rest, id);
      assert forall k :: 1 <= k < |calls| ==> calls[k] == rest[k - 1];
    }
  }

  /** A permission of a token names no organization but the token's. */
  ghost predicate OrgBound(s: Store) {
    forall id, i :: id in s && 0 <= i < |s[id].permissions| && s[id].permissions[i].resource.org.Some? ==>
      s[id].permissions[i].resource.org.value == s[id].org
  }

  /** No run gives a token a permission in another organization than its own. */
  lemma {:induction false} RunOrgBound(s: Store, calls: seq<Call>)
    requires Run(s, calls) && OrgBound(s)
    ensures OrgBound(Outcomes(s, calls))
    decreases |calls|
  {
    if calls != [] {
      RunOrgBound(After(s, calls[0]), calls[1..]);
    }
  }

  /** Every token's permissions, active or not, stay inside the roots. */
  ghost predicate Within(s: Store, roots: seq<Permission>, owner: Ownership) {
    forall id :: id in s ==> Inside(s[id].permissions, roots, owner)
  }

  // ---------------------------------------------------- What the check lacks

  /** The creator is allowed each permission it gives, under the organization that owns the ID. */
  ghost predicate Owned(s: Store, c: Call, owner: Ownership) {
    c.actor in s && c.Create? ==> OwnedAllowed(c.token.permissions, s[c.actor].permissions, owner)
  }

  /** The list allows each stray permission, one whose organization does not own its ID, put under the owner. */
  ghost predicate StraysAllowed(ps: seq<Permission>, giver: seq<Permission>, owner: Ownership) {
    forall i :: 0 <= i < |ps| && !Respects(ps[i], owner) ==> Allowed(AsOwned(ps[i], owner), giver)
  }

  /** The creator is allowed the stray permissions it gives, under the owner. */
  ghost predicate StrayAllowed(s: Store, c: Call, owner: Ownership) {
    c.actor in s && c.Create? ==> StraysAllowed(c.token.permissions, s[c.actor].permissions, owner)
  }

  /** A permission that respects ownership and is allowed is allowed under the owner. */
  lemma AllowedOwned(q: Permission, mine: seq<Permission>, owner: Ownership)
    requires Respects(q, owner) && Allowed(q, mine)
    ensures Allowed(AsOwned(q, owner), mine)
  {
    var j :| 0 <= j < |mine| && Matches(mine[j], q);
    assert Matches(mine[j], AsOwned(q, owner));
  }

  /** The check of a call that succeeds answers for every permission but the stray ones. */
  lemma CheckCarries(s: Store, c: Call, owner: Ownership)
    requires Succeeds(s, c) && c.Create?
    ensures Owned(s, c, owner) <==> StrayAllowed(s, c, owner)
  {
    var ps, mine := c.token.permissions, s[c.actor].permissions;
    if StrayAllowed(s, c, owner) {
      forall i | 0 <= i < |ps|
        ensures Allowed(AsOwned(ps[i], owner), mine)
      {
        assert TokenAllows(s[c.actor], ps[i]);
        if Respects(ps[i], owner) {
          AllowedOwned(ps[i], mine, owner);
        }
      }
    }
  }

  /** Exactly: a call that creates a token keeps it inside its creator. */
  lemma CreatedInsideIff(s: Store, c: Call, owner: Ownership)
    requires Succeeds(s, c) && c.Create?
    ensures Inside(c.token.permissions, s[c.actor].permissions, owner) <==> StrayAllowed(s, c, owner)
  {
    InsideIff(c.token.permissions, s[c.actor].permissions, owner);
    CheckCarries(s, c, owner);
  }

  /** The list has a permission that matches `q` and is not for a whole organization. */
  ghost predicate GrantedNarrowly(q: Permission, mine: seq<Permission>) {
    exists j :: 0 <= j < |mine| && Matches(mine[j], q) && !OrgWide(mine[j])
  }

  /** It is enough that no stray permission is given by permissions for an organization alone. */
  lemma ExactOwned(s: Store, c: Call, owner: Ownership)
    requires Succeeds(s, c) && c.Create?
    requires forall i :: 0 <= i < |c.token.permissions| && !Respects(c.token.permissions[i], owner) ==>
               GrantedNarrowly(c.token.permissions[i], s[c.actor].permissions)
    ensures Owned(s, c, owner)
  {
    var ps, mine := c.token.permissions, s[c.actor].permissions;
    forall i | 0 <= i < |ps| && !Respects(ps[i], owner)
      ensures Allowed(AsOwned(ps[i], owner), mine)
    {
      var j :| 0 <= j < |mine| && Matches(mine[j], ps[i]) && !OrgWide(mine[j]);
      assert Matches(mine[j], AsOwned(ps[i], owner));
    }
    CheckCarries(s, c, owner);
  }

  ghost predicate Respectful(c: Call, owner: Ownership) {
    c.Create? ==> forall i :: 0 <= i < |c.token.permissions| ==> Respects(c.token.permissions[i], owner)
  }

  /** Permissions that name no organization but the owner of their ID are always given under the owner. */
  lemma RespectfulOwned(s: Store, c: Call, owner: Ownership)
    requires Succeeds(s, c) && c.Create? && Respectful(c, owner)
    ensures Owned(s, c, owner)
  {
    CheckCarries(s, c, owner);
  }

  // ------------------------------------------------------ Runs inside the roots

  ghost predicate StrayRun(s: Store, calls: seq<Call>, owner: Ownership)
    decreases |calls|
  {
    calls != [] ==> StrayAllowed(s, calls[0], owner) && StrayRun(After(s, calls[0]), calls[1..], owner)
  }

  lemma CallWithin(s: Store, c: Call, roots: seq<Permission>, owner: Ownership)
    requires Succeeds(s, c) && Within(s, roots, owner)
    requires c.Create? ==> Inside(c.token.permissions, roots, owner)
    ensures Within(After(s, c), roots, owner)
  {
  }

  lemma CreatedWithin(s: Store, c: Call, roots: seq<Permission>, owner: Ownership)
    requires Succeeds(s, c) && c.Create? && Within(s, roots, owner) && StrayAllowed(s, c, owner)
    ensures Inside(c.token.permissions, roots, owner)
  {
    CreatedInsideIff(s, c, owner);
    forall r | Named(r, owner) && Allowed(r, c.token.permissions)
      ensures Allowed(r, roots)
    {
      assert Allowed(r, s[c.actor].permissions);
    }
  }

  /**
    Every run of creating, updating and deleting tokens that the check lets
    through keeps every token inside the roots, if only the stray permissions
    that are given are allowed to their givers under the owner.
   */
  lemma {:induction false} RunWithin(s: Store, calls: seq<Call>, roots: seq<Permission>, owner: Ownership)
    requires Run(s, calls) && StrayRun(s, calls, owner) && Within(s, roots, owner)
    ensures Within(Outcomes(s, calls), roots, owner)
    decreases |calls|
  {
    if calls != [] {
      if calls[0].Create? {
        CreatedWithin(s, calls[0], roots, owner);
      }
      CallWithin(s, calls[0], roots, owner);
      RunWithin(After(s, calls[0]), calls[1..], roots, owner);
    }
  }

  ghost predicate RespectfulCalls(calls: seq<Call>, owner: Ownership) {
    forall k :: 0 <= k < |calls| ==> Respectful(calls[k], owner)
  }

  lemma {:induction false} RespectfulStrays(s: Store, calls: seq<Call>, owner: Ownership)
    requires RespectfulCalls(calls, owner)
    ensures StrayRun(s, calls, owner)
    decreases |calls|
  {
    if calls != [] {
      assert Respectful(calls[0], owner);
      assert forall k :: 0 <= k < |calls[1..]| ==> calls[1..][k] == calls[k + 1];
      RespectfulStrays(After(s, calls[0]), calls[1..], owner);
    }
  }

  /** A run that gives no stray permission needs the check alone. */
  lemma RespectfulWithin(s: Store, calls: seq<Call>, roots: seq<Permission>, owner: Ownership)
    requires Run(s, calls) && RespectfulCalls(calls, owner) && Within(s, roots, owner)
    ensures Within(Outcomes(s, calls), roots, owner)
  {
    RespectfulStrays(s, calls, owner);
    RunWithin(s, calls, roots, owner);
  }

  /** From one root token on, every token such a run leaves allows no named request that the root does not. */
  lemma NeverBeyondRoot(id: ID, root: Token, calls: seq<Call>, later: ID, r: Permission, owner: Ownership)
    requires Run(map[id := root], calls) && Named(r, owner)
    requires RespectfulCalls(calls, owner) || StrayRun(map[id := root], calls, owner)
    requires later in Outcomes(map[id := root], calls)
    requires TokenAllows(Outcomes(map[id := root], calls)[later], r)
    ensures Allowed(r, root.permissions)
  {
    if RespectfulCalls(calls, owner) {
      RespectfulStrays(map[id := root], calls, owner);
    }
    RunWithin(map[id := root], calls, root.permissions, owner);
  }

  // -------------------------------------------------- Exactly, for every run

  /** Every store of the run, from the first to the last, is inside the roots. */
  ghost predicate AlwaysWithin(s: Store, calls: seq<Call>, roots: seq<Permission>, owner: Ownership)
    decreases |calls|
  {
    Within(s, roots, owner) && (calls != [] ==> AlwaysWithin(After(s, calls[0]), calls[1..], roots, owner))
  }

  /** The roots allow every stray permission that the call gives, under the owner. */
  ghost predicate StrayInRoots(c: Call, roots: seq<Permission>, owner: Ownership) {
    c.Create? ==> StraysAllowed(c.token.permissions, roots, owner)
  }

  lemma CreatedWithinIff(s: Store, c: Call, roots: seq<Permission>, owner: Ownership)
    requires Succeeds(s, c) && c.Create? && Within(s, roots, owner)
    ensures Inside(c.token.permissions, roots, owner) <==> StrayInRoots(c, roots, owner)
  {
    var ps, mine := c.token.permissions, s[c.actor].permissions;
    InsideIff(ps, roots, owner);
    if StrayInRoots(c, roots, owner) {
      forall i | 0 <= i < |ps|
        ensures Allowed(AsOwned(ps[i], owner), roots)
      {
        assert TokenAllows(s[c.actor], ps[i]);
        if Respects(ps[i], owner) {
          AllowedOwned(ps[i], mine, owner);
          NamedMatch(ps[i], AsOwned(ps[i], owner), owner);
          assert Inside(mine, roots, owner);
        }
      }
    }
  }

  lemma CallWithinIff(s: Store, c: Call, roots: seq<Permission>, owner: Ownership)
    requires Succeeds(s, c) && Within(s, roots, owner)
    ensures Within(After(s, c), roots, owner) <==> StrayInRoots(c, roots, owner)
  {
    if c.Create? {
      CreatedWithinIff(s, c, roots, owner);
      assert After(s, c)[c.id] == c.token;
    }
    if StrayInRoots(c, roots, owner) {
      CallWithin(s, c, roots, owner);
    }
  }

  /**
    Exactly: a run from inside the roots never leaves them if and only if the
    roots allow, under the owner, every stray permission that it gives.
   */
  lemma {:induction false} RunWithinIff(s: Store, calls: seq<Call>, roots: seq<Permission>, owner: Ownership)
    requires Run(s, calls) && Within(s, roots, owner)
    ensures AlwaysWithin(s, calls, roots, owner) <==>
            forall k :: 0 <= k < |calls| ==> StrayInRoots(calls[k], roots, owner)
    decreases |calls|
  {
    if calls != [] {
      var rest := calls[1..];
      assert forall k :: 0 <= k < |rest| ==> rest[k] == calls[k + 1];
      assert forall k :: 1 <= k < |calls| ==> calls[k] == rest[k - 1];
      CallWithinIff(s, calls[0], roots, owner);
      if StrayInRoots(calls[0], roots, owner) {
        RunWithinIff(After(s, calls[0]), rest, roots, owner);
      }
    }
  }

  /** A store is inside the roots exactly when they allow every permission in it under the owner. */
  lemma WithinIff(s: Store, roots: seq<Permission>, owner: Ownership)
    ensures Within(s, roots, owner) <==> forall id :: id in s ==> OwnedAllowed(s[id].permissions, roots, owner)
  {
    forall id | id in s
      ensures Inside(s[id].permissions, roots, owner) <==> OwnedAllowed(s[id].permissions, roots, owner)
    {
      InsideIff(s[id].permissions, roots, owner);
    }
  }

  /**
    For instance: a token for the buckets of organization 1 creates one for
    bucket 7 in organization 1. If organization 2 owns the bucket, the new token
    allows reading it there, and the root does not.
   */
  lemma CreatedBeyondRoot(owner: Ownership)
    requires owner(Buckets, 7) == 2
    ensures var root := Token(true, 5, 1, [WriteUser(5), Permission(Read, Resource(Buckets, None, Some(1)))]);
            var given := Token(true, 5, 1, [Permission(Read, Resource(Buckets, Some(7), Some(1)))]);
            var r := Permission(Read, Resource(Buckets, Some(7), Some(2)));
            && Run(map[1 := root], [Create(1, 2, given)]) && Named(r, owner)
            && TokenAllows(Outcomes(map[1 := root], [Create(1, 2, given)])[2], r) && !TokenAllows(root, r)
  {
    var mine := [WriteUser(5), Permission(Read, Resource(Buckets, None, Some(1)))];
    var given := Token(true, 5, 1, [Permission(Read, Resource(Buckets, Some(7), Some(1)))]);
    var s: Store := map[1 := Token(true, 5, 1, mine)];
    assert Matches(mine[0], WriteUser(5)) && Matches(mine[1], given.permissions[0]);
    assert Matches(given.permissions[0], Permission(Read, Resource(Buckets, Some(7), Some(2))));
    var calls := [Create(1, 2, given)];
    assert MayCreate(s[1], given);
    assert Run(After(s, calls[0]), calls[1..]);
  }
}
