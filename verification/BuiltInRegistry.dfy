// The in-memory registry of built-in roles (builtin_registry.go). It shares
// the closure index with the stores.
module BuiltInRegistry {
  import opened Types
  import opened Collections
  import opened Decision
  import opened Seeding
  import RoleIndex

  class Registry {
    var roles: map<RoleId, Role>
    var grants: seq<Grant>
    const index: RoleIndex.ClosureIndex

    ghost predicate Valid()
      reads this, index, index.Repr()
    {
      index.Valid()
    }

    constructor ()
      ensures Valid() && fresh(index.Repr())
      ensures roles == map[] && grants == [] && index.State() == RoleIndex.EMPTY
    {
      roles, grants := map[], [];
      index := new RoleIndex.ClosureIndex();
    }

    /** Registering again replaces the definition. */
    method RegisterRole(role: Role) returns (r: Result<()>)
      requires Valid()
      modifies this`roles, index.Repr()
      ensures Valid() && fresh(index.Repr() - old(index.Repr()))
      ensures r.Err? <==> role.id == "" || !("builtin." <= role.id) || role.name == ""
      ensures r.Err? ==> roles == old(roles) && index.State() == old(index.State())
      ensures r.Ok? ==> roles == old(roles)[role.id := role]
      ensures r.Ok? ==> index.State() == RoleIndex.Step(old(index.State()), RoleIndex.Touch(role.id))
    {
      if role.id == "" || !IsBuiltIn(role.id) || role.name == "" {
        return Err;
      }
      roles := roles[role.id := role];
      index.TouchRole(role.id);
      r := Ok(());
    }

    method AddRoleInheritance(parent: RoleId, child: RoleId) returns (r: Result<()>)
      requires Valid()
      modifies index.Repr()
      ensures Valid() && fresh(index.Repr() - old(index.Repr()))
      ensures r.Err? <==>
                parent == "" || child == "" || parent == child || !("builtin." <= parent) || !("builtin." <= child)
      ensures index.State() == if r.Err? then old(index.State())
                               else RoleIndex.Step(old(index.State()), RoleIndex.Link(parent, child))
    {
      if parent == "" || child == "" || !IsBuiltIn(parent) || !IsBuiltIn(child) || parent == child {
        return Err;
      }
      r := index.LinkRoles(parent, child);
    }

    method ExpandRoles(ids: seq<string>) returns (result: seq<RoleId>)
      requires Valid()
      ensures NoDuplicates(result)
      ensures Elements(result) == RoleIndex.Expansion(index.Rows(), RoleIndex.Roots(ids))
    {
      result := index.ExpandRoles(ids);
    }

    /** Adding an equivalent grant again changes nothing. */
    method AddGrant(grant: Grant) returns (r: Result<()>)
      modifies this`grants
      ensures r.Err? <==> grant.ownerId == "" || !("builtin." <= grant.ownerId) || grant.permission == ""
      ensures grants == if r.Err? then old(grants) else Added(old(grants), Defaulted(grant))
    {
      if grant.ownerId == "" || !IsBuiltIn(grant.ownerId) || grant.permission == "" {
        return Err;
      }
      var g := Defaulted(grant);
      for i := 0 to |grants|
        invariant grants == old(grants) && forall h :: h in grants[..i] ==> !Equivalent(h, g)
      {
        PrefixGrows(grants, i);
        if Equivalent(grants[i], g) {
          return Ok(());
        }
      }
      WholePrefix(grants);
      grants := grants + [g];
      r := Ok(());
    }

    /** By owner ID alone, without looking at the scopes. */
    method GrantsForOwners(owners: seq<Principal>, req: Request, now: Time) returns (result: seq<Grant>)
      ensures result == RegistryGrants(grants, owners, req, now)
    {
      var ids: set<string> := {};
      for i := 0 to |owners|
        invariant ids == RoleIdsOf(owners[..i])
      {
        PrefixGrows(owners, i);
        if owners[i].kind == KIND_ROLE {
          ids := ids + {owners[i].id};
        }
      }
      WholePrefix(owners);
      result := [];
      ghost var wanted := (g: Grant) => RegistryFetched(g, RoleIdsOf(owners), req, now);
      for i := 0 to |grants|
        invariant result == Filter(grants[..i], wanted)
      {
        FilterGrows(grants, i, wanted);
        if grants[i].ownerId !in ids {
          continue;
        }
        if grants[i].ExpiredAt(now) {
          continue;
        }
        if req.permission != "" && grants[i].permission != req.permission {
          continue;
        }
        result := result + [grants[i]];
      }
      WholePrefix(grants);
    }
  }

  predicate LinkAllowed(parent: RoleId, child: RoleId) {
    IsBuiltIn(parent) && IsBuiltIn(child) && parent != child && parent != "" && child != ""
  }

  function Defaulted(g: Grant): Grant {
    if g.teamScope == "" then g.(teamScope := "*") else g
  }

  function Added(grants: seq<Grant>, g: Grant): seq<Grant> {
    if exists h :: h in grants && Equivalent(h, g) then grants else grants + [g]
  }

  function RoleIdsOf(owners: seq<Principal>): set<string> {
    set p | p in owners && p.kind == KIND_ROLE :: p.id
  }

  predicate RegistryFetched(g: Grant, ids: set<string>, req: Request, now: Time) {
    g.ownerId in ids && !g.ExpiredAt(now) && (req.permission == "" || g.permission == req.permission)
  }

  function RegistryGrants(grants: seq<Grant>, owners: seq<Principal>, req: Request, now: Time): seq<Grant> {
    Filter(grants, (g: Grant) => RegistryFetched(g, RoleIdsOf(owners), req, now))
  }

  /** The registry answers for role owners only, by their ID, and asks no grant
      for its own owner kind or its scopes. */
  lemma RegistryGrantsExactly(grants: seq<Grant>, owners: seq<Principal>, req: Request, now: Time, g: Grant)
    ensures g in RegistryGrants(grants, owners, req, now) <==>
              && g in grants && Principal("role", g.ownerId) in owners
              && (g.expiresAt.None? || now < g.expiresAt.value)
              && (req.permission == "" || req.permission == g.permission)
  {
    assert g.ownerId in RoleIdsOf(owners) <==> Principal("role", g.ownerId) in owners;
  }

  /** However grants are added, no two equivalent ones are kept. */
  ghost predicate NoEquivalents(grants: seq<Grant>) {
    forall i, j :: 0 <= i < j < |grants| ==> !Equivalent(grants[i], grants[j])
  }

  lemma AddedStaysDistinct(grants: seq<Grant>, g: Grant)
    requires NoEquivalents(grants)
    ensures NoEquivalents(Added(grants, g))
    ensures Added(Added(grants, g), g) == Added(grants, g)
    ensures grants <= Added(grants, g) && exists h :: h in Added(grants, g) && Equivalent(h, g)
    ensures forall h :: h in Added(grants, g) ==> h in grants || h == g
    ensures Defaulted(g) == g.(teamScope := if g.teamScope == "" then "*" else g.teamScope)
  {
    assert Equivalent(g, g);
    if Added(grants, g) != grants {
      assert g in Added(grants, g);
    }
  }

  /** The registry's index over a run of registrations and accepted links: its
      rows are reachability over edges between built-in roles. */
  lemma {:induction false} RegistryIndex(ops: seq<RoleIndex.Op>)
    requires forall op :: op in ops ==>
               (op.Touch? && IsBuiltIn(op.role)) || (op.Link? && LinkAllowed(op.parent, op.child))
    ensures RoleIndex.Tracks(RoleIndex.Run(ops), RoleIndex.Run(ops).edges)
    ensures forall e :: e in RoleIndex.Run(ops).edges ==> IsBuiltIn(e.0) && IsBuiltIn(e.1)
  {
    RoleIndex.RunTracks(ops);
    RoleIndex.RecordedIsGhost(ops);
    OnlyBuiltInEdges(ops);
  }

  lemma {:induction false} OnlyBuiltInEdges(ops: seq<RoleIndex.Op>)
    requires forall op :: op in ops ==>
               (op.Touch? && IsBuiltIn(op.role)) || (op.Link? && LinkAllowed(op.parent, op.child))
    ensures forall e :: e in RoleIndex.Run(ops).edges ==> IsBuiltIn(e.0) && IsBuiltIn(e.1)
  {
    if ops != [] {
      var front := ops[..|ops| - 1];
      assert ops == front + [ops[|ops| - 1]];
      OnlyBuiltInEdges(front);
    }
  }
}
