// The in-memory store a service starts with (bootstrap_store.go): every method
// against the value model of StoreModel.
module BootstrapStore {
  import opened Types
  import opened Text
  import opened Collections
  import opened Sorting
  import opened Matching
  import opened Assignments
  import opened StoreModel
  import opened GrantScan
  import RoleIndex
  import Pagination

  class Store {
    var roles: map<RoleId, Role>
    const index: RoleIndex.ClosureIndex     // roleInheritance and roleClosure
    const assignments: AssignmentTable
    var grants: seq<Grant>
    var disabledBuiltInRoles: set<RoleId>

    ghost predicate Valid()
      reads this, Repr()
    {
      index.Valid() && assignments.Valid()
    }

    ghost function Repr(): set<object>
      reads this, index, assignments
    {
      {this, assignments} + index.Repr() + assignments.Buffers()
    }

    ghost function View(): State
      reads this, Repr()
    {
      State(roles, index.State(), assignments.table, grants, disabledBuiltInRoles)
    }

    constructor ()
      ensures Valid() && fresh(Repr()) && View() == EMPTY_STORE
    {
      roles, grants, disabledBuiltInRoles := map[], [], {};
      index := new RoleIndex.ClosureIndex();
      assignments := new AssignmentTable();
    }

    method RoleDefinition(id: RoleId) returns (r: Result<Role>)
      ensures r == if id in roles then Ok(roles[id]) else Err
    {
      r := if id in roles then Ok(roles[id]) else Err;
    }

    method CreateRole(role: Role) returns (r: Result<()>)
      requires Valid()
      modifies this`roles, index.Repr()
      ensures Valid() && fresh(index.Repr() - old(index.Repr()))
      ensures r.Err? <==> Refused(old(View()), Write.CreateRole(role))
      ensures View() == Written(old(View()), Write.CreateRole(role))
    {
      if role.id == "" {
        return Err;
      }
      if role.name == "" {
        return Err;
      }
      if role.id in roles {
        return Err;
      }
      roles := roles[role.id := role];
      TouchIndex(role.id);
      WrittenCreate(old(View()), role);
      r := Ok(());
    }

    method TouchIndex(id: RoleId)
      requires Valid()
      modifies index.Repr()
      ensures Valid() && fresh(index.Repr() - old(index.Repr()))
      ensures index.State() == RoleIndex.Step(old(index.State()), RoleIndex.Touch(id))
    {
      index.TouchRole(id);
    }

    method UpdateRole(role: Role) returns (r: Result<()>)
      requires Valid()
      modifies this`roles
      ensures Valid()
      ensures r.Err? <==> Refused(old(View()), Write.UpdateRole(role))
      ensures View() == Written(old(View()), Write.UpdateRole(role))
    {
      if role.id == "" || role.name == "" || role.id !in roles {
        return Err;
      }
      roles := roles[role.id := role];
      r := Ok(());
    }

    method DeleteRole(id: RoleId) returns (r: Result<()>)
      requires Valid()
      modifies this`roles, index.Repr(), assignments
      ensures Valid() && index.Repr() <= old(index.Repr()) && fresh(assignments.Buffers() - old(assignments.Buffers()))
      ensures r.Err? <==> Refused(old(View()), Write.DeleteRole(id))
      ensures View() == Written(old(View()), Write.DeleteRole(id))
    {
      if id == "" || id !in roles {
        return Err;
      }
      roles := roles - {id};
      DropIndexAndTable(id);
      WrittenDelete(old(View()), id);
      r := Ok(());
    }

    method DropIndexAndTable(id: RoleId)
      requires Valid()
      modifies index.Repr(), assignments
      ensures Valid() && index.Repr() <= old(index.Repr())
      ensures fresh(assignments.Buffers() - old(assignments.Buffers()))
      ensures index.State() == RoleIndex.Step(old(index.State()), RoleIndex.Drop(id))
      ensures assignments.table == DropRole(old(assignments.table), id)
    {
      index.DropRole(id);
      assignments.DropRoleEverywhere(id);
    }

    method AddRoleInheritance(parent: RoleId, child: RoleId) returns (r: Result<()>)
      requires Valid()
      modifies index.Repr()
      ensures Valid() && fresh(index.Repr() - old(index.Repr()))
      ensures r.Err? <==> Refused(old(View()), AddInheritance(parent, child))
      ensures View() == Written(old(View()), AddInheritance(parent, child))
    {
      r := index.LinkRoles(parent, child);
    }

    method ExpandRoles(ids: seq<string>) returns (result: seq<RoleId>)
      requires Valid()
      ensures NoDuplicates(result)
      ensures Elements(result) == RoleIndex.Expansion(View().index.rows, RoleIndex.Roots(ids))
    {
      result := index.ExpandRoles(ids);
    }

    // --- assignments ---------------------------------------------------------------

    method KnownRoles(builtIns: seq<Role>) returns (known: set<RoleId>)
      ensures known == Known(roles, builtIns)
    {
      known := roles.Keys;
      for i := 0 to |builtIns|
        invariant known == Known(roles, builtIns[..i])
      {
        PrefixGrows(builtIns, i);
        known := known + {builtIns[i].id};
      }
      WholePrefix(builtIns);
    }

    method AssignRole(p: Principal, id: RoleId, builtIns: seq<Role>, bindings: Bindings) returns (r: Result<()>)
      requires Valid()
      modifies assignments, assignments.Buffers()
      ensures Valid() && fresh(assignments.Buffers() - old(assignments.Buffers()))
      ensures r.Err? <==> Refused(old(View()), Write.AssignRole(p, id, builtIns, bindings))
      ensures View() == Written(old(View()), Write.AssignRole(p, id, builtIns, bindings))
    {
      var known := KnownRoles(builtIns);
      r := assignments.AssignRole(p, id, known, bindings);
      assert View() == old(View()).(table := assignments.table);
      WrittenAssign(old(View()), p, id, builtIns, bindings);
    }

    method UnassignRole(p: Principal, id: RoleId, bindings: Bindings) returns (r: Result<()>)
      requires Valid()
      modifies assignments, assignments.Buffers()
      ensures Valid() && assignments.Buffers() <= old(assignments.Buffers())
      ensures r.Err? <==> Refused(old(View()), Write.UnassignRole(p, id, bindings))
      ensures View() == Written(old(View()), Write.UnassignRole(p, id, bindings))
    {
      r := assignments.UnassignRole(p, id, bindings);
      assert View() == old(View()).(table := assignments.table);
      WrittenUnassign(old(View()), p, id, bindings);
    }

    // --- grants --------------------------------------------------------------------

    method GrantsForPrincipal(p: Principal, now: Time) returns (r: Result<seq<Grant>>)
      ensures r == PrincipalsGrants(grants, p, now)
    {
      if !ValidPrincipal(p) {
        return Err;
      }
      var found: seq<Grant> := [];
      ghost var wanted := (g: Grant) => g.Owner() == p && !g.ExpiredAt(now);
      for i := 0 to |grants|
        invariant found == Filter(grants[..i], wanted)
      {
        FilterGrows(grants, i, wanted);
        if grants[i].ownerKind != p.kind || grants[i].ownerId != p.id {
          continue;
        }
        if grants[i].ExpiredAt(now) {
          continue;
        }
        found := found + [grants[i]];
      }
      WholePrefix(grants);
      r := Ok(found);
    }

    method OwnerKeys(owners: seq<Principal>) returns (r: Result<set<string>>)
      ensures r == if AllValid(owners) then Ok(KeysOf(owners)) else Err
    {
      var keys: set<string> := {};
      for i := 0 to |owners|
        invariant keys == KeysOf(owners[..i]) && AllValid(owners[..i])
      {
        PrefixGrows(owners, i);
        if !ValidPrincipal(owners[i]) {
          return Err;
        }
        keys := keys + {PrincipalKey(owners[i])};
      }
      WholePrefix(owners);
      r := Ok(keys);
    }

    method GrantsForOwners(owners: seq<Principal>, req: Request, now: Time) returns (r: Result<seq<Grant>>)
      ensures r == OwnersGrants(grants, owners, req, now)
    {
      var keys := OwnerKeys(owners);
      if keys.Err? {
        return Err;
      }
      var found: seq<Grant> := [];
      ghost var wanted := (g: Grant) => Fetched(g, KeysOf(owners), req, now);
      for i := 0 to |grants|
        invariant found == Filter(grants[..i], wanted)
      {
        var g := grants[i];
        FilterGrows(grants, i, wanted);
        if PrincipalKey(g.Owner()) !in keys.value {
          continue;
        }
        if g.ExpiredAt(now) {
          continue;
        }
        if req.permission != "" && g.permission != req.permission {
          continue;
        }
        if !ScopeMatches(g.teamScope, req.team) {
          continue;
        }
        if g.objectScope.Some? && !ScopeMatches(g.objectScope.value, req.obj) {
          continue;
        }
        found := found + [g];
      }
      WholePrefix(grants);
      r := Ok(found);
    }

    method CreateGrant(g: Grant) returns (r: Result<()>)
      requires Valid()
      modifies this`grants
      ensures Valid()
      ensures r.Err? <==> Refused(old(View()), Write.CreateGrant(g))
      ensures View() == Written(old(View()), Write.CreateGrant(g))
    {
      if g.ownerId == "" || g.permission == "" || g.teamScope == "" {
        return Err;
      }
      grants := grants + [g];
      r := Ok(());
    }

    /** The bulk write stops at the first bad grant and keeps what it has
        already appended. */
    method CreateGrants(more: seq<Grant>) returns (r: Result<()>)
      modifies this`grants
      ensures exists n :: 0 <= n <= |more| && grants == old(grants) + more[..n]
                && (forall i :: 0 <= i < n ==> GrantAccepted(more[i]))
                && (r.Ok? <==> n == |more|) && (r.Err? ==> !GrantAccepted(more[n]))
    {
      if |more| == 0 {
        assert grants == old(grants) + more[..0];
        return Ok(());
      }
      for i := 0 to |more|
        invariant grants == old(grants) + more[..i] && forall j :: 0 <= j < i ==> GrantAccepted(more[j])
      {
        if more[i].ownerId == "" || more[i].permission == "" || more[i].teamScope == "" {
          return Err;
        }
        PrefixGrows(more, i);
        grants := grants + [more[i]];
      }
      r := Ok(());
    }

    method DeleteGrantsForOwner(kind: string, id: string)
      requires Valid()
      modifies this`grants
      ensures Valid() && View() == Written(old(View()), DeleteGrants(Principal(kind, id)))
    {
      var kept: seq<Grant> := [];
      ghost var other := (g: Grant) => g.Owner() != Principal(kind, id);
      for i := 0 to |grants|
        invariant grants == old(grants) && kept == Filter(grants[..i], other)
      {
        FilterGrows(grants, i, other);
        if grants[i].ownerKind == kind && grants[i].ownerId == id {
          continue;
        }
        kept := kept + [grants[i]];
      }
      WholePrefix(grants);
      WrittenDeleteGrants(View(), Principal(kind, id), kept);
      grants := kept;
      assert View() == old(View()).(grants := kept);
    }

    method PrincipalsWithGrant(req: Request, now: Time) returns (r: Result<seq<PrincipalHit>>)
      ensures r.Err? <==> req.permission == ""
      ensures r.Ok? ==> StrictlyByHolder(r.value)
      ensures r.Ok? ==>
                ((forall p :: Names(r.value, p) <==> Entitled(grants, req.permission, now, p))
                 <==> KeysSuffice(grants, req.permission, now))
      ensures (forall g :: g in grants ==> ValidKind(g.ownerKind)) ==> KeysSuffice(grants, req.permission, now)
    {
      r := GrantScan.PrincipalsWithGrant(grants, req.permission, now);
      if r.Ok? {
        ScanIsRightExactly(grants, req.permission, now, r.value);
      }
      if forall g :: g in grants ==> ValidKind(g.ownerKind) {
        ValidKindsSuffice(grants, req.permission, now);
      }
    }

    method ListGrants(q: Pagination.Query) returns (r: Pagination.Answer)
      ensures r == Pagination.PageOf(Filter(grants, g => Pagination.Selected(g, q)), q.limit, q.cursor)
    {
      r := Pagination.ListGrants(grants, q);
    }

    // --- built-in roles switched off ---------------------------------------------------

    method DisableBuiltInRole(id: RoleId) returns (r: Result<()>)
      requires Valid()
      modifies this`disabledBuiltInRoles
      ensures Valid()
      ensures r.Err? <==> Refused(old(View()), Disable(id))
      ensures View() == Written(old(View()), Disable(id))
    {
      if id == "" {
        return Err;
      }
      disabledBuiltInRoles := disabledBuiltInRoles + {id};
      r := Ok(());
    }

    method EnableBuiltInRole(id: RoleId) returns (r: Result<()>)
      requires Valid()
      modifies this`disabledBuiltInRoles
      ensures Valid()
      ensures r.Err? <==> Refused(old(View()), Enable(id))
      ensures View() == Written(old(View()), Enable(id))
    {
      if id == "" {
        return Err;
      }
      disabledBuiltInRoles := disabledBuiltInRoles - {id};
      r := Ok(());
    }

    method DisabledBuiltInRoles() returns (ids: seq<RoleId>)
      ensures StrictlySorted(ids) && Elements(ids) == disabledBuiltInRoles
    {
      ids := [];
      var pending := disabledBuiltInRoles;
      while pending != {}
        invariant pending <= disabledBuiltInRoles
        invariant NoDuplicates(ids) && Elements(ids) == disabledBuiltInRoles - pending
      {
        var id :| id in pending;
        AppendNew(ids, id);
        assert id !in Elements(ids);
        ids := ids + [id];
        pending := pending - {id};
      }
      StringsAreTotal(Elements(ids));
      var sorted := SortBy(ids, Less);
      SortedDistinct(ids, sorted, Less);
      SameBag(sorted, ids);
      ids := sorted;
    }
  }
}
