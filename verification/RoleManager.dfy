// The role assignment manager itself (role_assignment_manager.go), working on
// a bootstrap store: each method against the value functions of ManagerRules.
module RoleManager {
  import opened Types
  import opened Collections
  import opened Assignments
  import opened ManagerRules
  import opened Removals
  import StoreModel
  import BootstrapStore

  // --- scope filters -------------------------------------------------------------

  predicate AssignmentInScope(a: RoleAssignment, sc: Scope) {
    InScope(a.bindings, sc)
  }

  method FilterAssignmentsByScope(list: seq<RoleAssignment>, sc: Scope) returns (kept: seq<RoleAssignment>)
    ensures kept == Filter(list, a => AssignmentInScope(a, sc))
  {
    kept := [];
    ghost var wanted := (a: RoleAssignment) => AssignmentInScope(a, sc);
    for i := 0 to |list|
      invariant kept == Filter(list[..i], wanted)
    {
      FilterGrows(list, i, wanted);
      if sc.team.Some? && sc.team.value != "*" {
        if "team" !in list[i].bindings || list[i].bindings["team"] != Str(sc.team.value) {
          continue;
        }
      }
      if sc.obj.Some? && sc.obj.value != "*" {
        if "id" !in list[i].bindings || list[i].bindings["id"] != Str(sc.obj.value) {
          continue;
        }
      }
      kept := kept + [list[i]];
    }
    WholePrefix(list);
  }

  method RoleIdsOf(list: seq<RoleAssignment>) returns (roles: seq<RoleId>)
    ensures roles == RoleIds(list)
  {
    roles := [];
    for i := 0 to |list|
      invariant roles == RoleIds(list[..i])
    {
      assert list[..i + 1][..i] == list[..i];
      roles := roles + [list[i].role];
    }
    WholePrefix(list);
  }

  function RoleIds(list: seq<RoleAssignment>): seq<RoleId> {
    if list == [] then [] else RoleIds(list[..|list| - 1]) + [list[|list| - 1].role]
  }

  lemma {:induction false} ScopedIsFiltered(list: seq<RoleAssignment>, sc: Scope)
    ensures ScopedRoles(list, sc) == RoleIds(Filter(list, a => AssignmentInScope(a, sc)))
  {
    if list != [] {
      var front, last := list[..|list| - 1], list[|list| - 1];
      var kept := Filter(front, a => AssignmentInScope(a, sc));
      ScopedIsFiltered(front, sc);
      assert (kept + [last])[..|kept|] == kept && kept + [] == kept;
    }
  }

  predicate HitInScope(h: AssignmentHit, sc: Scope) {
    InScope(h.bindings, sc)
  }

  method FilterHitsByScope(hits: seq<AssignmentHit>, sc: Scope) returns (kept: seq<AssignmentHit>)
    ensures kept == Filter(hits, h => HitInScope(h, sc))
  {
    kept := [];
    ghost var wanted := h => HitInScope(h, sc);
    for i := 0 to |hits|
      invariant kept == Filter(hits[..i], wanted)
    {
      FilterGrows(hits, i, wanted);
      if sc.team.Some? && sc.team.value != "*" {
        if "team" !in hits[i].bindings || hits[i].bindings["team"] != Str(sc.team.value) {
          continue;
        }
      }
      if sc.obj.Some? && sc.obj.value != "*" {
        if "id" !in hits[i].bindings || hits[i].bindings["id"] != Str(sc.obj.value) {
          continue;
        }
      }
      kept := kept + [hits[i]];
    }
    WholePrefix(hits);
  }

  // --- role lists --------------------------------------------------------------------

  method KeepOthers(list: seq<RoleId>, remove: seq<RoleId>) returns (kept: seq<RoleId>)
    ensures Elements(kept) == Elements(list) - Elements(remove)
  {
    kept := [];
    for i := 0 to |list|
      invariant Elements(kept) == Elements(list[..i]) - Elements(remove)
    {
      PrefixGrows(list, i);
      if list[i] !in remove {
        AppendNew(kept, list[i]);
        kept := kept + [list[i]];
      }
    }
    WholePrefix(list);
  }

  method Collect(list: seq<RoleId>, filter: RoleId) returns (s: set<RoleId>)
    ensures s == Only(Elements(list), filter)
  {
    s := {};
    for i := 0 to |list|
      invariant s == Only(Elements(list[..i]), filter)
    {
      PrefixGrows(list, i);
      if filter != "" && list[i] != filter {
        continue;
      }
      s := s + {list[i]};
    }
    WholePrefix(list);
  }

  /** The members of one set missing from another, in any order, each once. */
  method Missing(from: set<RoleId>, other: set<RoleId>) returns (list: seq<RoleId>)
    ensures Elements(list) == from - other && NoDuplicates(list) && |list| == |from - other|
  {
    list := [];
    var pending := from;
    while pending != {}
      invariant pending <= from
      invariant Elements(list) == from - other - pending && NoDuplicates(list)
    {
      var r :| r in pending;
      if r !in other {
        AppendNew(list, r);
        assert r !in Elements(list);
        list := list + [r];
      }
      pending := pending - {r};
    }
    DistinctLength(list);
  }

  /** diffRoleAssignments. */
  method DiffRoleAssignments(current: seq<RoleId>, proposed: seq<RoleId>, filter: RoleId)
    returns (adding: seq<RoleId>, removing: seq<RoleId>)
    ensures NoDuplicates(adding) && Elements(adding) == Only(Elements(proposed) - Elements(current), filter)
    ensures NoDuplicates(removing) && Elements(removing) == Only(Elements(current) - Elements(proposed), filter)
    ensures |adding| == |Elements(adding)| && |removing| == |Elements(removing)|
  {
    var c := Collect(current, filter);
    var p := Collect(proposed, filter);
    adding := Missing(p, c);
    removing := Missing(c, p);
    assert p - c == Only(Elements(proposed) - Elements(current), filter);
    assert c - p == Only(Elements(current) - Elements(proposed), filter);
  }

  // --- the rules that look at role lists only ------------------------------------------

  method CheckCannotAddSelf(roles: seq<RoleId>, current: seq<RoleId>, proposed: seq<RoleId>,
                            assignee: Principal, assigner: Option<Principal>) returns (r: Result<()>)
    ensures r.Ok? <==> (assigner == Some(assignee) ==>
                          forall x :: x in Elements(proposed) - Elements(current) ==> roles != [] && x !in roles)
  {
    if assigner.None? {
      return Ok(());
    }
    for i := 0 to |proposed|
      invariant assigner == Some(assignee) ==>
                  forall j :: 0 <= j < i && proposed[j] !in current ==> roles != [] && proposed[j] !in roles
    {
      if proposed[i] in current {
        continue;
      }
      if assigner.value.id != assignee.id || assigner.value.kind != assignee.kind {
        continue;
      }
      if |roles| == 0 || proposed[i] in roles {
        assert proposed[i] in Elements(proposed) - Elements(current);
        return Err;
      }
    }
    r := Ok(());
  }

  method CheckCannotRemoveSelf(roles: seq<RoleId>, current: seq<RoleId>, proposed: seq<RoleId>,
                               assignee: Principal, assigner: Option<Principal>) returns (r: Result<()>)
    ensures r.Ok? <==> (assigner == Some(assignee) ==>
                          forall x :: x in Elements(current) - Elements(proposed) ==> roles != [] && x !in roles)
  {
    if assigner.None? {
      return Ok(());
    }
    if assigner.value.id != assignee.id || assigner.value.kind != assignee.kind {
      return Ok(());
    }
    for i := 0 to |current|
      invariant forall j :: 0 <= j < i && current[j] !in proposed ==> roles != [] && current[j] !in roles
    {
      if current[i] in proposed {
        continue;
      }
      if |roles| == 0 || current[i] in roles {
        assert current[i] in Elements(current) - Elements(proposed);
        return Err;
      }
    }
    r := Ok(());
  }

  method CheckCannotCombine(a: RoleId, b: RoleId, proposed: seq<RoleId>) returns (r: Result<()>)
    ensures r.Ok? <==> !(a in Elements(proposed) && b in Elements(proposed))
  {
    var hasA, hasB := false, false;
    for i := 0 to |proposed|
      invariant hasA <==> a in Elements(proposed[..i])
      invariant hasB <==> b in Elements(proposed[..i])
    {
      PrefixGrows(proposed, i);
      if proposed[i] == a {
        hasA := true;
      }
      if proposed[i] == b {
        hasB := true;
      }
    }
    WholePrefix(proposed);
    r := if hasA && hasB then Err else Ok(());
  }

  // --- the counts of RequireAtLeast -------------------------------------------------------

  predicate Counted(h: AssignmentHit, kind: string, ids: Option<seq<string>>) {
    h.holder.kind == kind && (ids.Some? ==> h.holder.id in ids.value)
  }

  /** The hits of a kind, or those of them that have a listed ID. */
  ghost function Listed(hits: set<AssignmentHit>, kind: string, ids: Option<seq<string>>): set<AssignmentHit> {
    set h | h in hits && Counted(h, kind, ids)
  }

  ghost function Count(hits: seq<AssignmentHit>, kind: string, ids: Option<seq<string>>): nat {
    |Listed(Elements(hits), kind, ids)|
  }

  lemma CountGrows(hits: seq<AssignmentHit>, i: nat, kind: string, ids: Option<seq<string>>)
    requires NoDuplicates(hits) && i < |hits|
    ensures Count(hits[..i + 1], kind, ids)
       == Count(hits[..i], kind, ids) + if Counted(hits[i], kind, ids) then 1 else 0
  {
    var x := hits[i];
    var before, after := Listed(Elements(hits[..i]), kind, ids), Listed(Elements(hits[..i + 1]), kind, ids);
    PrefixGrows(hits, i);
    assert x !in hits[..i];
    if Counted(x, kind, ids) {
      OneMore(before, after, x);
    } else {
      assert before == after;
    }
  }

  datatype Tally = Tally(users: int, groups: int, teams: int)

  function TallyAt(assignee: Principal, n: int): Tally {
    Tally(At(KIND_USER, assignee, n), At(KIND_GROUP, assignee, n), At(KIND_TEAM, assignee, n))
  }

  method CountByKind(hits: seq<AssignmentHit>) returns (n: Tally)
    requires NoDuplicates(hits)
    ensures n == Tally(Count(hits, KIND_USER, None), Count(hits, KIND_GROUP, None), Count(hits, KIND_TEAM, None))
  {
    var users, groups, teams := 0, 0, 0;
    for i := 0 to |hits|
      invariant users == Count(hits[..i], KIND_USER, None)
      invariant groups == Count(hits[..i], KIND_GROUP, None)
      invariant teams == Count(hits[..i], KIND_TEAM, None)
    {
      CountGrows(hits, i, KIND_USER, None);
      CountGrows(hits, i, KIND_GROUP, None);
      CountGrows(hits, i, KIND_TEAM, None);
      if hits[i].holder.kind == KIND_USER {
        users := users + 1;
      }
      if hits[i].holder.kind == KIND_GROUP {
        groups := groups + 1;
      }
      if hits[i].holder.kind == KIND_TEAM {
        teams := teams + 1;
      }
    }
    WholePrefix(hits);
    n := Tally(users, groups, teams);
  }

  /** The counting loop of MinMaxInstancesRule. */
  method CountAmong(hits: seq<AssignmentHit>, ids: seq<string>) returns (n: Tally)
    requires NoDuplicates(hits)
    ensures n == Tally(Count(hits, KIND_USER, Some(ids)), Count(hits, KIND_GROUP, Some(ids)),
                       Count(hits, KIND_TEAM, Some(ids)))
  {
    var users, groups, teams := 0, 0, 0;
    for i := 0 to |hits|
      invariant users == Count(hits[..i], KIND_USER, Some(ids))
      invariant groups == Count(hits[..i], KIND_GROUP, Some(ids))
      invariant teams == Count(hits[..i], KIND_TEAM, Some(ids))
    {
      CountGrows(hits, i, KIND_USER, Some(ids));
      CountGrows(hits, i, KIND_GROUP, Some(ids));
      CountGrows(hits, i, KIND_TEAM, Some(ids));
      if hits[i].holder.id in ids {
        if hits[i].holder.kind == KIND_USER {
          users := users + 1;
        } else if hits[i].holder.kind == KIND_GROUP {
          groups := groups + 1;
        } else if hits[i].holder.kind == KIND_TEAM {
          teams := teams + 1;
        }
      }
    }
    WholePrefix(hits);
    n := Tally(users, groups, teams);
  }

  method CheckBounds(kind: Option<string>, min: int, max: int, n: Tally) returns (r: Result<()>)
    ensures r.Ok? <==> WithinBounds(kind, min, max, n.users, n.groups, n.teams)
  {
    if kind.Some? {
      if kind.value == KIND_USER {
        if n.users < min || (max > 0 && n.users > max) {
          return Err;
        }
      } else if kind.value == KIND_GROUP {
        if n.groups < min || (max > 0 && n.groups > max) {
          return Err;
        }
      } else if kind.value == KIND_TEAM {
        if n.teams < min || (max > 0 && n.teams > max) {
          return Err;
        }
      }
      return Ok(());
    }
    var total := n.users + n.groups + n.teams;
    if total < min {
      return Err;
    }
    if max > 0 && total > max {
      return Err;
    }
    r := Ok(());
  }

  method CountListed(hits: seq<AssignmentHit>, kind: string, ids: seq<string>) returns (n: int)
    requires NoDuplicates(hits)
    ensures n == Count(hits, kind, Some(ids))
  {
    n := 0;
    for i := 0 to |hits|
      invariant n == Count(hits[..i], kind, Some(ids))
    {
      CountGrows(hits, i, kind, Some(ids));
      if hits[i].holder.kind == kind && hits[i].holder.id in ids {
        n := n + 1;
      }
    }
    WholePrefix(hits);
  }

  /** The loops over `adding` and `removing`. */
  method CountMore(n: Tally, assignee: Principal, roles: seq<RoleId>) returns (sum: Tally)
    ensures var more := TallyAt(assignee, |roles|);
      sum == Tally(n.users + more.users, n.groups + more.groups, n.teams + more.teams)
  {
    sum := n;
    for i := 0 to |roles|
      invariant var more := TallyAt(assignee, i);
        sum == Tally(n.users + more.users, n.groups + more.groups, n.teams + more.teams)
    {
      if assignee.kind == KIND_USER {
        sum := sum.(users := sum.users + 1);
      } else if assignee.kind == KIND_GROUP {
        sum := sum.(groups := sum.groups + 1);
      } else if assignee.kind == KIND_TEAM {
        sum := sum.(teams := sum.teams + 1);
      }
    }
  }

  lemma CountsAreHeld(t: Table, role: RoleId, sc: Scope, hits: seq<AssignmentHit>)
    requires Elements(hits) == Holders(t, role, sc, None)
    ensures forall kind :: kind in {KIND_USER, KIND_GROUP, KIND_TEAM} ==>
      && Count(hits, kind, None) == |HeldBy(t, role, sc, kind)|
      && forall ids :: Count(hits, kind, Some(ids)) == |Among(HeldBy(t, role, sc, kind), ids)|
  {
    CountIsHeldBy(t, role, sc, hits, KIND_USER);
    CountIsHeldBy(t, role, sc, hits, KIND_GROUP);
    CountIsHeldBy(t, role, sc, hits, KIND_TEAM);
  }

  lemma ComparisonDecides(t: Table, sc: Scope, role: RoleId, kind: Option<string>, hits: seq<AssignmentHit>,
                          p: Principal, come: nat, go: nat, now: Tally, going: Tally)
    requires Elements(hits) == Holders(t, role, sc, None)
    requires now == Tally(Count(hits, KIND_USER, None) + TallyAt(p, come).users,
                          Count(hits, KIND_GROUP, None) + TallyAt(p, come).groups,
                          Count(hits, KIND_TEAM, None) + TallyAt(p, come).teams)
    requires going == TallyAt(p, go)
    ensures LeavesSome(kind, (now.users, going.users), (now.groups, going.groups), (now.teams, going.teams))
        <==> Leaves(t, sc, p, role, kind, come, go)
  {
    CountsAreHeld(t, role, sc, hits);
  }

  lemma MinimumDecided(t: Table, sc: Scope, role: RoleId, min: int, kind: Option<string>, hits: seq<AssignmentHit>,
                       current: set<RoleId>, proposed: set<RoleId>, p: Principal, assigner: Option<Principal>,
                       come: nat, go: nat, now: Tally, going: Tally)
    requires Elements(hits) == Holders(t, role, sc, None)
    requires come == |Only(proposed - current, role)| && go == |Only(current - proposed, role)|
    requires now == Tally(Count(hits, KIND_USER, None) + TallyAt(p, come).users,
                          Count(hits, KIND_GROUP, None) + TallyAt(p, come).groups,
                          Count(hits, KIND_TEAM, None) + TallyAt(p, come).teams)
    requires going == TallyAt(p, go)
    ensures LeavesSome(kind, (now.users, going.users), (now.groups, going.groups), (now.teams, going.teams))
        <==> Permits(RequireAtLeast(role, min, kind), t, sc, current, proposed, p, assigner)
  {
    ComparisonDecides(t, sc, role, kind, hits, p, come, go, now, going);
    PermitsIfLeaves(t, sc, current, proposed, p, assigner, role, min, kind);
  }

  lemma CountIsHeldBy(t: Table, role: RoleId, sc: Scope, hits: seq<AssignmentHit>, kind: string)
    requires Elements(hits) == Holders(t, role, sc, None)
    ensures Count(hits, kind, None) == |HeldBy(t, role, sc, kind)|
    ensures forall ids :: Count(hits, kind, Some(ids)) == |Among(HeldBy(t, role, sc, kind), ids)|
  {
    var held, all := HeldBy(t, role, sc, kind), Listed(Elements(hits), kind, None);
    forall h
      ensures h in held <==> h in all
    {
      assert h in all <==> h in Holders(t, role, sc, None) && Counted(h, kind, None);
    }
    assert held == all;
    forall ids: seq<string>
      ensures Count(hits, kind, Some(ids)) == |Among(held, ids)|
    {
      assert Among(held, ids) == Listed(Elements(hits), kind, Some(ids));
    }
  }

  // --- the manager ----------------------------------------------------------------------------

  class RoleAssignmentManager {
    const store: BootstrapStore.Store
    const builtIns: seq<Role>
    const managedRoles: seq<RoleId>
    const scope: Scope
    var assignmentRules: seq<Rule>
    var removeRules: seq<RemovalRule>

    constructor (store: BootstrapStore.Store, builtIns: seq<Role>, roles: seq<RoleId>, obj: Option<string>,
                 team: Option<string>)
      ensures this.store == store && this.builtIns == builtIns && managedRoles == roles && scope == Scope(team, obj)
      ensures assignmentRules == [] && removeRules == []
    {
      this.store, this.builtIns, managedRoles, scope := store, builtIns, roles, Scope(team, obj);
      assignmentRules, removeRules := [], [];
    }

    method AddRemovalRule(rule: RemovalRule)
      modifies this`removeRules
      ensures removeRules == old(removeRules) + [rule]
    {
      removeRules := removeRules + [rule];
    }

    method AddAssignmentRule(rule: Rule)
      modifies this`assignmentRules
      ensures assignmentRules == old(assignmentRules) + [rule]
    {
      assignmentRules := assignmentRules + [rule];
    }

    ghost predicate Valid()
      reads this, store, store.Repr()
    {
      store.Valid() && Good(store.assignments.table)
    }

    ghost function Table(): Table
      reads this, store, store.assignments
    {
      store.assignments.table
    }

    ghost function Setup(): Manager
      reads this, store
    {
      Manager(scope, StoreModel.Known(store.roles, builtIns), assignmentRules, removeRules)
    }

    method CurrentRoles(p: Principal) returns (r: Result<seq<RoleId>>)
      requires Valid()
      ensures r == if ValidPrincipal(p) then Ok(ScopedRoles(Listing(Table(), p), scope)) else Err
      ensures r.Ok? ==> Elements(r.value) == RolesOf(Table(), p, scope)
    {
      var held := store.assignments.RoleAssignmentsForPrincipal(p);
      if held.Err? {
        return Err;
      }
      var filtered := FilterAssignmentsByScope(held.value, scope);
      var roles := RoleIdsOf(filtered);
      ScopedIsFiltered(held.value, scope);
      ScopedElements(held.value, scope);
      r := Ok(roles);
    }

    method HitsInScope(role: RoleId) returns (hits: seq<AssignmentHit>)
      requires Valid()
      ensures NoDuplicates(hits) && Elements(hits) == Holders(Table(), role, scope, None)
    {
      var found := store.assignments.RoleAssignmentsForRoleID(role);
      hits := FilterHitsByScope(found.value, scope);
      FilterKeepsNoDuplicates(found.value, h => HitInScope(h, scope));
      forall h
        ensures h in hits <==> h in HitsOf(Table(), role) && InScope(h.bindings, scope)
      {
        assert h in found.value <==> h in Elements(found.value);
      }
    }

    /** computeProposed */
    method ComputeProposed(p: Principal, desired: seq<RoleId>) returns (r: Result<(seq<RoleId>, seq<RoleId>)>)
      requires Valid()
      ensures r.Ok? <==> ValidPrincipal(p)
      ensures r.Ok? ==> Elements(r.value.0) == Elements(desired) - RolesOf(Table(), p, scope)
      ensures r.Ok? ==> Elements(r.value.1) == RolesOf(Table(), p, scope) - Elements(desired)
    {
      var current := CurrentRoles(p);
      if current.Err? {
        return Err;
      }
      var currentSet := Collect(current.value, "");
      var desiredSet := Collect(desired, "");
      var add := Missing(desiredSet, currentSet);
      var remove := Missing(currentSet, desiredSet);
      r := Ok((add, remove));
    }

    method Validate(rule: Rule, current: seq<RoleId>, proposed: seq<RoleId>, assignee: Principal,
                    assigner: Option<Principal>) returns (r: Result<()>)
      requires Valid()
      ensures r.Ok? <==> Permits(rule, Table(), scope, Elements(current), Elements(proposed), assignee, assigner)
    {
      match rule
      case CannotAddSelf(roles) => r := CheckCannotAddSelf(roles, current, proposed, assignee, assigner);
      case CannotRemoveSelf(roles) => r := CheckCannotRemoveSelf(roles, current, proposed, assignee, assigner);
      case CannotCombine(a, b) => r := CheckCannotCombine(a, b, proposed);
      case RequireAtLeast(role, min, kind) => r := CheckRequireAtLeast(role, min, kind, current, proposed, assignee,
                                                                       assigner);
      case MinMaxInstances(role, min, max, kind) =>
        r := CheckMinMaxInstances(role, min, max, kind, current, proposed, assignee, assigner);
      case OtherRule(role, accepts) =>
        var hits := HitsInScope(role);
        var c := Collect(current, "");
        var p := Collect(proposed, "");
        assert c == Elements(current) && p == Elements(proposed);
        r := if accepts((set h | h in hits), c, p, assignee, assigner) then Ok(()) else Err;
        assert Elements(hits) == set h | h in hits;
    }

    method CheckRequireAtLeast(role: RoleId, min: int, kind: Option<string>, current: seq<RoleId>,
                               proposed: seq<RoleId>,
                               assignee: Principal, ghost assigner: Option<Principal>) returns (r: Result<()>)
      requires Valid()
      ensures r.Ok? <==> Permits(RequireAtLeast(role, min, kind), Table(), scope, Elements(current), Elements(proposed),
                                 assignee, assigner)
    {
      var hits := HitsInScope(role);
      r := CheckMinimum(hits, role, min, kind, current, proposed, assignee, assigner, Table(), scope);
    }

    method CheckMinMaxInstances(role: RoleId, min: int, max: int, kind: Option<string>, ghost current: seq<RoleId>,
                                proposed: seq<RoleId>, assignee: Principal, ghost assigner: Option<Principal>)
      returns (r: Result<()>)
      requires Valid()
      ensures r.Ok? <==> Permits(MinMaxInstances(role, min, max, kind), Table(), scope, Elements(current),
                                 Elements(proposed), assignee, assigner)
    {
      var hits := HitsInScope(role);
      var ids: seq<string> := [];
      for i := 0 to |proposed|
        invariant ids == if role in Elements(proposed[..i]) then [assignee.id] else []
      {
        PrefixGrows(proposed, i);
        if proposed[i] == role {
          ids := [assignee.id];
        }
      }
      WholePrefix(proposed);
      var n := CountAmong(hits, ids);
      CountsAreHeld(Table(), role, scope, hits);
      r := CheckBounds(kind, min, max, n);
    }

    /** ValidateRemoval */
    method ValidateRemoval(rule: RemovalRule, users: seq<string>, groups: seq<string>) returns (r: Result<()>)
      requires Valid()
      ensures r.Ok? <==> PermitsRemoval(rule, Table(), scope, users, groups)
    {
      match rule
      case KeepAtLeast(role, _, kind) =>
        var hits := HitsInScope(role);
        var now := CountByKind(hits);
        var goingUsers := CountListed(hits, KIND_USER, users);
        var goingGroups := CountListed(hits, KIND_GROUP, groups);
        CountsAreHeld(Table(), role, scope, hits);
        r := Compare(kind, now, Tally(goingUsers, goingGroups, 0));
      case OtherRemovalRule(role, accepts) =>
        var hits := HitsInScope(role);
        r := if accepts((set h | h in hits), users, groups) then Ok(()) else Err;
        assert Elements(hits) == set h | h in hits;
    }

    /** canMakeAssignmentChange: what the rules are shown as proposed is exactly
        the desired set. */
    method CanMakeAssignmentChange(assignee: Principal, assigner: Option<Principal>, desired: seq<RoleId>)
      returns (r: Result<()>)
      requires Valid()
      ensures r.Ok? <==> Passes(Setup(), Table(), assignee, Elements(desired), assigner)
    {
      var current := CurrentRoles(assignee);
      if current.Err? {
        return Err;
      }
      var change := ComputeProposed(assignee, desired);
      if change.Err? {
        return Err;
      }
      var (add, remove) := change.value;
      var kept := KeepOthers(current.value, remove);
      var proposed := kept + add;
      assert Elements(proposed) == Elements(kept) + Elements(add);
      assert Elements(proposed) == Elements(desired);
      for i := 0 to |assignmentRules|
        invariant forall j :: 0 <= j < i ==>
          Permits(assignmentRules[j], Table(), scope, Elements(current.value), Elements(desired), assignee, assigner)
      {
        var verdict := Validate(assignmentRules[i], current.value, proposed, assignee, assigner);
        if verdict.Err? {
          return Err;
        }
      }
      r := Ok(());
    }

    method CanAddRoles(assignee: Principal, assigner: Option<Principal>, add: seq<RoleId>) returns (r: Result<()>)
      requires Valid()
      ensures r.Ok? <==> Passes(Setup(), Table(), assignee, RolesOf(Table(), assignee, scope) + Elements(add), assigner)
    {
      var current := CurrentRoles(assignee);
      if current.Err? {
        return Err;
      }
      assert Elements(current.value + add) == Elements(current.value) + Elements(add);
      r := CanMakeAssignmentChange(assignee, assigner, current.value + add);
    }

    method CanRemoveRoles(assignee: Principal, assigner: Option<Principal>, remove: seq<RoleId>) returns (r: Result<()>)
      requires Valid()
      ensures r.Ok? <==> Passes(Setup(), Table(), assignee, RolesOf(Table(), assignee, scope) - Elements(remove),
                                assigner)
    {
      var current := CurrentRoles(assignee);
      if current.Err? {
        return Err;
      }
      var desired := KeepOthers(current.value, remove);
      r := CanMakeAssignmentChange(assignee, assigner, desired);
    }

    method Bindings() returns (b: Bindings)
      ensures b == ScopeBindings(scope)
    {
      b := map[];
      if scope.team.Some? {
        b := b["team" := Str(scope.team.value)];
      }
      if scope.obj.Some? {
        b := b["id" := Str(scope.obj.value)];
      }
    }

    method AssignRole(p: Principal, role: RoleId) returns (r: Result<()>)
      requires Valid()
      modifies store.assignments, store.assignments.Buffers()
      ensures Valid() && fresh(store.assignments.Buffers() - old(store.assignments.Buffers()))
      ensures var done := Assign(old(Table()), p, role, Setup().known, ScopeBindings(scope));
        r.Ok? == done.Ok? && Table() == if done.Ok? then done.value else old(Table())
    {
      var b := Bindings();
      AppliesStayGood(Table(), AssignOp(p, role, Setup().known, b));
      StoreModel.WrittenAssign(store.View(), p, role, builtIns, b);
      r := store.AssignRole(p, role, builtIns, b);
    }

    method UnassignRole(p: Principal, role: RoleId, b: Bindings) returns (r: Result<()>)
      requires Valid()
      modifies store.assignments, store.assignments.Buffers()
      ensures Valid() && fresh(store.assignments.Buffers() - old(store.assignments.Buffers()))
      ensures var done := Unassign(old(Table()), p, role, b);
        r.Ok? == done.Ok? && Table() == if done.Ok? then done.value else old(Table())
    {
      AppliesStayGood(Table(), UnassignOp(p, role, b));
      StoreModel.WrittenUnassign(store.View(), p, role, b);
      r := store.UnassignRole(p, role, b);
    }

    method AddRoles(assignee: Principal, roles: seq<RoleId>, assigner: Option<Principal>) returns (r: Result<()>)
      requires Valid()
      modifies store.assignments, store.assignments.Buffers()
      ensures Valid() && fresh(store.assignments.Buffers() - old(store.assignments.Buffers()))
      ensures Table() == ManagerRules.AddRoles(Setup(), old(Table()), assignee, roles, assigner)
      ensures r.Ok? <==>
                && Passes(Setup(), old(Table()), assignee, RolesOf(old(Table()), assignee, scope) + Elements(roles),
                          assigner)
                && forall x :: x in roles ==> x != "" && x in Setup().known
    {
      var allowed := CanAddRoles(assignee, assigner, roles);
      if allowed.Err? {
        return Err;
      }
      r := AssignEach(assignee, roles, Setup().known);
    }

    method AssignEach(assignee: Principal, roles: seq<RoleId>, ghost known: set<RoleId>) returns (r: Result<()>)
      requires Valid() && known == Setup().known && ValidPrincipal(assignee)
      modifies store.assignments, store.assignments.Buffers()
      ensures Valid() && fresh(store.assignments.Buffers() - old(store.assignments.Buffers()))
      ensures Table() == AssignAll(old(Table()), assignee, roles, known, ScopeBindings(scope))
      ensures r.Ok? <==> forall x :: x in roles ==> x != "" && x in known
    {
      ghost var was, b := Table(), ScopeBindings(scope);
      StartAssigning(was, assignee, roles, known, b);
      for i := 0 to |roles|
        invariant Valid() && fresh(store.assignments.Buffers() - old(store.assignments.Buffers()))
        invariant Assigning(was, Table(), assignee, roles, i, known, b)
      {
        KeepAssigning(was, Table(), assignee, roles, i, known, b);
        r := AssignRole(assignee, roles[i]);
        if r.Err? {
          return Err;
        }
      }
      EndAssigning(was, Table(), assignee, roles, known, b);
      r := Ok(());
    }

    method RemoveRoles(assignee: Principal, roles: seq<RoleId>, assigner: Option<Principal>) returns (r: Result<()>)
      requires Valid()
      modifies store.assignments, store.assignments.Buffers()
      ensures Valid() && fresh(store.assignments.Buffers() - old(store.assignments.Buffers()))
      ensures Table() == ManagerRules.RemoveRoles(Setup(), old(Table()), assignee, roles, assigner)
      ensures r.Ok? <==> RemovalSucceeds(Setup(), old(Table()), assignee, roles, assigner)
    {
      var allowed := CanRemoveRoles(assignee, assigner, roles);
      if allowed.Err? {
        return Err;
      }
      r := UnassignEach(assignee, roles);
    }

    method UnassignEach(assignee: Principal, roles: seq<RoleId>) returns (r: Result<()>)
      requires Valid() && ValidPrincipal(assignee)
      modifies store.assignments, store.assignments.Buffers()
      ensures Valid() && fresh(store.assignments.Buffers() - old(store.assignments.Buffers()))
      ensures Table() == UnassignAll(old(Table()), assignee, roles, ScopeBindings(scope))
      ensures r.Ok? <==> AllHeldOnce(old(Table()), assignee, roles, ScopeBindings(scope))
    {
      var b := Bindings();
      ghost var was := Table();
      StartRemoving(was, assignee, roles, b);
      for i := 0 to |roles|
        invariant Valid() && fresh(store.assignments.Buffers() - old(store.assignments.Buffers()))
        invariant Removing(was, Table(), assignee, roles, i, b)
      {
        KeepRemoving(was, Table(), assignee, roles, i, b);
        r := UnassignRole(assignee, roles[i], b);
        if r.Err? {
          return Err;
        }
      }
      EndRemoving(was, Table(), assignee, roles, b);
      r := Ok(());
    }

    method CanRemoveBulkUsers(users: seq<string>, groups: seq<string>) returns (r: Result<()>)
      requires Valid()
      ensures r.Ok? <==> MayRemoveBulk(Setup(), Table(), users, groups)
    {
      for i := 0 to |removeRules|
        invariant forall j :: 0 <= j < i ==> PermitsRemoval(removeRules[j], Table(), scope, users, groups)
      {
        var verdict := ValidateRemoval(removeRules[i], users, groups);
        if verdict.Err? {
          return Err;
        }
      }
      r := Ok(());
    }

    /** One of the two loops of RemoveBulkUsers; `stopped` when it returns early. */
    method RemoveFromEach(kind: string, ids: seq<string>, assigner: Option<Principal>)
      returns (stopped: bool, refused: bool)
      requires Valid() && ValidKind(kind)
      modifies store.assignments, store.assignments.Buffers()
      ensures Valid() && fresh(store.assignments.Buffers() - old(store.assignments.Buffers()))
      ensures Table() == ManagerRules.RemoveFromEach(Setup(), old(Table()), kind, ids, assigner)
      ensures stopped <==> "" in ids
      ensures !stopped && !refused <==> EachSucceeds(Setup(), old(Table()), kind, ids, assigner)
    {
      stopped, refused := false, false;
      ghost var m := Setup();
      ghost var goal := ManagerRules.RemoveFromEach(m, Table(), kind, ids, assigner);
      ghost var success := EachSucceeds(m, Table(), kind, ids, assigner);
      for i := 0 to |ids|
        invariant Valid() && fresh(store.assignments.Buffers() - old(store.assignments.Buffers()))
        invariant Setup() == m && "" !in ids[..i]
        invariant ManagerRules.RemoveFromEach(m, Table(), kind, ids[i..], assigner) == goal
        invariant success <==> !refused && EachSucceeds(m, Table(), kind, ids[i..], assigner)
      {
        NextOfEach(m, Table(), kind, ids, i, assigner);
        PrefixGrows(ids, i);
        var read, r := RemoveAllFrom(Principal(kind, ids[i]), assigner);
        if !read {
          return true, refused;
        }
        refused := refused || r.Err?;
      }
      WholePrefix(ids);
    }

    /** The body of those loops. */
    method RemoveAllFrom(p: Principal, assigner: Option<Principal>) returns (read: bool, r: Result<()>)
      requires Valid() && ValidKind(p.kind)
      modifies store.assignments, store.assignments.Buffers()
      ensures Valid() && fresh(store.assignments.Buffers() - old(store.assignments.Buffers()))
      ensures read <==> p.id != ""
      ensures Table() == OneOfEach(Setup(), old(Table()), p, assigner)
      ensures read && r.Ok? <==> OneSucceeds(Setup(), old(Table()), p, assigner)
    {
      var roles := CurrentRoles(p);
      if roles.Err? {
        return false, Err;
      }
      r := RemoveRoles(p, roles.value, assigner);
      read := true;
    }

    method RemoveBulkUsers(users: seq<string>, groups: seq<string>, assigner: Option<Principal>) returns (r: Result<()>)
      requires Valid()
      modifies store.assignments, store.assignments.Buffers()
      ensures Valid() && fresh(store.assignments.Buffers() - old(store.assignments.Buffers()))
      ensures Table() == ManagerRules.RemoveBulkUsers(Setup(), old(Table()), users, groups, assigner)
      ensures r.Ok? <==> BulkSucceeds(Setup(), old(Table()), users, groups, assigner)
    {
      var allowed := CanRemoveBulkUsers(users, groups);
      if allowed.Err? {
        return Err;
      }
      var stopped, refused := RemoveFromEach(KIND_USER, users, assigner);
      if stopped {
        return Err;
      }
      var stoppedToo, refusedToo := RemoveFromEach(KIND_GROUP, groups, assigner);
      r := if stoppedToo || refused || refusedToo then Err else Ok(());
    }

    // --- cleanups ---------------------------------------------------------------------

    method CleanupTeamRoleAssignments(teamId: string) returns (r: Result<()>)
      requires Valid()
      modifies store.assignments, store.assignments.Buffers()
      ensures Valid() && fresh(store.assignments.Buffers() - old(store.assignments.Buffers()))
      ensures r.Ok? <==> teamId != ""
      ensures r.Err? ==> Table() == old(Table())
      ensures var team := Principal(KIND_TEAM, teamId);
        r.Ok? ==> Cleaning(old(Table()), Table(), team, managedRoles, |Listing(old(Table()), team)|)
    {
      var team := Principal(KIND_TEAM, teamId);
      var listed := store.assignments.RoleAssignmentsForPrincipal(team);
      if listed.Err? {
        return Err;
      }
      var list := listed.value;
      var failed := false;
      ghost var was := Table();
      StartCleaning(was, team, managedRoles);
      for i := 0 to |list|
        invariant Valid() && fresh(store.assignments.Buffers() - old(store.assignments.Buffers()))
        invariant Cleaning(was, Table(), team, managedRoles, i) && !failed
      {
        if list[i].role !in managedRoles {
          KeepCleaning(was, Table(), team, managedRoles, i);
          continue;
        }
        var done := CleanOne(was, team, i, list[i]);
        failed := failed || done.Err?;
      }
      r := if failed then Err else Ok(());
    }

    method CleanOne(ghost was: Table, team: Principal, ghost i: nat, a: RoleAssignment) returns (r: Result<()>)
      requires Valid() && ValidPrincipal(team) && Cleaning(was, Table(), team, managedRoles, i)
      requires i < |Listing(was, team)| && a == Listing(was, team)[i] && a.role in managedRoles
      modifies store.assignments, store.assignments.Buffers()
      ensures Valid() && fresh(store.assignments.Buffers() - old(store.assignments.Buffers()))
      ensures r.Ok? && Cleaning(was, Table(), team, managedRoles, i + 1)
    {
      KeepCleaning(was, Table(), team, managedRoles, i);
      r := UnassignRole(team, a.role, a.bindings);
    }

    method CleanupAllRoleAssignments() returns (r: Result<()>)
      requires Valid()
      modifies store.assignments, store.assignments.Buffers()
      ensures Valid() && fresh(store.assignments.Buffers() - old(store.assignments.Buffers()))
      ensures Swept(old(Table()), Table(), managedRoles, |managedRoles|, scope, r.Ok?)
    {
      var ok := true;
      ghost var was := Table();
      for i := 0 to |managedRoles|
        invariant Valid() && fresh(store.assignments.Buffers() - old(store.assignments.Buffers()))
        invariant Swept(was, Table(), managedRoles, i, scope, ok)
      {
        ok := SweepRole(was, i, ok);
      }
      r := if ok then Ok(()) else Err;
    }

    method SweepRole(ghost was: Table, i: nat, ok: bool) returns (stillOk: bool)
      requires Valid() && Swept(was, Table(), managedRoles, i, scope, ok) && i < |managedRoles|
      modifies store.assignments, store.assignments.Buffers()
      ensures Valid() && fresh(store.assignments.Buffers() - old(store.assignments.Buffers()))
      ensures Swept(was, Table(), managedRoles, i + 1, scope, stillOk)
    {
      ghost var before := Table();
      var okHere := CleanupRole(managedRoles[i]);
      KeepSwept(was, before, Table(), managedRoles, i, scope, ok, okHere);
      stillOk := ok && okHere;
    }

    method CleanupRole(role: RoleId) returns (ok: bool)
      requires Valid()
      modifies store.assignments, store.assignments.Buffers()
      ensures Valid() && fresh(store.assignments.Buffers() - old(store.assignments.Buffers()))
      ensures Lost(old(Table()), Table(), Exact({role}, role, {}, ScopeBindings(scope)))
      ensures ok <==> AllExact(old(Table()), role, scope)
    {
      var b := Bindings();
      var hits := HitsInScope(role);
      ghost var was := Table();
      StartSweeping(was, role, hits, scope);
      ok := SweepHits(role, hits, b);
      EndSweeping(was, Table(), role, hits, scope, ok);
    }

    method SweepHits(role: RoleId, hits: seq<AssignmentHit>, b: Bindings) returns (ok: bool)
      requires Valid() && Sweeping(Table(), Table(), role, hits, 0, b, true)
      modifies store.assignments, store.assignments.Buffers()
      ensures Valid() && fresh(store.assignments.Buffers() - old(store.assignments.Buffers()))
      ensures Sweeping(old(Table()), Table(), role, hits, |hits|, b, ok)
    {
      ok := true;
      ghost var was := Table();
      for i := 0 to |hits|
        invariant Valid() && fresh(store.assignments.Buffers() - old(store.assignments.Buffers()))
        invariant Sweeping(was, Table(), role, hits, i, b, ok)
      {
        ok := SweepHit(was, role, hits, i, b, ok);
      }
    }

    method SweepHit(ghost was: Table, role: RoleId, hits: seq<AssignmentHit>, i: nat, b: Bindings, ok: bool)
      returns (stillOk: bool)
      requires Valid() && Sweeping(was, Table(), role, hits, i, b, ok) && i < |hits|
      modifies store.assignments, store.assignments.Buffers()
      ensures Valid() && fresh(store.assignments.Buffers() - old(store.assignments.Buffers()))
      ensures Sweeping(was, Table(), role, hits, i + 1, b, stillOk)
    {
      KeepSweeping(was, Table(), role, hits, i, b, ok);
      var done := UnassignRole(hits[i].holder, role, b);
      stillOk := ok && done.Ok?;
    }
  }

  ghost function OneOfEach(m: Manager, t: Table, p: Principal, assigner: Option<Principal>): Table {
    if p.id == "" then t else ManagerRules.RemoveRoles(m, t, p, ScopedRoles(Listing(t, p), m.scope), assigner)
  }

  ghost predicate OneSucceeds(m: Manager, t: Table, p: Principal, assigner: Option<Principal>) {
    p.id != "" && RemovalSucceeds(m, t, p, ScopedRoles(Listing(t, p), m.scope), assigner)
  }

  lemma NextOfEach(m: Manager, t: Table, kind: string, ids: seq<string>, i: nat, assigner: Option<Principal>)
    requires i < |ids|
    ensures ManagerRules.RemoveFromEach(m, t, kind, ids[i..], assigner)
         == if ids[i] == "" then t
            else ManagerRules.RemoveFromEach(m, OneOfEach(m, t, Principal(kind, ids[i]), assigner), kind, ids[i + 1..],
                                             assigner)
    ensures ids[i] == "" ==> OneOfEach(m, t, Principal(kind, ids[i]), assigner) == t
    ensures EachSucceeds(m, t, kind, ids[i..], assigner) <==>
              var p := Principal(kind, ids[i]);
              OneSucceeds(m, t, p, assigner)
              && EachSucceeds(m, OneOfEach(m, t, p, assigner), kind, ids[i + 1..], assigner)
  {
    assert ids[i..][1..] == ids[i + 1..];
  }

  /** Between two assignments of AddRoles. */
  ghost predicate Assigning(t: Table, u: Table, p: Principal, roles: seq<RoleId>, i: nat, known: set<RoleId>,
                            b: Bindings) {
    && i <= |roles|
    && AssignAll(u, p, roles[i..], known, b) == AssignAll(t, p, roles, known, b)
    && forall x :: x in roles[..i] ==> x != "" && x in known
  }

  lemma StartAssigning(t: Table, p: Principal, roles: seq<RoleId>, known: set<RoleId>, b: Bindings)
    ensures Assigning(t, t, p, roles, 0, known, b)
  {
    assert roles[0..] == roles;
  }

  lemma KeepAssigning(t: Table, u: Table, p: Principal, roles: seq<RoleId>, i: nat, known: set<RoleId>, b: Bindings)
    requires Assigning(t, u, p, roles, i, known, b) && i < |roles| && ValidPrincipal(p)
    ensures var done := Assign(u, p, roles[i], known, b);
      if done.Ok? then Assigning(t, done.value, p, roles, i + 1, known, b)
      else u == AssignAll(t, p, roles, known, b) && exists x :: x in roles && (x == "" || x !in known)
  {
    assert roles[i..][1..] == roles[i + 1..];
    PrefixGrows(roles, i);
    assert roles[i] in roles;
  }

  lemma EndAssigning(t: Table, u: Table, p: Principal, roles: seq<RoleId>, known: set<RoleId>, b: Bindings)
    requires Assigning(t, u, p, roles, |roles|, known, b)
    ensures u == AssignAll(t, p, roles, known, b) && forall x :: x in roles ==> x != "" && x in known
  {
    WholePrefix(roles);
  }

  /** RequireAtLeastRule.ValidateAssignment, from the in-scope hits on. */
  method CheckMinimum(hits: seq<AssignmentHit>, role: RoleId, ghost min: int, kind: Option<string>,
                      current: seq<RoleId>, proposed: seq<RoleId>, assignee: Principal,
                      ghost assigner: Option<Principal>, ghost t: Table, ghost sc: Scope) returns (r: Result<()>)
    requires NoDuplicates(hits) && Elements(hits) == Holders(t, role, sc, None)
    ensures r.Ok? <==> Permits(RequireAtLeast(role, min, kind), t, sc, Elements(current), Elements(proposed), assignee,
                               assigner)
  {
    var now := CountByKind(hits);
    var adding, removing := DiffRoleAssignments(current, proposed, role);
    now := CountMore(now, assignee, adding);
    var going := CountMore(Tally(0, 0, 0), assignee, removing);
    MinimumDecided(t, sc, role, min, kind, hits, Elements(current), Elements(proposed), assignee, assigner,
                   |adding|, |removing|, now, going);
    r := Compare(kind, now, going);
  }

  /** The tests both RequireAtLeast checks end with. */
  method Compare(kind: Option<string>, now: Tally, going: Tally) returns (r: Result<()>)
    ensures r.Ok? <==> LeavesSome(kind, (now.users, going.users), (now.groups, going.groups), (now.teams, going.teams))
  {
    if kind.Some? {
      if kind.value == KIND_USER && now.users == going.users {
        return Err;
      }
      if kind.value == KIND_GROUP && now.groups == going.groups {
        return Err;
      }
      if kind.value == KIND_TEAM && now.teams == going.teams {
        return Err;
      }
      return Ok(());
    }
    if now.groups == going.groups && now.users == going.users && now.teams == going.teams {
      return Err;
    }
    r := Ok(());
  }
}
