// A role assignment manager changes what is bound exactly to its own scope, so
// managers of different objects or teams leave each other's holders alone.
module ScopeIsolation {
  import opened Types
  import opened Collections
  import opened Assignments
  import opened ManagerRules

  /** Everything bound otherwise than b is where it was. */
  ghost predicate OthersStay(t: Table, u: Table, b: Bindings) {
    forall q: Principal, x: RoleAssignment ::
      ValidKind(q.kind) && x.bindings != b ==> (x in Listing(u, q) <==> x in Listing(t, q))
  }

  lemma GrownLeavesOthers(t: Table, u: Table, p: Principal, roles: seq<RoleId>, b: Bindings)
    requires Grown(t, u, p, roles, b)
    ensures OthersStay(t, u, b) && OthersStay(u, t, b)
  {
    forall q: Principal, x: RoleAssignment | ValidKind(q.kind) && x.bindings != b
      ensures x in Listing(u, q) <==> x in Listing(t, q)
    {
      if q != p {
        assert Listing(u, q) == Listing(t, q);
      }
    }
  }

  lemma {:induction false} EachLeavesOthers(m: Manager, t: Table, kind: string, ids: seq<string>,
                                            assigner: Option<Principal>)
    requires Good(t)
    ensures var u := RemoveFromEach(m, t, kind, ids, assigner);
      Good(u) && OthersStay(t, u, ScopeBindings(m.scope))
    decreases |ids|
  {
    if ids != [] && ids[0] != "" {
      var p := Principal(kind, ids[0]);
      var roles := ScopedRoles(Listing(t, p), m.scope);
      var t1 := RemoveRoles(m, t, p, roles, assigner);
      RemoveShrinks(m, t, p, roles, assigner);
      GrownLeavesOthers(t1, t, p, roles, ScopeBindings(m.scope));
      EachLeavesOthers(m, t1, kind, ids[1..], assigner);
    }
  }

  lemma ChangeLeavesOthers(m: Manager, t: Table, c: Change)
    requires Good(t)
    ensures OthersStay(t, Changed(m, t, c), ScopeBindings(m.scope))
  {
    match c
    case Add(p, roles, assigner) =>
      AddGrows(m, t, p, roles, assigner);
      GrownLeavesOthers(t, AddRoles(m, t, p, roles, assigner), p, roles, ScopeBindings(m.scope));
    case Remove(p, roles, assigner) =>
      RemoveShrinks(m, t, p, roles, assigner);
      GrownLeavesOthers(RemoveRoles(m, t, p, roles, assigner), t, p, roles, ScopeBindings(m.scope));
    case RemoveBulk(users, groups, assigner) =>
      EachLeavesOthers(m, t, KIND_USER, users, assigner);
      EachLeavesOthers(m, RemoveFromEach(m, t, KIND_USER, users, assigner), KIND_GROUP, groups, assigner);
  }

  /** Over every run only what is bound exactly to the scope comes or goes. */
  lemma {:induction false} RunLeavesOthers(m: Manager, t: Table, cs: seq<Change>)
    requires Good(t)
    ensures OthersStay(t, RunChanges(m, t, cs), ScopeBindings(m.scope))
  {
    if cs != [] {
      RunLeavesOthers(m, t, cs[..|cs| - 1]);
      RunsStayGood(m, t, cs[..|cs| - 1]);
      ChangeLeavesOthers(m, RunChanges(m, t, cs[..|cs| - 1]), cs[|cs| - 1]);
    }
  }

  /** Each names a value of its own for the same thing, and the other's is not the
      wildcard. */
  predicate Apart(mine: Option<string>, other: Option<string>) {
    mine.Some? && other.Some? && other.value != "*" && other.value != mine.value
  }

  /** Over every run, who holds what in the scope of another object, or of
      another team, never changes. */
  lemma OtherScopesAreLeftAlone(m: Manager, t: Table, cs: seq<Change>, q: Principal, other: Scope)
    requires Good(t) && ValidKind(q.kind)
    requires Apart(m.scope.obj, other.obj) || Apart(m.scope.team, other.team)
    ensures RolesOf(RunChanges(m, t, cs), q, other) == RolesOf(t, q, other)
  {
    var u, b := RunChanges(m, t, cs), ScopeBindings(m.scope);
    RunLeavesOthers(m, t, cs);
    InScopeExactly(b, m.scope);
    InScopeExactly(b, other);
    assert !InScope(b, other) by {
      assert Apart(m.scope.obj, other.obj) ==> b["id"] != ScopeBindings(other)["id"];
      assert Apart(m.scope.team, other.team) ==> b["team"] != ScopeBindings(other)["team"];
    }
    forall x: RoleAssignment | InScope(x.bindings, other)
      ensures x in Listing(u, q) <==> x in Listing(t, q)
    {
    }
  }
}
