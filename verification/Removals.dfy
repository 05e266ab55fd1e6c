// What series of unassignments take from a table, and the two cleanups of the
// role assignment manager (role_assignment_manager.go:287-342).
module Removals {
  import opened Types
  import opened Collections
  import opened Assignments
  import opened ManagerRules
  import opened Slices

  /** u is t less the assignments for which `gone` holds. */
  ghost predicate Lost(t: Table, u: Table, gone: (Principal, RoleAssignment) -> bool) {
    Good(u) && forall q: Principal, x: RoleAssignment ::
      ValidKind(q.kind) ==> (x in Listing(u, q) <==> x in Listing(t, q) && !gone(q, x))
  }

  lemma UnassignTakes(t: Table, p: Principal, a: RoleAssignment)
    requires Good(t) && ValidKind(p.kind)
    ensures Unassign(t, p, a.role, a.bindings).Ok? <==> a in Listing(t, p)
    ensures Lost(t, Apply(t, UnassignOp(p, a.role, a.bindings)), (q, x) => q == p && x == a)
  {
    AppliesStayGood(t, UnassignOp(p, a.role, a.bindings));
    KeyRoundTrip(p);
    forall q: Principal, x: RoleAssignment | ValidKind(q.kind)
      ensures x in Listing(Apply(t, UnassignOp(p, a.role, a.bindings)), q)
         <==> x in Listing(t, q) && !(q == p && x == a)
    {
      KeysAreInjective(p, q);
      WithoutMembers(Listing(t, p), a, x);
    }
  }

  lemma LostAgain(t: Table, u: Table, v: Table, first: (Principal, RoleAssignment) -> bool,
                  second: (Principal, RoleAssignment) -> bool, both: (Principal, RoleAssignment) -> bool)
    requires Lost(t, u, first) && Lost(u, v, second)
    requires forall q: Principal, x: RoleAssignment :: both(q, x) <==> first(q, x) || second(q, x)
    ensures Lost(t, v, both)
  {
  }

  // --- removing roles one by one -----------------------------------------------------

  function Bound(p: Principal, roles: set<RoleId>, b: Bindings): (Principal, RoleAssignment) -> bool {
    (q: Principal, x: RoleAssignment) => q == p && x.role in roles && x.bindings == b
  }

  lemma OneMoreRole(t: Table, u: Table, p: Principal, roles: seq<RoleId>, i: nat, b: Bindings)
    requires i < |roles| && ValidKind(p.kind) && Good(u) && Lost(t, u, Bound(p, Elements(roles[..i]), b))
    ensures var done := Unassign(u, p, roles[i], b);
      && (done.Ok? <==> RoleAssignment(roles[i], b) in Listing(t, p) && roles[i] !in roles[..i])
      && Lost(t, Apply(u, UnassignOp(p, roles[i], b)), Bound(p, Elements(roles[..i + 1]), b))
  {
    var a := RoleAssignment(roles[i], b);
    UnassignTakes(u, p, a);
    PrefixGrows(roles, i);
    LostAgain(t, u, Apply(u, UnassignOp(p, roles[i], b)), Bound(p, Elements(roles[..i]), b),
              (q, x) => q == p && x == a, Bound(p, Elements(roles[..i + 1]), b));
  }

  /** All removals succeed: each is of an assignment held, and of another one. */
  ghost predicate AllHeldOnce(t: Table, p: Principal, roles: seq<RoleId>, b: Bindings) {
    NoDuplicates(roles) && forall r :: r in roles ==> RoleAssignment(r, b) in Listing(t, p)
  }

  /** Between two removals of RemoveRoles. */
  ghost predicate Removing(t: Table, u: Table, p: Principal, roles: seq<RoleId>, i: nat, b: Bindings) {
    && i <= |roles|
    && Good(t) && Lost(t, u, Bound(p, Elements(roles[..i]), b))
    && AllHeldOnce(t, p, roles[..i], b)
    && UnassignAll(u, p, roles[i..], b) == UnassignAll(t, p, roles, b)
  }

  lemma StartRemoving(t: Table, p: Principal, roles: seq<RoleId>, b: Bindings)
    requires Good(t)
    ensures Removing(t, t, p, roles, 0, b)
  {
    assert roles[0..] == roles && Elements(roles[..0]) == {};
  }

  lemma KeepRemoving(t: Table, u: Table, p: Principal, roles: seq<RoleId>, i: nat, b: Bindings)
    requires Removing(t, u, p, roles, i, b) && i < |roles| && ValidPrincipal(p)
    ensures var done := Unassign(u, p, roles[i], b);
      if done.Ok? then Removing(t, done.value, p, roles, i + 1, b)
      else u == UnassignAll(t, p, roles, b) && !AllHeldOnce(t, p, roles, b)
  {
    OneMoreRole(t, u, p, roles, i, b);
    PrefixGrows(roles, i);
    AppendNew(roles[..i], roles[i]);
    assert roles[i..][1..] == roles[i + 1..];
    assert roles[i] in roles;
    if roles[i] in roles[..i] {
      var j :| 0 <= j < i && roles[j] == roles[i];
    }
  }

  lemma EndRemoving(t: Table, u: Table, p: Principal, roles: seq<RoleId>, b: Bindings)
    requires Removing(t, u, p, roles, |roles|, b)
    ensures u == UnassignAll(t, p, roles, b) && AllHeldOnce(t, p, roles, b)
  {
    WholePrefix(roles);
  }

  /** RemoveRoles reports success. */
  ghost predicate RemovalSucceeds(m: Manager, t: Table, p: Principal, roles: seq<RoleId>, assigner: Option<Principal>) {
    && Passes(m, t, p, RolesOf(t, p, m.scope) - Elements(roles), assigner)
    && AllHeldOnce(t, p, roles, ScopeBindings(m.scope))
  }

  /** One of the two loops of RemoveBulkUsers meets no refusal and no unreadable
      principal. */
  ghost predicate EachSucceeds(m: Manager, t: Table, kind: string, ids: seq<string>, assigner: Option<Principal>)
    decreases |ids|
  {
    ids == [] ||
    (ids[0] != "" &&
     var p := Principal(kind, ids[0]);
     var roles := ScopedRoles(Listing(t, p), m.scope);
     RemovalSucceeds(m, t, p, roles, assigner)
     && EachSucceeds(m, RemoveRoles(m, t, p, roles, assigner), kind, ids[1..], assigner))
  }

  // --- what a successful bulk removal leaves ---------------------------------------------

  ghost function RolesIn(list: seq<RoleAssignment>, sc: Scope): set<RoleId> {
    set a | a in list && InScope(a.bindings, sc) :: a.role
  }

  lemma {:induction false} ScopedElements(list: seq<RoleAssignment>, sc: Scope)
    ensures Elements(ScopedRoles(list, sc)) == RolesIn(list, sc)
  {
    if list != [] {
      var front, last := list[..|list| - 1], list[|list| - 1];
      assert list == front + [last];
      ScopedElements(front, sc);
      AppendNew(ScopedRoles(front, sc), last.role);
      RolesInGrows(front, last, sc);
      assert ScopedRoles(front, sc) + [] == ScopedRoles(front, sc);
    }
  }

  lemma RolesInGrows(list: seq<RoleAssignment>, last: RoleAssignment, sc: Scope)
    ensures RolesIn(list + [last], sc) == RolesIn(list, sc) + if InScope(last.bindings, sc) then {last.role} else {}
  {
    var more := if InScope(last.bindings, sc) then {last.role} else {};
    forall r | r in RolesIn(list, sc) + more
      ensures r in RolesIn(list + [last], sc)
    {
      if r in RolesIn(list, sc) {
        var a :| a in list && InScope(a.bindings, sc) && a.role == r;
        assert a in list + [last];
      } else {
        assert last in list + [last];
      }
    }
  }

  /** If each role is listed once, no role is held twice in scope. */
  lemma {:induction false} ListedOnceHeldOnce(list: seq<RoleAssignment>, sc: Scope, a: RoleAssignment,
                                              c: RoleAssignment)
    requires NoDuplicates(ScopedRoles(list, sc)) && a in list && c in list
    requires InScope(a.bindings, sc) && InScope(c.bindings, sc) && a.role == c.role
    ensures a == c
  {
    var front, last := list[..|list| - 1], list[|list| - 1];
    var before := ScopedRoles(front, sc);
    assert list == front + [last];
    assert before <= ScopedRoles(list, sc);
    ScopedElements(front, sc);
    forall x | x in front && InScope(x.bindings, sc) && InScope(last.bindings, sc)
      ensures x.role != last.role
    {
      assert x.role in Elements(before);
      var i :| 0 <= i < |before| && before[i] == x.role;
      assert ScopedRoles(list, sc)[|before|] == last.role;
    }
    if a in front && c in front {
      ListedOnceHeldOnce(front, sc, a, c);
    }
  }

  lemma {:induction false} AllAreRemoved(t: Table, u: Table, p: Principal, roles: seq<RoleId>, i: nat, b: Bindings)
    requires Removing(t, u, p, roles, i, b) && AllHeldOnce(t, p, roles, b) && ValidPrincipal(p)
    ensures Lost(t, UnassignAll(t, p, roles, b), Bound(p, Elements(roles), b))
    decreases |roles| - i
  {
    if i == |roles| {
      WholePrefix(roles);
    } else {
      KeepRemoving(t, u, p, roles, i, b);
      AllAreRemoved(t, Unassign(u, p, roles[i], b).value, p, roles, i + 1, b);
    }
  }

  /** A removal of everything that succeeds leaves nothing in scope. */
  lemma SuccessLeavesNone(m: Manager, t: Table, p: Principal, assigner: Option<Principal>)
    requires Good(t) && ValidPrincipal(p)
    requires RemovalSucceeds(m, t, p, ScopedRoles(Listing(t, p), m.scope), assigner)
    ensures RolesOf(RemoveRoles(m, t, p, ScopedRoles(Listing(t, p), m.scope), assigner), p, m.scope) == {}
  {
    var roles, b := ScopedRoles(Listing(t, p), m.scope), ScopeBindings(m.scope);
    StartRemoving(t, p, roles, b);
    AllAreRemoved(t, t, p, roles, 0, b);
    ScopedElements(Listing(t, p), m.scope);
    ManagedIsInScope(m.scope);
    forall x | x in Listing(t, p) && InScope(x.bindings, m.scope)
      ensures Bound(p, Elements(roles), b)(p, x)
    {
      assert x.role in Elements(roles);
      ListedOnceHeldOnce(Listing(t, p), m.scope, x, RoleAssignment(x.role, b));
    }
  }

  lemma {:induction false} EachLeavesNone(m: Manager, t: Table, kind: string, ids: seq<string>,
                                          assigner: Option<Principal>,
                                          id: string)
    requires Good(t) && ValidKind(kind) && EachSucceeds(m, t, kind, ids, assigner) && id in ids
    ensures RolesOf(RemoveFromEach(m, t, kind, ids, assigner), Principal(kind, id), m.scope) == {}
    decreases |ids|
  {
    var p, q := Principal(kind, ids[0]), Principal(kind, id);
    var roles := ScopedRoles(Listing(t, p), m.scope);
    var t1 := RemoveRoles(m, t, p, roles, assigner);
    RemoveShrinks(m, t, p, roles, assigner);
    if id in ids[1..] {
      EachLeavesNone(m, t1, kind, ids[1..], assigner, id);
    } else {
      assert q == p;
      SuccessLeavesNone(m, t, p, assigner);
      EachOnlyTakes(m, t1, kind, ids[1..], assigner, q);
    }
  }

  /** RemoveBulkUsers reports success. */
  ghost predicate BulkSucceeds(m: Manager, t: Table, users: seq<string>, groups: seq<string>,
                               assigner: Option<Principal>) {
    && MayRemoveBulk(m, t, users, groups)
    && EachSucceeds(m, t, KIND_USER, users, assigner)
    && EachSucceeds(m, RemoveFromEach(m, t, KIND_USER, users, assigner), KIND_GROUP, groups, assigner)
  }

  /** Reported success is real: none of the listed users and groups holds any
      role in scope any more. */
  lemma BulkSuccessLeavesNone(m: Manager, t: Table, users: seq<string>, groups: seq<string>,
                              assigner: Option<Principal>,
                              p: Principal)
    requires Good(t) && BulkSucceeds(m, t, users, groups, assigner)
    requires (p.kind == KIND_USER && p.id in users) || (p.kind == KIND_GROUP && p.id in groups)
    ensures RolesOf(RemoveBulkUsers(m, t, users, groups, assigner), p, m.scope) == {}
  {
    var t1 := RemoveFromEach(m, t, KIND_USER, users, assigner);
    SuccessReadsAll(m, t, KIND_USER, users, assigner);
    EachOnlyTakes(m, t, KIND_USER, users, assigner, p);
    EachOnlyTakes(m, t1, KIND_GROUP, groups, assigner, p);
    if p.kind == KIND_USER && p.id in users {
      EachLeavesNone(m, t, KIND_USER, users, assigner, p.id);
    } else {
      EachLeavesNone(m, t1, KIND_GROUP, groups, assigner, p.id);
    }
  }

  lemma {:induction false} SuccessReadsAll(m: Manager, t: Table, kind: string, ids: seq<string>,
                                           assigner: Option<Principal>)
    requires EachSucceeds(m, t, kind, ids, assigner)
    ensures "" !in ids
    decreases |ids|
  {
    if ids != [] {
      var p := Principal(kind, ids[0]);
      SuccessReadsAll(m, RemoveRoles(m, t, p, ScopedRoles(Listing(t, p), m.scope), assigner), kind, ids[1..], assigner);
      PopFront(ids);
    }
  }

  // --- cleaning up after a team ------------------------------------------------------

  function ManagedBy(p: Principal, managed: seq<RoleId>, done: seq<RoleAssignment>)
    : (Principal, RoleAssignment) -> bool
  {
    (q: Principal, x: RoleAssignment) => q == p && x in done && x.role in managed
  }

  /** Between two steps of CleanupTeamRoleAssignments. */
  ghost predicate Cleaning(t: Table, u: Table, team: Principal, managed: seq<RoleId>, i: nat) {
    && Good(t) && i <= |Listing(t, team)|
    && Lost(t, u, ManagedBy(team, managed, Listing(t, team)[..i]))
  }

  lemma StartCleaning(t: Table, team: Principal, managed: seq<RoleId>)
    requires Good(t)
    ensures Cleaning(t, t, team, managed, 0)
  {
  }

  lemma KeepCleaning(t: Table, u: Table, team: Principal, managed: seq<RoleId>, i: nat)
    requires Cleaning(t, u, team, managed, i) && i < |Listing(t, team)| && ValidPrincipal(team)
    ensures var a := Listing(t, team)[i];
      if a.role in managed
      then Unassign(u, team, a.role, a.bindings).Ok?
           && Cleaning(t, Apply(u, UnassignOp(team, a.role, a.bindings)), team, managed, i + 1)
      else Cleaning(t, u, team, managed, i + 1)
  {
    var list := Listing(t, team);
    var a := list[i];
    PrefixGrows(list, i);
    var before, after := ManagedBy(team, managed, list[..i]), ManagedBy(team, managed, list[..i + 1]);
    if a.role in managed {
      DistinctIsNew(list, i);
      UnassignTakes(u, team, a);
      LostAgain(t, u, Apply(u, UnassignOp(team, a.role, a.bindings)), before, (q, x) => q == team && x == a, after);
    } else {
      forall q: Principal, x: RoleAssignment
        ensures before(q, x) == after(q, x)
      {
      }
    }
  }

  /** Afterwards the team holds none of the managed roles; nobody else's
      assignments change, whatever team they are bound to. */
  lemma TeamIsCleaned(t: Table, u: Table, team: Principal, managed: seq<RoleId>, q: Principal, a: RoleAssignment)
    requires Cleaning(t, u, team, managed, |Listing(t, team)|) && ValidKind(q.kind)
    ensures a in Listing(u, q) <==> a in Listing(t, q) && !(q == team && a.role in managed)
  {
    WholePrefix(Listing(t, team));
  }

  // --- cleaning up after an object -----------------------------------------------------

  /** Some holders of a role, and all holders of others, have lost what is bound
      exactly to the scope. */
  function Exact(roles: set<RoleId>, role: RoleId, visited: set<Principal>, b: Bindings)
    : (Principal, RoleAssignment) -> bool
  {
    (q: Principal, x: RoleAssignment) => x.bindings == b && (x.role in roles || (x.role == role && q in visited))
  }

  lemma OneMoreHit(t: Table, u: Table, roles: set<RoleId>, role: RoleId, visited: set<Principal>, p: Principal,
                   b: Bindings)
    requires Lost(t, u, Exact(roles, role, visited, b)) && ValidKind(p.kind)
    ensures Lost(t, Apply(u, UnassignOp(p, role, b)), Exact(roles, role, visited + {p}, b))
    ensures Unassign(u, p, role, b).Ok? <==>
              RoleAssignment(role, b) in Listing(t, p) && p !in visited && role !in roles
  {
    var a := RoleAssignment(role, b);
    UnassignTakes(u, p, a);
    LostAgain(t, u, Apply(u, UnassignOp(p, role, b)), Exact(roles, role, visited, b), (q, x) => q == p && x == a,
              Exact(roles, role, visited + {p}, b));
  }

  ghost function HoldersOf(hits: seq<AssignmentHit>): set<Principal> {
    set h | h in hits :: h.holder
  }

  /** Every in-scope hit of the role is bound to the scope and to nothing else. */
  ghost predicate AllExact(t: Table, role: RoleId, sc: Scope) {
    forall h :: h in Holders(t, role, sc, None) ==> h.bindings == ScopeBindings(sc)
  }

  ghost predicate AllSucceed(u: Table, role: RoleId, hits: seq<AssignmentHit>, b: Bindings) {
    && (forall j :: 0 <= j < |hits| ==> RoleAssignment(role, b) in Listing(u, hits[j].holder))
    && (forall j, k :: 0 <= j < k < |hits| ==> hits[j].holder != hits[k].holder)
  }

  /** Between two steps of the inner loop of CleanupAllRoleAssignments: u at the
      start of the loop, v now. */
  ghost predicate Sweeping(u: Table, v: Table, role: RoleId, hits: seq<AssignmentHit>, i: nat, b: Bindings, ok: bool) {
    && Good(u) && i <= |hits| && NoDuplicates(hits) && (forall h :: h in hits ==> h in HitsOf(u, role))
    && Lost(u, v, Exact({}, role, HoldersOf(hits[..i]), b))
    && (ok ==> AllSucceed(u, role, hits[..i], b))
    && (!ok ==> exists h :: h in hits && h.bindings != b)
  }

  lemma StartSweeping(u: Table, role: RoleId, hits: seq<AssignmentHit>, sc: Scope)
    requires Good(u) && NoDuplicates(hits) && Elements(hits) == Holders(u, role, sc, None)
    ensures Sweeping(u, u, role, hits, 0, ScopeBindings(sc), true)
  {
    forall h | h in hits
      ensures h in HitsOf(u, role)
    {
      assert h in Elements(hits);
    }
  }

  lemma KeepSweeping(u: Table, v: Table, role: RoleId, hits: seq<AssignmentHit>, i: nat, b: Bindings, ok: bool)
    requires Sweeping(u, v, role, hits, i, b, ok) && i < |hits|
    ensures ValidKind(hits[i].holder.kind)
    ensures var done := Unassign(v, hits[i].holder, role, b);
      Sweeping(u, if done.Ok? then done.value else v, role, hits, i + 1, b, ok && done.Ok?)
  {
    var h := hits[i];
    assert h in hits && h in HitsOf(u, role);
    ListingsAgree(u, role, h.holder, h.bindings);
    OneMoreHit(u, v, {}, role, HoldersOf(hits[..i]), h.holder, b);
    PrefixGrows(hits, i);
    HoldersGrow(hits, i);
    if ok {
      if Unassign(v, h.holder, role, b).Ok? {
        SucceedAgain(u, role, hits, i, b);
      } else {
        SomeInexact(u, role, hits, i, b);
      }
    }
  }

  lemma HoldersGrow(hits: seq<AssignmentHit>, i: nat)
    requires i < |hits|
    ensures HoldersOf(hits[..i + 1]) == HoldersOf(hits[..i]) + {hits[i].holder}
  {
    PrefixGrows(hits, i);
  }

  lemma SucceedAgain(u: Table, role: RoleId, hits: seq<AssignmentHit>, i: nat, b: Bindings)
    requires i < |hits| && AllSucceed(u, role, hits[..i], b)
    requires RoleAssignment(role, b) in Listing(u, hits[i].holder) && hits[i].holder !in HoldersOf(hits[..i])
    ensures AllSucceed(u, role, hits[..i + 1], b)
  {
    forall j | 0 <= j < i
      ensures hits[j].holder != hits[i].holder
    {
      assert hits[..i][j] == hits[j];
    }
  }

  lemma SomeInexact(u: Table, role: RoleId, hits: seq<AssignmentHit>, i: nat, b: Bindings)
    requires Good(u) && i < |hits| && NoDuplicates(hits) && forall h :: h in hits ==> h in HitsOf(u, role)
    requires RoleAssignment(role, b) !in Listing(u, hits[i].holder) || hits[i].holder in HoldersOf(hits[..i])
    ensures exists h :: h in hits && h.bindings != b
  {
    var h := hits[i];
    assert h in hits;
    ListingsAgree(u, role, h.holder, h.bindings);
    if h.holder in HoldersOf(hits[..i]) {
      var j :| 0 <= j < i && hits[j].holder == h.holder;
      assert hits[j] in hits && hits[j] != h;
    }
  }

  lemma EndSweeping(u: Table, v: Table, role: RoleId, hits: seq<AssignmentHit>, sc: Scope, ok: bool)
    requires Sweeping(u, v, role, hits, |hits|, ScopeBindings(sc), ok)
    requires Elements(hits) == Holders(u, role, sc, None)
    ensures Lost(u, v, Exact({role}, role, {}, ScopeBindings(sc)))
    ensures ok <==> AllExact(u, role, sc)
  {
    var b := ScopeBindings(sc);
    WholePrefix(hits);
    forall q: Principal | ValidKind(q.kind) && RoleAssignment(role, b) in Listing(u, q)
      ensures q in HoldersOf(hits)
    {
      ExactIsHit(u, role, hits, sc, q);
    }
    if ok {
      SuccessIsExact(u, role, hits, sc);
    } else {
      var h :| h in hits && h.bindings != b;
      assert h in Elements(hits);
    }
  }

  lemma ExactIsHit(u: Table, role: RoleId, hits: seq<AssignmentHit>, sc: Scope, q: Principal)
    requires Good(u) && Elements(hits) == Holders(u, role, sc, None)
    requires ValidKind(q.kind) && RoleAssignment(role, ScopeBindings(sc)) in Listing(u, q)
    ensures AssignmentHit(role, ScopeBindings(sc), q) in hits && q in HoldersOf(hits)
  {
    ListingsAgree(u, role, q, ScopeBindings(sc));
    ManagedIsInScope(sc);
    assert AssignmentHit(role, ScopeBindings(sc), q) in Elements(hits);
  }

  /** If every holder had the exact binding, and no holder came twice, nobody had
      another one. */
  lemma SuccessIsExact(u: Table, role: RoleId, hits: seq<AssignmentHit>, sc: Scope)
    requires Good(u) && Elements(hits) == Holders(u, role, sc, None)
    requires AllSucceed(u, role, hits, ScopeBindings(sc))
    ensures AllExact(u, role, sc)
  {
    forall h | h in Holders(u, role, sc, None)
      ensures h.bindings == ScopeBindings(sc)
    {
      assert h in Elements(hits);
      var j :| 0 <= j < |hits| && hits[j] == h;
      ListingsAgree(u, role, h.holder, h.bindings);
      ExactIsHit(u, role, hits, sc, h.holder);
      var k :| 0 <= k < |hits| && hits[k] == AssignmentHit(role, ScopeBindings(sc), h.holder);
    }
  }

  /** Between two roles of CleanupAllRoleAssignments. */
  ghost predicate Swept(t: Table, u: Table, managed: seq<RoleId>, i: nat, sc: Scope, ok: bool) {
    && Good(t) && i <= |managed|
    && Lost(t, u, Exact(Elements(managed[..i]), "", {}, ScopeBindings(sc)))
    && (ok <==> forall r :: r in managed[..i] ==> AllExact(t, r, sc))
  }

  lemma StillExact(t: Table, u: Table, roles: set<RoleId>, role: RoleId, sc: Scope)
    requires Good(t) && Lost(t, u, Exact(roles, "", {}, ScopeBindings(sc)))
    ensures forall h ::
              h in HitsOf(u, role) <==> h in HitsOf(t, role) && !(role in roles && h.bindings == ScopeBindings(sc))
    ensures AllExact(u, role, sc) <==> AllExact(t, role, sc)
  {
    var b := ScopeBindings(sc);
    forall h
      ensures h in HitsOf(u, role) <==> h in HitsOf(t, role) && !(role in roles && h.bindings == b)
    {
      if h in HitsOf(u, role) || h in HitsOf(t, role) {
        ListingsAgree(t, role, h.holder, h.bindings);
        ListingsAgree(u, role, h.holder, h.bindings);
        assert h == AssignmentHit(role, h.bindings, h.holder);
      }
    }
    forall h | h in Holders(t, role, sc, None) && h.bindings != b
      ensures h in Holders(u, role, sc, None)
    {
    }
  }

  lemma KeepSwept(t: Table, u: Table, v: Table, managed: seq<RoleId>, i: nat, sc: Scope, ok: bool, okHere: bool)
    requires Swept(t, u, managed, i, sc, ok) && i < |managed|
    requires Lost(u, v, Exact({managed[i]}, managed[i], {}, ScopeBindings(sc)))
    requires okHere <==> AllExact(u, managed[i], sc)
    ensures Swept(t, v, managed, i + 1, sc, ok && okHere)
  {
    var b := ScopeBindings(sc);
    StillExact(t, u, Elements(managed[..i]), managed[i], sc);
    PrefixGrows(managed, i);
    LostAgain(t, u, v, Exact(Elements(managed[..i]), "", {}, b), Exact({managed[i]}, managed[i], {}, b),
              Exact(Elements(managed[..i + 1]), "", {}, b));
  }

  /** The cleanup takes what is bound exactly to the scope: a managed role has
      no in-scope holder left if and only if nothing in scope was bound more
      narrowly (or, for the scope "*", more widely). */
  lemma OnlyExactIsSwept(t: Table, u: Table, managed: seq<RoleId>, sc: Scope, ok: bool, role: RoleId)
    requires Swept(t, u, managed, |managed|, sc, ok) && role in managed
    ensures forall h :: h in HitsOf(u, role) <==> h in HitsOf(t, role) && h.bindings != ScopeBindings(sc)
    ensures Holders(u, role, sc, None) == {} <==> AllExact(t, role, sc)
    ensures ok ==> Holders(u, role, sc, None) == {}
  {
    WholePrefix(managed);
    StillExact(t, u, Elements(managed), role, sc);
    if !AllExact(t, role, sc) {
      var h :| h in Holders(t, role, sc, None) && h.bindings != ScopeBindings(sc);
      assert h in Holders(u, role, sc, None);
    }
  }
}
