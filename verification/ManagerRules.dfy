// The role assignment manager as a guarded state machine on assignment tables
// (role_assignment_manager.go), and what its rules keep over every run.
module ManagerRules {
  import opened Types
  import opened Collections
  import opened Assignments
  import opened Slices

  // --- scopes ---------------------------------------------------------------------

  datatype Scope = Scope(team: Option<string>, obj: Option<string>)

  predicate BoundTo(b: Bindings, key: string, scope: Option<string>) {
    scope.Some? && scope.value != "*" ==> key in b && b[key] == Str(scope.value)
  }

  /** filterAssignmentsByScope keeps the assignment. */
  predicate InScope(b: Bindings, sc: Scope) {
    BoundTo(b, "team", sc.team) && BoundTo(b, "id", sc.obj)
  }

  /** The bindings the manager assigns and unassigns with. */
  function ScopeBindings(sc: Scope): Bindings {
    (if sc.team.Some? then map["team" := Str(sc.team.value)] else map[])
    + (if sc.obj.Some? then map["id" := Str(sc.obj.value)] else map[])
  }

  /** In scope is what agrees with every binding the manager makes that is not
      the wildcard. */
  lemma InScopeExactly(b: Bindings, sc: Scope)
    ensures InScope(b, sc) <==>
              forall k :: k in ScopeBindings(sc) && ScopeBindings(sc)[k] != Str("*") ==>
                            k in b && b[k] == ScopeBindings(sc)[k]
    ensures forall k :: k in ScopeBindings(sc) <==> (k == "team" && sc.team.Some?) || (k == "id" && sc.obj.Some?)
    ensures sc.team.Some? ==> ScopeBindings(sc)["team"] == Str(sc.team.value)
    ensures sc.obj.Some? ==> ScopeBindings(sc)["id"] == Str(sc.obj.value)
  {
    assert |"team"| != |"id"|;
    assert sc.team.Some? ==> "team" in ScopeBindings(sc) && ScopeBindings(sc)["team"] == Str(sc.team.value);
    assert sc.obj.Some? ==> "id" in ScopeBindings(sc) && ScopeBindings(sc)["id"] == Str(sc.obj.value);
  }

  lemma ManagedIsInScope(sc: Scope)
    ensures InScope(ScopeBindings(sc), sc)
  {
    assert |"team"| != |"id"|;
  }

  /** The roles a principal holds in scope. */
  ghost function RolesOf(t: Table, p: Principal, sc: Scope): set<RoleId> {
    set a | a in Listing(t, p) && InScope(a.bindings, sc) :: a.role
  }

  /** The in-scope hits of a role, of one kind if given. */
  ghost function Holders(t: Table, role: RoleId, sc: Scope, kind: Option<string>): set<AssignmentHit> {
    set h | h in HitsOf(t, role) && InScope(h.bindings, sc) && (kind.Some? ==> h.holder.kind == kind.value)
  }

  /** The in-scope holders' hits of one kind. */
  ghost function HeldBy(t: Table, role: RoleId, sc: Scope, kind: string): set<AssignmentHit> {
    set h | h in HitsOf(t, role) && InScope(h.bindings, sc) && h.holder.kind == kind
  }

  /** Someone (of the kind, if given) holds the role in scope. */
  ghost predicate HasHolder(t: Table, role: RoleId, sc: Scope, kind: Option<string>) {
    exists h :: h in HitsOf(t, role) && InScope(h.bindings, sc) && (kind.Some? ==> h.holder.kind == kind.value)
  }

  // --- rules ------------------------------------------------------------------------

  /** Rules see role IDs only. Any other rule may look at the in-scope hits of
      one role. */
  datatype Rule =
    | CannotAddSelf(roles: seq<RoleId>)
    | CannotRemoveSelf(roles: seq<RoleId>)
    | CannotCombine(roleA: RoleId, roleB: RoleId)
    | RequireAtLeast(role: RoleId, min: int, kind: Option<string>)
    | MinMaxInstances(role: RoleId, min: int, max: int, kind: Option<string>)
    | OtherRule(role: RoleId,
                accepts: (set<AssignmentHit>, set<RoleId>, set<RoleId>, Principal, Option<Principal>) -> bool)

  datatype RemovalRule =
    | KeepAtLeast(role: RoleId, min: int, kind: Option<string>)
    | OtherRemovalRule(role: RoleId, accepts: (set<AssignmentHit>, seq<string>, seq<string>) -> bool)

  /** diffRoleAssignments; an empty filter considers every role. */
  ghost function Only(roles: set<RoleId>, filter: RoleId): set<RoleId> {
    set r | r in roles && (filter == "" || r == filter)
  }

  /** The comparison both RequireAtLeast checks end with: of the counts at hand
      and the counts going away, per kind. */
  predicate LeavesSome(kind: Option<string>, users: (int, int), groups: (int, int), teams: (int, int)) {
    match kind
    case Some(k) =>
      && (k == KIND_USER ==> users.0 != users.1)
      && (k == KIND_GROUP ==> groups.0 != groups.1)
      && (k == KIND_TEAM ==> teams.0 != teams.1)
    case None => !(groups.0 == groups.1 && users.0 == users.1 && teams.0 == teams.1)
  }

  predicate Between(n: int, min: int, max: int) {
    min <= n && (max > 0 ==> n <= max)
  }

  /** The bounds of MinMaxInstancesRule, per kind or in all. */
  predicate WithinBounds(kind: Option<string>, min: int, max: int, users: int, groups: int, teams: int) {
    match kind
    case Some(k) =>
      && (k == KIND_USER ==> Between(users, min, max))
      && (k == KIND_GROUP ==> Between(groups, min, max))
      && (k == KIND_TEAM ==> Between(teams, min, max))
    case None => Between(users + groups + teams, min, max)
  }

  function At(kind: string, assignee: Principal, n: int): int {
    if assignee.kind == kind then n else 0
  }

  ghost predicate Permits(rule: Rule, t: Table, sc: Scope, current: set<RoleId>, proposed: set<RoleId>,
                          assignee: Principal, assigner: Option<Principal>)
  {
    match rule
    case CannotAddSelf(roles) =>
      assigner == Some(assignee) ==> forall r :: r in proposed - current ==> roles != [] && r !in roles
    case CannotRemoveSelf(roles) =>
      assigner == Some(assignee) ==> forall r :: r in current - proposed ==> roles != [] && r !in roles
    case CannotCombine(a, b) => !(a in proposed && b in proposed)
    case RequireAtLeast(role, _, kind) =>
      var adding, removing := |Only(proposed - current, role)|, |Only(current - proposed, role)|;
      LeavesSome(kind,
                 (|HeldBy(t, role, sc, KIND_USER)| + At(KIND_USER, assignee, adding),
                  At(KIND_USER, assignee, removing)),
                 (|HeldBy(t, role, sc, KIND_GROUP)| + At(KIND_GROUP, assignee, adding),
                  At(KIND_GROUP, assignee, removing)),
                 (|HeldBy(t, role, sc, KIND_TEAM)| + At(KIND_TEAM, assignee, adding),
                  At(KIND_TEAM, assignee, removing)))
    case MinMaxInstances(role, min, max, kind) =>
      var ids := if role in proposed then [assignee.id] else [];
      WithinBounds(kind, min, max, |Among(HeldBy(t, role, sc, KIND_USER), ids)|,
                   |Among(HeldBy(t, role, sc, KIND_GROUP), ids)|, |Among(HeldBy(t, role, sc, KIND_TEAM), ids)|)
    case OtherRule(role, accepts) => accepts(Holders(t, role, sc, None), current, proposed, assignee, assigner)
  }

  /** The three comparisons of RequireAtLeast, on how many hold, come and go. */
  ghost predicate Leaves(t: Table, sc: Scope, p: Principal, role: RoleId, kind: Option<string>, come: nat, go: nat) {
    LeavesSome(kind,
               (|HeldBy(t, role, sc, KIND_USER)| + At(KIND_USER, p, come), At(KIND_USER, p, go)),
               (|HeldBy(t, role, sc, KIND_GROUP)| + At(KIND_GROUP, p, come), At(KIND_GROUP, p, go)),
               (|HeldBy(t, role, sc, KIND_TEAM)| + At(KIND_TEAM, p, come), At(KIND_TEAM, p, go)))
  }

  lemma PermitsIfLeaves(t: Table, sc: Scope, held: set<RoleId>, proposed: set<RoleId>, p: Principal,
                        assigner: Option<Principal>, role: RoleId, min: int, kind: Option<string>)
    ensures Permits(RequireAtLeast(role, min, kind), t, sc, held, proposed, p, assigner)
         <==> Leaves(t, sc, p, role, kind, |Only(proposed - held, role)|, |Only(held - proposed, role)|)
  {
  }

  ghost function Among(hits: set<AssignmentHit>, ids: seq<string>): set<AssignmentHit> {
    set h | h in hits && h.holder.id in ids
  }

  ghost predicate PermitsRemoval(rule: RemovalRule, t: Table, sc: Scope, users: seq<string>, groups: seq<string>) {
    match rule
    case KeepAtLeast(role, _, kind) =>
      var u, g := HeldBy(t, role, sc, KIND_USER), HeldBy(t, role, sc, KIND_GROUP);
      LeavesSome(kind, (|u|, |Among(u, users)|), (|g|, |Among(g, groups)|), (|HeldBy(t, role, sc, KIND_TEAM)|, 0))
    case OtherRemovalRule(role, accepts) => accepts(Holders(t, role, sc, None), users, groups)
  }

  // --- the changes ---------------------------------------------------------------------

  datatype Manager = Manager(scope: Scope, known: set<RoleId>, rules: seq<Rule>, removalRules: seq<RemovalRule>)

  ghost predicate Passes(m: Manager, t: Table, p: Principal, proposed: set<RoleId>, assigner: Option<Principal>) {
    ValidPrincipal(p) &&
    forall rule :: rule in m.rules ==> Permits(rule, t, m.scope, RolesOf(t, p, m.scope), proposed, p, assigner)
  }

  /** Role by role, up to the first that fails. */
  ghost function AssignAll(t: Table, p: Principal, roles: seq<RoleId>, known: set<RoleId>, b: Bindings): Table
    decreases |roles|
  {
    if roles == [] then t
    else
      match Assign(t, p, roles[0], known, b)
      case Err => t
      case Ok(t1) => AssignAll(t1, p, roles[1..], known, b)
  }

  ghost function UnassignAll(t: Table, p: Principal, roles: seq<RoleId>, b: Bindings): Table
    decreases |roles|
  {
    if roles == [] then t
    else
      match Unassign(t, p, roles[0], b)
      case Err => t
      case Ok(t1) => UnassignAll(t1, p, roles[1..], b)
  }

  /** AddRoles: nothing unless all rules pass, then as far as it gets. */
  ghost function AddRoles(m: Manager, t: Table, p: Principal, roles: seq<RoleId>, assigner: Option<Principal>): Table {
    if Passes(m, t, p, RolesOf(t, p, m.scope) + Elements(roles), assigner)
    then AssignAll(t, p, roles, m.known, ScopeBindings(m.scope)) else t
  }

  ghost function RemoveRoles(m: Manager, t: Table, p: Principal, roles: seq<RoleId>,
                             assigner: Option<Principal>): Table {
    if Passes(m, t, p, RolesOf(t, p, m.scope) - Elements(roles), assigner)
    then UnassignAll(t, p, roles, ScopeBindings(m.scope)) else t
  }

  /** The roles RemoveBulkUsers asks to remove from one principal: all it holds
      in scope, as often as listed. */
  function ScopedRoles(list: seq<RoleAssignment>, sc: Scope): seq<RoleId> {
    if list == [] then []
    else
      var last := list[|list| - 1];
      ScopedRoles(list[..|list| - 1], sc) + if InScope(last.bindings, sc) then [last.role] else []
  }

  /** One principal after the other; a refusal is noted and passed over, an
      unreadable principal (an empty ID) ends the loop. */
  ghost function RemoveFromEach(m: Manager, t: Table, kind: string, ids: seq<string>,
                                assigner: Option<Principal>): Table
    decreases |ids|
  {
    if ids == [] || ids[0] == "" then t
    else
      var p := Principal(kind, ids[0]);
      RemoveFromEach(m, RemoveRoles(m, t, p, ScopedRoles(Listing(t, p), m.scope), assigner), kind, ids[1..], assigner)
  }

  ghost predicate MayRemoveBulk(m: Manager, t: Table, users: seq<string>, groups: seq<string>) {
    forall rule :: rule in m.removalRules ==> PermitsRemoval(rule, t, m.scope, users, groups)
  }

  ghost function RemoveBulkUsers(m: Manager, t: Table, users: seq<string>, groups: seq<string>,
                                 assigner: Option<Principal>): Table {
    if !MayRemoveBulk(m, t, users, groups) then t
    else
      var t1 := RemoveFromEach(m, t, KIND_USER, users, assigner);
      if "" in users then t1 else RemoveFromEach(m, t1, KIND_GROUP, groups, assigner)
  }

  datatype Change =
    | Add(p: Principal, roles: seq<RoleId>, assigner: Option<Principal>)
    | Remove(p: Principal, roles: seq<RoleId>, assigner: Option<Principal>)
    | RemoveBulk(users: seq<string>, groups: seq<string>, assigner: Option<Principal>)

  ghost function Changed(m: Manager, t: Table, c: Change): Table {
    match c
    case Add(p, roles, by') => AddRoles(m, t, p, roles, by')
    case Remove(p, roles, by') => RemoveRoles(m, t, p, roles, by')
    case RemoveBulk(users, groups, by') => RemoveBulkUsers(m, t, users, groups, by')
  }

  ghost function RunChanges(m: Manager, t: Table, cs: seq<Change>): Table {
    if cs == [] then t else Changed(m, RunChanges(m, t, cs[..|cs| - 1]), cs[|cs| - 1])
  }

  // --- what a change does to the listings ---------------------------------------------------

  /** u is t with assignments of p added, all of `roles` and bound to b. */
  ghost predicate Grown(t: Table, u: Table, p: Principal, roles: seq<RoleId>, b: Bindings) {
    && (forall q :: q != p && ValidKind(q.kind) ==> Listing(u, q) == Listing(t, q))
    && (forall a :: a in Listing(t, p) ==> a in Listing(u, p))
    && (forall a :: a in Listing(u, p) ==> a in Listing(t, p) || (a.role in roles && a.bindings == b))
  }

  lemma AssignGrows(t: Table, p: Principal, role: RoleId, known: set<RoleId>, b: Bindings)
    requires Good(t) && Assign(t, p, role, known, b).Ok?
    ensures Good(Assign(t, p, role, known, b).value) && Grown(t, Assign(t, p, role, known, b).value, p, [role], b)
  {
    AppliesStayGood(t, AssignOp(p, role, known, b));
    var u := Assign(t, p, role, known, b).value;
    forall q | q != p && ValidKind(q.kind)
      ensures Listing(u, q) == Listing(t, q)
    {
      KeysAreInjective(p, q);
    }
  }

  lemma UnassignShrinks(t: Table, p: Principal, role: RoleId, b: Bindings)
    requires Good(t) && Unassign(t, p, role, b).Ok?
    ensures Good(Unassign(t, p, role, b).value) && Grown(Unassign(t, p, role, b).value, t, p, [role], b)
  {
    AppliesStayGood(t, UnassignOp(p, role, b));
    var u := Unassign(t, p, role, b).value;
    forall q | q != p && ValidKind(q.kind)
      ensures Listing(u, q) == Listing(t, q)
    {
      KeysAreInjective(p, q);
    }
    forall x {
      WithoutMembers(Listing(t, p), RoleAssignment(role, b), x);
    }
  }

  lemma {:induction false} AssignAllGrows(t: Table, p: Principal, roles: seq<RoleId>, known: set<RoleId>, b: Bindings)
    requires Good(t)
    ensures Good(AssignAll(t, p, roles, known, b)) && Grown(t, AssignAll(t, p, roles, known, b), p, roles, b)
    decreases |roles|
  {
    if roles != [] && Assign(t, p, roles[0], known, b).Ok? {
      AssignGrows(t, p, roles[0], known, b);
      AssignAllGrows(Assign(t, p, roles[0], known, b).value, p, roles[1..], known, b);
      PopFront(roles);
    }
  }

  /** If all roles are known, each of them ends up assigned, unless a pair that
      prints alike was there. */
  lemma {:induction false} AssignAllGives(t: Table, p: Principal, roles: seq<RoleId>, known: set<RoleId>, b: Bindings,
                                          role: RoleId)
    requires Good(t) && ValidPrincipal(p) && role in roles
    requires forall r :: r in roles ==> r != "" && r in known
    ensures exists x :: x in Listing(AssignAll(t, p, roles, known, b), p) && x.role == role && MapEquals(x.bindings, b)
    decreases |roles|
  {
    var t1 := Assign(t, p, roles[0], known, b).value;
    var a := RoleAssignment(roles[0], b);
    assert roles[0] in roles;
    AssignGrows(t, p, roles[0], known, b);
    AssignAllGrows(t1, p, roles[1..], known, b);
    PopFront(roles);
    if role in roles[1..] {
      assert forall r :: r in roles[1..] ==> r in roles;
      AssignAllGives(t1, p, roles[1..], known, b, role);
    } else {
      MapEqualsSelf(b);
      OneIsGiven(t, p, roles[0], known, b);
      var x :| x in Listing(t1, p) && SamePair(x, a);
    }
  }

  lemma OneIsGiven(t: Table, p: Principal, role: RoleId, known: set<RoleId>, b: Bindings)
    requires ValidPrincipal(p) && role != "" && role in known
    ensures exists x :: x in Listing(Assign(t, p, role, known, b).value, p) && SamePair(x, RoleAssignment(role, b))
  {
    MapEqualsSelf(b);
    var a := RoleAssignment(role, b);
    if !exists e :: e in Listing(t, p) && SamePair(e, a) {
      assert a in Listing(Assign(t, p, role, known, b).value, p);
    }
  }

  lemma {:induction false} UnassignAllShrinks(t: Table, p: Principal, roles: seq<RoleId>, b: Bindings)
    requires Good(t)
    ensures Good(UnassignAll(t, p, roles, b)) && Grown(UnassignAll(t, p, roles, b), t, p, roles, b)
    decreases |roles|
  {
    if roles != [] && Unassign(t, p, roles[0], b).Ok? {
      UnassignShrinks(t, p, roles[0], b);
      UnassignAllShrinks(Unassign(t, p, roles[0], b).value, p, roles[1..], b);
      PopFront(roles);
    }
  }

  lemma GrownHits(t: Table, u: Table, p: Principal, roles: seq<RoleId>, b: Bindings, role: RoleId, h: AssignmentHit)
    requires Good(t) && Good(u) && Grown(t, u, p, roles, b) && ValidKind(p.kind)
    ensures h in HitsOf(t, role) ==> h in HitsOf(u, role)
    ensures h in HitsOf(u, role) ==> h in HitsOf(t, role) || (h == AssignmentHit(role, b, p) && role in roles)
  {
    if h in HitsOf(t, role) || h in HitsOf(u, role) {
      ListingsAgree(t, role, h.holder, h.bindings);
      ListingsAgree(u, role, h.holder, h.bindings);
    }
  }

  lemma GrownRoles(t: Table, u: Table, p: Principal, roles: seq<RoleId>, b: Bindings, q: Principal, sc: Scope)
    requires Grown(t, u, p, roles, b) && ValidKind(q.kind)
    ensures q != p ==> RolesOf(u, q, sc) == RolesOf(t, q, sc)
    ensures q == p ==> RolesOf(t, q, sc) <= RolesOf(u, q, sc) <= RolesOf(t, q, sc) + Elements(roles)
  {
  }

  // --- no run takes what a rule protects ------------------------------------------------------

  /** A role with a holder keeps one through any single removal that passed the
      rule: at most one in-scope hit goes, and the rule saw at least two, or one
      of another kind. The kind "role" is not counted, so it is not protected. */
  lemma RemoveKeepsHolder(m: Manager, t: Table, p: Principal, roles: seq<RoleId>, assigner: Option<Principal>,
                          role: RoleId, min: int, kind: Option<string>)
    requires Good(t) && RequireAtLeast(role, min, kind) in m.rules
    requires kind != Some(KIND_ROLE) && HasHolder(t, role, m.scope, kind)
    ensures HasHolder(RemoveRoles(m, t, p, roles, assigner), role, m.scope, kind)
  {
    var u := RemoveRoles(m, t, p, roles, assigner);
    var current := RolesOf(t, p, m.scope);
    var proposed := current - Elements(roles);
    if Passes(m, t, p, proposed, assigner) {
      var b := ScopeBindings(m.scope);
      UnassignAllShrinks(t, p, roles, b);
      var gone := AssignmentHit(role, b, p);
      if gone !in HitsOf(t, role) || role !in roles {
        NothingLost(t, u, p, roles, m.scope, role, kind);
      } else {
        assert Permits(RequireAtLeast(role, min, kind), t, m.scope, current, proposed, p, assigner);
        OneRemoved(t, p, roles, m.scope, role);
        RolesAreNamed(t, role, gone);
        AnotherHolder(t, p, m.scope, role, min, kind, current, proposed, assigner);
        var h :| h in HitsOf(t, role) && InScope(h.bindings, m.scope)
              && (kind.Some? ==> h.holder.kind == kind.value) && h != gone;
        GrownHits(u, t, p, roles, b, role, h);
      }
    }
  }

  lemma RolesAreNamed(t: Table, role: RoleId, h: AssignmentHit)
    requires Good(t) && h in HitsOf(t, role)
    ensures role != ""
  {
  }

  lemma NothingLost(t: Table, u: Table, p: Principal, roles: seq<RoleId>, sc: Scope, role: RoleId, kind: Option<string>)
    requires Good(t) && Good(u) && Grown(u, t, p, roles, ScopeBindings(sc)) && ValidKind(p.kind)
    requires AssignmentHit(role, ScopeBindings(sc), p) !in HitsOf(t, role) || role !in roles
    ensures HasHolder(t, role, sc, kind) ==> HasHolder(u, role, sc, kind)
  {
    if HasHolder(t, role, sc, kind) {
      var h :| h in HitsOf(t, role) && InScope(h.bindings, sc) && (kind.Some? ==> h.holder.kind == kind.value);
      GrownHits(u, t, p, roles, ScopeBindings(sc), role, h);
    }
  }

  /** The removal is one the rule counts as going. */
  lemma OneRemoved(t: Table, p: Principal, roles: seq<RoleId>, sc: Scope, role: RoleId)
    requires Good(t) && ValidPrincipal(p) && role in roles
    requires AssignmentHit(role, ScopeBindings(sc), p) in HitsOf(t, role)
    ensures var current := RolesOf(t, p, sc);
      role in current - (current - Elements(roles))
  {
    ListingsAgree(t, role, p, ScopeBindings(sc));
    ManagedIsInScope(sc);
    assert RoleAssignment(role, ScopeBindings(sc)) in Listing(t, p);
  }

  lemma AnotherOf(t: Table, role: RoleId, sc: Scope, kind: string, gone: AssignmentHit)
    requires |HeldBy(t, role, sc, kind)| > (if gone.holder.kind == kind then 1 else 0)
    ensures exists h :: h in HeldBy(t, role, sc, kind) && h != gone
  {
    var all := HeldBy(t, role, sc, kind);
    var common, rest := all * {gone}, all - {gone};
    assert all == common + rest;
    SubsetSize(common, {gone});
    assert gone.holder.kind != kind ==> common == {};
    var h :| h in rest;
  }

  lemma SubsetSize<T>(a: set<T>, b: set<T>)
    requires a <= b
    ensures |a| <= |b|
  {
    assert b == a + (b - a);
  }

  lemma AnotherHolder(t: Table, p: Principal, sc: Scope, role: RoleId, min: int, kind: Option<string>,
                      current: set<RoleId>, proposed: set<RoleId>, assigner: Option<Principal>)
    requires proposed <= current && role in current - proposed && role != ""
    requires kind.Some? ==> kind.value in {KIND_USER, KIND_GROUP, KIND_TEAM}
    requires AssignmentHit(role, ScopeBindings(sc), p) in HitsOf(t, role)
    requires Permits(RequireAtLeast(role, min, kind), t, sc, current, proposed, p, assigner)
    ensures exists h :: h in HitsOf(t, role) && InScope(h.bindings, sc)
              && (kind.Some? ==> h.holder.kind == kind.value) && h != AssignmentHit(role, ScopeBindings(sc), p)
  {
    var gone := AssignmentHit(role, ScopeBindings(sc), p);
    ManagedIsInScope(sc);
    assert Only(proposed - current, role) == {};
    assert Only(current - proposed, role) == {role};
    assert gone in HeldBy(t, role, sc, p.kind);
    SubsetSize({gone}, HeldBy(t, role, sc, p.kind));
    var spared := if kind.Some? then kind.value
                  else if |HeldBy(t, role, sc, KIND_USER)| != At(KIND_USER, p, 1) then KIND_USER
                  else if |HeldBy(t, role, sc, KIND_GROUP)| != At(KIND_GROUP, p, 1) then KIND_GROUP
                  else KIND_TEAM;
    assert KIND_USER != KIND_GROUP && KIND_GROUP != KIND_TEAM && KIND_USER != KIND_TEAM;
    AnotherOf(t, role, sc, spared, gone);
  }

  // --- every single change ----------------------------------------------------------------------

  lemma RemoveShrinks(m: Manager, t: Table, p: Principal, roles: seq<RoleId>, assigner: Option<Principal>)
    requires Good(t)
    ensures var u := RemoveRoles(m, t, p, roles, assigner);
      Good(u) && Grown(u, t, p, roles, ScopeBindings(m.scope))
  {
    UnassignAllShrinks(t, p, roles, ScopeBindings(m.scope));
  }

  lemma AddGrows(m: Manager, t: Table, p: Principal, roles: seq<RoleId>, assigner: Option<Principal>)
    requires Good(t)
    ensures var u := AddRoles(m, t, p, roles, assigner);
      Good(u) && Grown(t, u, p, roles, ScopeBindings(m.scope))
  {
    AssignAllGrows(t, p, roles, m.known, ScopeBindings(m.scope));
  }

  /** Bulk removal from the principals of one kind only takes, and only from
      those listed. */
  lemma {:induction false} EachOnlyLoses(m: Manager, t: Table, kind: string, ids: seq<string>,
                                         assigner: Option<Principal>, q: Principal, role: RoleId, b: Bindings)
    requires Good(t) && ValidKind(q.kind)
    ensures var u := RemoveFromEach(m, t, kind, ids, assigner);
      && Good(u)
      && (RoleAssignment(role, b) in Listing(u, q) ==> RoleAssignment(role, b) in Listing(t, q))
      && (q.kind != kind || q.id !in ids ==> Listing(u, q) == Listing(t, q))
    decreases |ids|
  {
    if ids != [] && ids[0] != "" {
      var p := Principal(kind, ids[0]);
      var roles := ScopedRoles(Listing(t, p), m.scope);
      RemoveShrinks(m, t, p, roles, assigner);
      EachOnlyLoses(m, RemoveRoles(m, t, p, roles, assigner), kind, ids[1..], assigner, q, role, b);
      PopFront(ids);
    }
  }

  lemma {:induction false} EachKeepsHolder(m: Manager, t: Table, of: string, ids: seq<string>,
                                           assigner: Option<Principal>,
                                           role: RoleId, min: int, kind: Option<string>)
    requires Good(t) && RequireAtLeast(role, min, kind) in m.rules && kind != Some(KIND_ROLE)
    requires HasHolder(t, role, m.scope, kind)
    ensures var u := RemoveFromEach(m, t, of, ids, assigner);
      Good(u) && HasHolder(u, role, m.scope, kind)
    decreases |ids|
  {
    if ids != [] && ids[0] != "" {
      var p := Principal(of, ids[0]);
      var roles := ScopedRoles(Listing(t, p), m.scope);
      RemoveShrinks(m, t, p, roles, assigner);
      RemoveKeepsHolder(m, t, p, roles, assigner, role, min, kind);
      EachKeepsHolder(m, RemoveRoles(m, t, p, roles, assigner), of, ids[1..], assigner, role, min, kind);
    }
  }

  lemma ChangesStayGood(m: Manager, t: Table, c: Change)
    requires Good(t)
    ensures Good(Changed(m, t, c))
  {
    match c
    case Add(p, roles, assigner) => AddGrows(m, t, p, roles, assigner);
    case Remove(p, roles, assigner) => RemoveShrinks(m, t, p, roles, assigner);
    case RemoveBulk(users, groups, assigner) =>
      var q := Principal(KIND_USER, "");
      EachOnlyLoses(m, t, KIND_USER, users, assigner, q, "", map[]);
      EachOnlyLoses(m, RemoveFromEach(m, t, KIND_USER, users, assigner), KIND_GROUP, groups, assigner, q, "", map[]);
  }

  lemma ChangeKeepsHolder(m: Manager, t: Table, c: Change, role: RoleId, min: int, kind: Option<string>)
    requires Good(t) && RequireAtLeast(role, min, kind) in m.rules && kind != Some(KIND_ROLE)
    requires HasHolder(t, role, m.scope, kind)
    ensures HasHolder(Changed(m, t, c), role, m.scope, kind)
  {
    match c
    case Add(p, roles, assigner) =>
      AddGrows(m, t, p, roles, assigner);
      var u := AddRoles(m, t, p, roles, assigner);
      if Passes(m, t, p, RolesOf(t, p, m.scope) + Elements(roles), assigner) {
        var h :| h in HitsOf(t, role) && InScope(h.bindings, m.scope) && (kind.Some? ==> h.holder.kind == kind.value);
        GrownHits(t, u, p, roles, ScopeBindings(m.scope), role, h);
      }
    case Remove(p, roles, assigner) => RemoveKeepsHolder(m, t, p, roles, assigner, role, min, kind);
    case RemoveBulk(users, groups, assigner) =>
      EachKeepsHolder(m, t, KIND_USER, users, assigner, role, min, kind);
      EachKeepsHolder(m, RemoveFromEach(m, t, KIND_USER, users, assigner), KIND_GROUP, groups, assigner, role, min,
                      kind);
  }

  // --- every run ------------------------------------------------------------------------------------

  lemma {:induction false} RunsStayGood(m: Manager, t: Table, cs: seq<Change>)
    requires Good(t)
    ensures Good(RunChanges(m, t, cs))
  {
    if cs != [] {
      RunsStayGood(m, t, cs[..|cs| - 1]);
      ChangesStayGood(m, RunChanges(m, t, cs[..|cs| - 1]), cs[|cs| - 1]);
    }
  }

  /** Under RequireAtLeast, whatever its minimum, a role that has an in-scope
      holder keeps one over every run of additions, removals and bulk removals. */
  lemma {:induction false} HolderIsNeverLost(m: Manager, t: Table, cs: seq<Change>, role: RoleId, min: int,
                                             kind: Option<string>)
    requires Good(t) && RequireAtLeast(role, min, kind) in m.rules && kind != Some(KIND_ROLE)
    requires HasHolder(t, role, m.scope, kind)
    ensures HasHolder(RunChanges(m, t, cs), role, m.scope, kind)
  {
    if cs != [] {
      HolderIsNeverLost(m, t, cs[..|cs| - 1], role, min, kind);
      RunsStayGood(m, t, cs[..|cs| - 1]);
      ChangeKeepsHolder(m, RunChanges(m, t, cs[..|cs| - 1]), cs[|cs| - 1], role, min, kind);
    }
  }

  /** Nobody comes to hold both roles, failed and partial changes included. */
  lemma {:induction false} NeverCombined(m: Manager, t: Table, cs: seq<Change>, a: RoleId, b: RoleId, q: Principal)
    requires Good(t) && CannotCombine(a, b) in m.rules && ValidKind(q.kind)
    requires !({a, b} <= RolesOf(t, q, m.scope))
    ensures !({a, b} <= RolesOf(RunChanges(m, t, cs), q, m.scope))
  {
    if cs != [] {
      var before := RunChanges(m, t, cs[..|cs| - 1]);
      NeverCombined(m, t, cs[..|cs| - 1], a, b, q);
      RunsStayGood(m, t, cs[..|cs| - 1]);
      match cs[|cs| - 1]
      case Add(p, roles, assigner) =>
        AddGrows(m, before, p, roles, assigner);
        GrownRoles(before, AddRoles(m, before, p, roles, assigner), p, roles, ScopeBindings(m.scope), q, m.scope);
        var proposed := RolesOf(before, p, m.scope) + Elements(roles);
        if q == p && Passes(m, before, p, proposed, assigner) {
          assert Permits(CannotCombine(a, b), before, m.scope, RolesOf(before, p, m.scope), proposed, p, assigner);
        }
      case Remove(p, roles, assigner) => RemovalTakesRoles(m, before, cs[|cs| - 1], q);
      case RemoveBulk(users, groups, assigner) => RemovalTakesRoles(m, before, cs[|cs| - 1], q);
    }
  }

  lemma RemovalTakesRoles(m: Manager, t: Table, c: Change, q: Principal)
    requires Good(t) && ValidKind(q.kind) && !c.Add?
    ensures RolesOf(Changed(m, t, c), q, m.scope) <= RolesOf(t, q, m.scope)
  {
    match c
    case Remove(p, roles, assigner) =>
      RemoveShrinks(m, t, p, roles, assigner);
      GrownRoles(RemoveRoles(m, t, p, roles, assigner), t, p, roles, ScopeBindings(m.scope), q, m.scope);
    case RemoveBulk(users, groups, assigner) =>
      EachOnlyTakes(m, t, KIND_USER, users, assigner, q);
      EachOnlyTakes(m, RemoveFromEach(m, t, KIND_USER, users, assigner), KIND_GROUP, groups, assigner, q);
  }

  lemma EachOnlyTakes(m: Manager, t: Table, kind: string, ids: seq<string>, assigner: Option<Principal>, q: Principal)
    requires Good(t) && ValidKind(q.kind)
    ensures Good(RemoveFromEach(m, t, kind, ids, assigner))
    ensures RolesOf(RemoveFromEach(m, t, kind, ids, assigner), q, m.scope) <= RolesOf(t, q, m.scope)
  {
    EachOnlyLoses(m, t, kind, ids, assigner, q, "", map[]);
    forall x | x in Listing(RemoveFromEach(m, t, kind, ids, assigner), q)
      ensures x in Listing(t, q)
    {
      EachOnlyLoses(m, t, kind, ids, assigner, q, x.role, x.bindings);
      assert x == RoleAssignment(x.role, x.bindings);
    }
  }

  // --- changes a principal makes itself ----------------------------------------------------------------

  /** Everything the two self rules forbid of the passage between two role sets. */
  ghost predicate SelfRespecting(before: set<RoleId>, after: set<RoleId>, adds: seq<RoleId>, removes: seq<RoleId>) {
    && (forall r :: r in after - before ==> adds != [] && r !in adds)
    && (forall r :: r in before - after ==> removes != [] && r !in removes)
  }

  lemma SelfRemoval(m: Manager, t: Table, p: Principal, roles: seq<RoleId>, a: Principal,
                    adds: seq<RoleId>, removes: seq<RoleId>)
    requires Good(t) && ValidKind(a.kind) && CannotRemoveSelf(removes) in m.rules
    ensures SelfRespecting(RolesOf(t, a, m.scope), RolesOf(RemoveRoles(m, t, p, roles, Some(a)), a, m.scope), adds,
                           removes)
  {
    RemoveShrinks(m, t, p, roles, Some(a));
    GrownRoles(RemoveRoles(m, t, p, roles, Some(a)), t, p, roles, ScopeBindings(m.scope), a, m.scope);
    var current := RolesOf(t, a, m.scope);
    var proposed := current - Elements(roles);
    if p == a && Passes(m, t, p, proposed, Some(a)) {
      assert Permits(CannotRemoveSelf(removes), t, m.scope, current, proposed, p, Some(a));
      forall r | r in current - RolesOf(RemoveRoles(m, t, p, roles, Some(a)), a, m.scope)
        ensures removes != [] && r !in removes
      {
        assert r in current - proposed;
      }
    }
  }

  lemma {:induction false} SelfRemovals(m: Manager, t: Table, kind: string, ids: seq<string>, a: Principal,
                                        adds: seq<RoleId>, removes: seq<RoleId>)
    requires Good(t) && ValidKind(a.kind) && CannotRemoveSelf(removes) in m.rules
    ensures var u := RemoveFromEach(m, t, kind, ids, Some(a));
      Good(u) && SelfRespecting(RolesOf(t, a, m.scope), RolesOf(u, a, m.scope), adds, removes)
    decreases |ids|
  {
    if ids != [] && ids[0] != "" {
      var p := Principal(kind, ids[0]);
      var roles := ScopedRoles(Listing(t, p), m.scope);
      var t1 := RemoveRoles(m, t, p, roles, Some(a));
      RemoveShrinks(m, t, p, roles, Some(a));
      SelfRemoval(m, t, p, roles, a, adds, removes);
      SelfRemovals(m, t1, kind, ids[1..], a, adds, removes);
      Respectively(RolesOf(t, a, m.scope), RolesOf(t1, a, m.scope),
                   RolesOf(RemoveFromEach(m, t, kind, ids, Some(a)), a, m.scope), adds, removes);
    }
  }

  lemma Respectively(before: set<RoleId>, between: set<RoleId>, after: set<RoleId>, adds: seq<RoleId>,
                     removes: seq<RoleId>)
    requires SelfRespecting(before, between, adds, removes) && SelfRespecting(between, after, adds, removes)
    ensures SelfRespecting(before, after, adds, removes)
  {
    forall r | r in after - before
      ensures adds != [] && r !in adds
    {
      assert r in after - between || r in between - before;
    }
    forall r | r in before - after
      ensures removes != [] && r !in removes
    {
      assert r in before - between || r in between - after;
    }
  }

  lemma SelfChange(m: Manager, t: Table, c: Change, a: Principal, adds: seq<RoleId>, removes: seq<RoleId>)
    requires Good(t) && ValidKind(a.kind) && c.assigner == Some(a)
    requires CannotAddSelf(adds) in m.rules && CannotRemoveSelf(removes) in m.rules
    ensures SelfRespecting(RolesOf(t, a, m.scope), RolesOf(Changed(m, t, c), a, m.scope), adds, removes)
  {
    match c
    case Add(p, roles, _) =>
      var u := AddRoles(m, t, p, roles, Some(a));
      AddGrows(m, t, p, roles, Some(a));
      GrownRoles(t, u, p, roles, ScopeBindings(m.scope), a, m.scope);
      var current := RolesOf(t, a, m.scope);
      var proposed := current + Elements(roles);
      if p == a && Passes(m, t, p, proposed, Some(a)) {
        assert Permits(CannotAddSelf(adds), t, m.scope, current, proposed, p, Some(a));
        forall r | r in RolesOf(u, a, m.scope) - current
          ensures adds != [] && r !in adds
        {
          assert r in proposed - current;
        }
      }
    case Remove(p, roles, _) => SelfRemoval(m, t, p, roles, a, adds, removes);
    case RemoveBulk(users, groups, _) =>
      var t1 := RemoveFromEach(m, t, KIND_USER, users, Some(a));
      SelfRemovals(m, t, KIND_USER, users, a, adds, removes);
      SelfRemovals(m, t1, KIND_GROUP, groups, a, adds, removes);
      Respectively(RolesOf(t, a, m.scope), RolesOf(t1, a, m.scope),
                   RolesOf(RemoveFromEach(m, t1, KIND_GROUP, groups, Some(a)), a, m.scope), adds, removes);
  }

  /** With both self rules, all a principal changes about itself in a run of its
      own changes are the roles the rules leave it; with both lists empty it
      changes none. */
  lemma {:induction false} SelfChangesAreRuled(m: Manager, t: Table, cs: seq<Change>, a: Principal,
                                               adds: seq<RoleId>, removes: seq<RoleId>)
    requires Good(t) && ValidKind(a.kind) && forall c :: c in cs ==> c.assigner == Some(a)
    requires CannotAddSelf(adds) in m.rules && CannotRemoveSelf(removes) in m.rules
    ensures SelfRespecting(RolesOf(t, a, m.scope), RolesOf(RunChanges(m, t, cs), a, m.scope), adds, removes)
    ensures adds == removes == [] ==> RolesOf(RunChanges(m, t, cs), a, m.scope) == RolesOf(t, a, m.scope)
  {
    if cs != [] {
      var before := RunChanges(m, t, cs[..|cs| - 1]);
      SelfChangesAreRuled(m, t, cs[..|cs| - 1], a, adds, removes);
      RunsStayGood(m, t, cs[..|cs| - 1]);
      SelfChange(m, before, cs[|cs| - 1], a, adds, removes);
      Respectively(RolesOf(t, a, m.scope), RolesOf(before, a, m.scope),
                   RolesOf(RunChanges(m, t, cs), a, m.scope), adds, removes);
    }
    Unruled(RolesOf(t, a, m.scope), RolesOf(RunChanges(m, t, cs), a, m.scope));
  }

  lemma Unruled(before: set<RoleId>, after: set<RoleId>)
    ensures SelfRespecting(before, after, [], []) <==> before == after
  {
    if SelfRespecting(before, after, [], []) {
      assert forall r :: r in before <==> r in after - before || r in before - (before - after);
    }
  }

  // --- bulk removal under the removal rule alone ----------------------------------------------------------

  /** The removal rule counts before anything is removed, so whatever the
      assignment rules do meanwhile, one of the hits it saw spared stays. */
  lemma BulkKeepsHolder(m: Manager, t: Table, users: seq<string>, groups: seq<string>, assigner: Option<Principal>,
                        role: RoleId, min: int, kind: Option<string>)
    requires Good(t) && KeepAtLeast(role, min, kind) in m.removalRules
    requires HasHolder(t, role, m.scope, kind)
    ensures HasHolder(RemoveBulkUsers(m, t, users, groups, assigner), role, m.scope, kind)
  {
    if MayRemoveBulk(m, t, users, groups) {
      assert PermitsRemoval(KeepAtLeast(role, min, kind), t, m.scope, users, groups);
      SparedHolder(t, m.scope, users, groups, role, min, kind);
      var h :| h in HitsOf(t, role) && InScope(h.bindings, m.scope) && (kind.Some? ==> h.holder.kind == kind.value)
        && Spared(h.holder, users, groups);
      SparedKeeps(m, t, users, groups, assigner, role, h);
    }
  }

  lemma SparedKeeps(m: Manager, t: Table, users: seq<string>, groups: seq<string>, assigner: Option<Principal>,
                    role: RoleId, h: AssignmentHit)
    requires Good(t) && h in HitsOf(t, role) && Spared(h.holder, users, groups)
    ensures h in HitsOf(RemoveBulkUsers(m, t, users, groups, assigner), role)
  {
    ListingsAgree(t, role, h.holder, h.bindings);
    var t1 := RemoveFromEach(m, t, KIND_USER, users, assigner);
    EachOnlyLoses(m, t, KIND_USER, users, assigner, h.holder, role, h.bindings);
    EachOnlyLoses(m, t1, KIND_GROUP, groups, assigner, h.holder, role, h.bindings);
    assert h == AssignmentHit(role, h.bindings, h.holder);
    ListingsAgree(RemoveBulkUsers(m, t, users, groups, assigner), role, h.holder, h.bindings);
  }

  predicate Spared(p: Principal, users: seq<string>, groups: seq<string>) {
    (p.kind == KIND_USER ==> p.id !in users) && (p.kind == KIND_GROUP ==> p.id !in groups)
  }

  lemma SparedHolder(t: Table, sc: Scope, users: seq<string>, groups: seq<string>,
                     role: RoleId, min: int, kind: Option<string>)
    requires PermitsRemoval(KeepAtLeast(role, min, kind), t, sc, users, groups)
    requires HasHolder(t, role, sc, kind)
    ensures exists h :: h in HitsOf(t, role) && InScope(h.bindings, sc) && (kind.Some? ==> h.holder.kind == kind.value)
              && Spared(h.holder, users, groups)
  {
    var u, g := HeldBy(t, role, sc, KIND_USER), HeldBy(t, role, sc, KIND_GROUP);
    assert KIND_USER != KIND_GROUP && KIND_GROUP != KIND_TEAM && KIND_USER != KIND_TEAM;
    if (kind.None? || kind == Some(KIND_USER)) && |u| != |Among(u, users)| {
      SomeSpared(u, users);
    } else if (kind.None? || kind == Some(KIND_GROUP)) && |g| != |Among(g, groups)| {
      SomeSpared(g, groups);
    } else if kind.None? {
      var h :| h in HeldBy(t, role, sc, KIND_TEAM);
      assert Spared(h.holder, users, groups);
    } else {
      var h :| h in HitsOf(t, role) && InScope(h.bindings, sc) && h.holder.kind == kind.value;
      assert Spared(h.holder, users, groups);
    }
  }

  lemma SomeSpared(hits: set<AssignmentHit>, ids: seq<string>)
    requires |hits| != |Among(hits, ids)|
    ensures exists h :: h in hits && h.holder.id !in ids
  {
    assert Among(hits, ids) != hits;
    var h :| h in hits && h !in Among(hits, ids);
  }

  // --- what RequireAtLeast does not keep -----------------------------------------------------------------

  /** The rule of this kind lets no single change take the last holder. */
  ghost predicate KeepsOne(kind: Option<string>) {
    forall m: Manager, t, c, role, min ::
      Good(t) && RequireAtLeast(role, min, kind) in m.rules && HasHolder(t, role, m.scope, kind)
      ==> HasHolder(Changed(m, t, c), role, m.scope, kind)
  }

  /** The rule of this kind and minimum keeps the minimum. */
  ghost predicate KeepsMinimum(min: int, kind: Option<string>) {
    forall m: Manager, t, c, role ::
      Good(t) && RequireAtLeast(role, min, kind) in m.rules && |Holders(t, role, m.scope, kind)| >= min
      ==> |Holders(Changed(m, t, c), role, m.scope, kind)| >= min
  }

  /** Holders of the kind "role" are not counted, so a rule about them refuses
      nothing; about every other kind, and about all together, it holds. */
  lemma OnlyRolesAreUnprotected(kind: Option<string>)
    ensures KeepsOne(kind) <==> kind != Some(KIND_ROLE)
  {
    if kind != Some(KIND_ROLE) {
      forall m: Manager, t, c, role, min
        | Good(t) && RequireAtLeast(role, min, kind) in m.rules && HasHolder(t, role, m.scope, kind)
        ensures HasHolder(Changed(m, t, c), role, m.scope, kind)
      {
        ChangeKeepsHolder(m, t, c, role, min, kind);
      }
    } else {
      RolesMayGo(kind);
    }
  }

  lemma RolesMayGo(kind: Option<string>)
    requires kind == Some(KIND_ROLE)
    ensures !KeepsOne(kind)
  {
    var m := Manager(EVERYWHERE, {}, [RequireAtLeast("r", 1, kind)], []);
    var t, u, c := Crowd(KIND_ROLE, 1), Crowd(KIND_ROLE, 0), Remove(Member(KIND_ROLE, 1), ["r"], None);
    CrowdIsGood(KIND_ROLE, 1);
    CrowdLosesLast(m, KIND_ROLE, 1, 1, kind);
    CrowdSize(KIND_ROLE, 1, kind);
    CrowdSize(KIND_ROLE, 0, kind);
    HasHolderIsOne(t, "r", EVERYWHERE, kind);
    HasHolderIsOne(u, "r", EVERYWHERE, kind);
    LostBy(1, kind, m, t, c, u, "r");
  }

  lemma LostBy(min: int, kind: Option<string>, m: Manager, t: Table, c: Change, u: Table, role: RoleId)
    requires Good(t) && RequireAtLeast(role, min, kind) in m.rules && Changed(m, t, c) == u
    requires HasHolder(t, role, m.scope, kind) && !HasHolder(u, role, m.scope, kind)
    ensures !KeepsOne(kind)
  {
  }

  /** What the rule keeps of a kind: one holder, none of the kind "role", and
      of an unknown kind nobody is a holder at all. */
  predicate WithinReach(min: int, kind: Option<string>) {
    if kind == Some(KIND_ROLE) then min <= 0
    else kind.None? || ValidKind(kind.value) ==> min <= 1
  }

  /** The minimum of the rule is only ever printed: a minimum above one is not
      kept, nor is any of the kind "role". */
  lemma MinimumIsOne(min: int, kind: Option<string>)
    ensures KeepsMinimum(min, kind) <==> WithinReach(min, kind)
  {
    if WithinReach(min, kind) {
      forall m: Manager, t, c, role
        | Good(t) && RequireAtLeast(role, min, kind) in m.rules && |Holders(t, role, m.scope, kind)| >= min
        ensures |Holders(Changed(m, t, c), role, m.scope, kind)| >= min
      {
        if kind.Some? && !ValidKind(kind.value) {
          NobodyOfUnknownKind(t, role, m.scope, kind);
        } else if min == 1 {
          HasHolderIsOne(t, role, m.scope, kind);
          ChangeKeepsHolder(m, t, c, role, min, kind);
          HasHolderIsOne(Changed(m, t, c), role, m.scope, kind);
        }
      }
    } else {
      MinimumIsBroken(min, kind);
    }
  }

  lemma NobodyOfUnknownKind(t: Table, role: RoleId, sc: Scope, kind: Option<string>)
    requires Good(t) && kind.Some? && !ValidKind(kind.value)
    ensures Holders(t, role, sc, kind) == {}
  {
    forall h | h in HitsOf(t, role)
      ensures h.holder.kind != kind.value
    {
      ListingsAgree(t, role, h.holder, h.bindings);
    }
  }

  lemma MinimumIsBroken(min: int, kind: Option<string>)
    requires !WithinReach(min, kind)
    ensures !KeepsMinimum(min, kind)
  {
    var k := if kind.Some? then kind.value else KIND_USER;
    CrowdFalls(Manager(EVERYWHERE, {}, [RequireAtLeast("r", min, kind)], []), k, min, kind);
  }

  lemma CrowdFalls(m: Manager, k: string, min: nat, kind: Option<string>)
    requires ValidKind(k) && (kind.Some? ==> kind.value == k) && (k == KIND_ROLE ==> kind.Some?)
    requires min >= if k == KIND_ROLE then 1 else 2
    requires m.scope == EVERYWHERE && m.rules == [RequireAtLeast("r", min, kind)]
    ensures !KeepsMinimum(min, kind)
  {
    CrowdSize(k, min, kind);
    CrowdSize(k, min - 1, kind);
    CrowdLosesLast(m, k, min, min, kind);
    CrowdIsGood(k, min);
    BrokenBy(min, kind, m, Crowd(k, min), Remove(Member(k, min), ["r"], None), Crowd(k, min - 1), "r");
  }

  lemma CrowdIsGood(k: string, n: nat)
    requires ValidKind(k)
    ensures Good(Crowd(k, n))
  {
    CrowdMembers(k, n, Member(k, n));
  }

  lemma BrokenBy(min: int, kind: Option<string>, m: Manager, t: Table, c: Change, u: Table, role: RoleId)
    requires Good(t) && RequireAtLeast(role, min, kind) in m.rules && Changed(m, t, c) == u
    ensures KeepsMinimum(min, kind) ==>
              |Holders(t, role, m.scope, kind)| >= min ==> |Holders(u, role, m.scope, kind)| >= min
  {
  }

  lemma HasHolderIsOne(t: Table, role: RoleId, sc: Scope, kind: Option<string>)
    ensures HasHolder(t, role, sc, kind) <==> |Holders(t, role, sc, kind)| >= 1
  {
    if HasHolder(t, role, sc, kind) {
      var h :| h in HitsOf(t, role) && InScope(h.bindings, sc) && (kind.Some? ==> h.holder.kind == kind.value);
      assert h in Holders(t, role, sc, kind);
    } else {
      assert Holders(t, role, sc, kind) == {};
    }
  }

  const EVERYWHERE := Scope(None, None)

  /** n principals of one kind, each with the role "r" and no bindings. */
  function Stars(n: nat): string {
    if n == 0 then "" else Stars(n - 1) + "*"
  }

  lemma {:induction false} StarsLength(n: nat)
    ensures |Stars(n)| == n
  {
    if n > 0 { StarsLength(n - 1); }
  }

  function Member(k: string, n: nat): Principal {
    Principal(k, Stars(n))
  }

  function Crowd(k: string, n: nat): Table {
    if n == 0 then map[] else Crowd(k, n - 1)[PrincipalKey(Member(k, n)) := [RoleAssignment("r", map[])]]
  }

  lemma {:induction false} CrowdMembers(k: string, n: nat, q: Principal)
    requires ValidKind(k) && ValidKind(q.kind)
    ensures PrincipalKey(q) in Crowd(k, n) ==> q.kind == k && |q.id| <= n
    ensures Good(Crowd(k, n))
    ensures forall key :: key in Crowd(k, n) ==> Crowd(k, n)[key] == [RoleAssignment("r", map[])]
  {
    if n > 0 {
      CrowdMembers(k, n - 1, q);
      StarsLength(n);
      KeysAreInjective(q, Member(k, n));
      KeyRoundTrip(Member(k, n));
    }
  }

  lemma CrowdGrows(k: string, n: nat)
    requires ValidKind(k) && n >= 1
    ensures Good(Crowd(k, n)) && PrincipalKey(Member(k, n)) !in Crowd(k, n - 1)
    ensures var h := AssignmentHit("r", map[], Member(k, n));
      h !in HitsOf(Crowd(k, n - 1), "r") && HitsOf(Crowd(k, n), "r") == HitsOf(Crowd(k, n - 1), "r") + {h}
  {
    var p := Member(k, n);
    CrowdMembers(k, n - 1, p);
    CrowdMembers(k, n, p);
    StarsLength(n);
    NewRow(Crowd(k, n - 1), p, "r", map[]);
  }

  lemma NewRow(t: Table, p: Principal, role: RoleId, b: Bindings)
    requires Good(t) && ValidPrincipal(p) && PrincipalKey(p) !in t
    ensures var h := AssignmentHit(role, b, p);
      h !in HitsOf(t, role) && HitsOf(t[PrincipalKey(p) := [RoleAssignment(role, b)]], role) == HitsOf(t, role) + {h}
  {
    KeyRoundTrip(p);
    ListingsAgree(t, role, p, b);
  }

  lemma {:induction false} CrowdSize(k: string, n: nat, kind: Option<string>)
    requires ValidKind(k) && (kind.Some? ==> kind.value == k)
    ensures |Holders(Crowd(k, n), "r", EVERYWHERE, kind)| == n
  {
    if n == 0 {
      NoHolders(kind);
    } else {
      CrowdSize(k, n - 1, kind);
      MemberCounts(k, n, kind);
    }
  }

  lemma MemberCounts(k: string, n: nat, kind: Option<string>)
    requires ValidKind(k) && n >= 1 && (kind.Some? ==> kind.value == k)
    ensures |Holders(Crowd(k, n), "r", EVERYWHERE, kind)| == |Holders(Crowd(k, n - 1), "r", EVERYWHERE, kind)| + 1
  {
    CrowdGrows(k, n);
    OneMoreHolder(Crowd(k, n - 1), Crowd(k, n), AssignmentHit("r", map[], Member(k, n)), kind);
  }

  lemma NoHolders(kind: Option<string>)
    ensures Holders(map[], "r", EVERYWHERE, kind) == {}
  {
  }

  lemma OneMoreHolder(t: Table, u: Table, h: AssignmentHit, kind: Option<string>)
    requires HitsOf(u, "r") == HitsOf(t, "r") + {h} && h !in HitsOf(t, "r")
    requires kind.Some? ==> h.holder.kind == kind.value
    ensures |Holders(u, "r", EVERYWHERE, kind)| == |Holders(t, "r", EVERYWHERE, kind)| + 1
  {
    forall x
      ensures x in Holders(u, "r", EVERYWHERE, kind) <==> x in Holders(t, "r", EVERYWHERE, kind) || x == h
    {
      assert x in HitsOf(u, "r") <==> x in HitsOf(t, "r") || x == h;
    }
    OneMore(Holders(t, "r", EVERYWHERE, kind), Holders(u, "r", EVERYWHERE, kind), h);
  }

  lemma OneMore<T(!new)>(a: set<T>, b: set<T>, x: T)
    requires x !in a && forall y :: y in b <==> y in a || y == x
    ensures |b| == |a| + 1
  {
    assert b == a + {x};
  }

  /** A removal of the last member that passes takes it. */
  lemma LastIsRemoved(m: Manager, k: string, n: nat)
    requires ValidKind(k) && n >= 1 && m.scope == EVERYWHERE
    requires Passes(m, Crowd(k, n), Member(k, n), RolesOf(Crowd(k, n), Member(k, n), EVERYWHERE) - Elements(["r"]),
                    None)
    ensures Changed(m, Crowd(k, n), Remove(Member(k, n), ["r"], None)) == Crowd(k, n - 1)
  {
    MemberIsUnassigned(k, n);
  }

  /** Two members, or any number of the kind "role", and the last may go. */
  lemma CrowdLosesLast(m: Manager, k: string, n: nat, min: int, kind: Option<string>)
    requires ValidKind(k) && n >= 1 && m.scope == EVERYWHERE && m.rules == [RequireAtLeast("r", min, kind)]
    requires kind == Some(KIND_ROLE) || n >= 2
    requires kind.Some? ==> kind.value == k
    requires k == KIND_ROLE ==> kind.Some?
    ensures Changed(m, Crowd(k, n), Remove(Member(k, n), ["r"], None)) == Crowd(k, n - 1)
  {
    var t, p := Crowd(k, n), Member(k, n);
    StarsLength(n);
    LastMayGo(t, p, k, n, min, kind);
    var proposed := RolesOf(t, p, m.scope) - Elements(["r"]);
    forall rule | rule in m.rules
      ensures Permits(rule, t, m.scope, RolesOf(t, p, m.scope), proposed, p, None)
    {
    }
    LastIsRemoved(m, k, n);
  }

  lemma MemberIsUnassigned(k: string, n: nat)
    requires ValidKind(k) && n >= 1
    ensures ScopeBindings(EVERYWHERE) == map[]
    ensures UnassignAll(Crowd(k, n), Member(k, n), ["r"], map[]) == Crowd(k, n - 1)
  {
    StarsLength(n);
    CrowdGrows(k, n);
    UnassignOnly(Crowd(k, n - 1), Member(k, n), "r", map[]);
    var t1 := Crowd(k, n - 1);
    assert UnassignAll(t1, Member(k, n), [], map[]) == t1;
  }

  lemma UnassignOnly(t: Table, p: Principal, role: RoleId, b: Bindings)
    requires ValidPrincipal(p) && role != "" && PrincipalKey(p) !in t
    ensures Unassign(t[PrincipalKey(p) := [RoleAssignment(role, b)]], p, role, b) == Ok(t)
  {
    UnassignLast(t, p, role, b);
    assert Listing(t, p) == [] && [] + [RoleAssignment(role, b)] == [RoleAssignment(role, b)];
    WithoutAbsentKey(t, PrincipalKey(p));
  }

  lemma WithoutAbsentKey<K, V>(m: map<K, V>, k: K)
    requires k !in m
    ensures m - {k} == m
  {
  }

  lemma LastMayGo(t: Table, p: Principal, k: string, n: nat, min: int, kind: Option<string>)
    requires ValidKind(k) && n >= 1 && t == Crowd(k, n) && p == Member(k, n)
    requires kind == Some(KIND_ROLE) || n >= 2
    requires kind.Some? ==> kind.value == k
    requires k == KIND_ROLE ==> kind.Some?
    ensures var current := RolesOf(t, p, EVERYWHERE);
      Permits(RequireAtLeast("r", min, kind), t, EVERYWHERE, current, current - Elements(["r"]), p, None)
  {
    var current := RolesOf(t, p, EVERYWHERE);
    assert Listing(t, p) == [RoleAssignment("r", map[])];
    assert InScope(map[], EVERYWHERE);
    assert current == {"r"};
    var proposed := current - Elements(["r"]);
    assert proposed == {};
    CrowdSize(k, n, Some(k));
    assert HeldBy(t, "r", EVERYWHERE, k) == Holders(t, "r", EVERYWHERE, Some(k));
    assert Only(proposed - current, "r") == {} && Only(current - proposed, "r") == {"r"};
  }
}
