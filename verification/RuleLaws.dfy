// When a change by a role assignment manager goes through: for each rule, which
// additions and which removals it refuses, said of who holds what
// (role_assignment_manager.go:362-760).
module RuleLaws {
  import opened Types
  import opened Collections
  import opened Assignments
  import opened ManagerRules
  import opened InstanceBounds

  /** A rule about `kind` counts holders of kind k. */
  predicate Watched(kind: Option<string>, k: string) {
    CountedKind(k) && (kind.Some? ==> kind.value == k)
  }

  /** The in-scope holders of the role that a rule about `kind` counts. */
  ghost function Watching(t: Table, role: RoleId, sc: Scope, kind: Option<string>): set<AssignmentHit> {
    set h | h in HitsOf(t, role) && InScope(h.bindings, sc) && Watched(kind, h.holder.kind)
  }

  /** A rule about the empty role is about every role. */
  predicate Concerns(role: RoleId, r: RoleId) {
    role == "" || r == role
  }

  /** The rule refuses to let the assigner give p the roles, of which it holds `held`. */
  ghost predicate RefusesAdding(rule: Rule, t: Table, sc: Scope, held: set<RoleId>, p: Principal, roles: seq<RoleId>,
                                assigner: Option<Principal>)
  {
    match rule
    case CannotAddSelf(ruled) =>
      assigner == Some(p) && exists r :: r in roles && r !in held && (ruled == [] || r in ruled)
    case CannotRemoveSelf(_) => false
    case CannotCombine(a, b) => (a in held || a in roles) && (b in held || b in roles)
    case RequireAtLeast(role, _, kind) =>
      && CountedOrAll(kind)
      && Watching(t, role, sc, kind) == {}
      && !(Watched(kind, p.kind) && exists r :: r in roles && r !in held && Concerns(role, r))
    case MinMaxInstances(role, min, max, kind) =>
      RefusesInstances(t, sc, role, role in held || role in roles, p, min, max, kind)
    case OtherRule(role, accepts) => !accepts(Holders(t, role, sc, None), held, held + Elements(roles), p, assigner)
  }

  /** The rule refuses to let the assigner take the roles from p. */
  ghost predicate RefusesRemoving(rule: Rule, t: Table, sc: Scope, held: set<RoleId>, p: Principal, roles: seq<RoleId>,
                                  assigner: Option<Principal>)
  {
    match rule
    case CannotAddSelf(_) => false
    case CannotRemoveSelf(ruled) =>
      assigner == Some(p) && exists r :: r in roles && r in held && (ruled == [] || r in ruled)
    case CannotCombine(a, b) => a in held && a !in roles && b in held && b !in roles
    case RequireAtLeast(role, _, kind) =>
      && CountedOrAll(kind)
      && var going := set r | r in held && r in roles && Concerns(role, r);
         |Watching(t, role, sc, kind)| == if Watched(kind, p.kind) then |going| else 0
    case MinMaxInstances(role, min, max, kind) =>
      RefusesInstances(t, sc, role, role in held && role !in roles, p, min, max, kind)
    case OtherRule(role, accepts) => !accepts(Holders(t, role, sc, None), held, held - Elements(roles), p, assigner)
  }

  /** What is held against the bounds: how often a principal with p's ID holds
      the role now, or nothing if p is not to hold it. */
  ghost function CountedNow(t: Table, sc: Scope, role: RoleId, holds: bool, p: Principal, kind: Option<string>): nat {
    if holds then |set h | h in Watching(t, role, sc, kind) && h.holder.id == p.id| else 0
  }

  ghost predicate RefusesInstances(t: Table, sc: Scope, role: RoleId, holds: bool, p: Principal, min: int, max: int,
                                   kind: Option<string>)
  {
    CountedOrAll(kind) && OutOfBounds(CountedNow(t, sc, role, holds, p, kind), min, max)
  }

  // --- the counts of the three kinds together ------------------------------------------------

  lemma ThreeParts<T>(all: set<T>, a: set<T>, b: set<T>, c: set<T>)
    requires forall x :: x in all <==> x in a || x in b || x in c
    requires a !! b && a !! c && b !! c
    ensures |all| == |a| + |b| + |c|
  {
    assert all == a + b + c;
  }

  /** The counted hits, of these IDs if given. */
  ghost function WatchedOf(t: Table, role: RoleId, sc: Scope, kind: Option<string>, ids: Option<seq<string>>)
    : set<AssignmentHit>
  {
    set h | h in Watching(t, role, sc, kind) && (ids.Some? ==> h.holder.id in ids.value)
  }

  lemma WatchingSplits(t: Table, role: RoleId, sc: Scope, kind: Option<string>, ids: Option<seq<string>>)
    ensures |WatchedOf(t, role, sc, kind, ids)|
         == |Of(t, role, sc, kind, KIND_USER, ids)| + |Of(t, role, sc, kind, KIND_GROUP, ids)|
            + |Of(t, role, sc, kind, KIND_TEAM, ids)|
  {
    forall h
      ensures h in WatchedOf(t, role, sc, kind, ids)
          <==> || h in Of(t, role, sc, kind, KIND_USER, ids) || h in Of(t, role, sc, kind, KIND_GROUP, ids)
               || h in Of(t, role, sc, kind, KIND_TEAM, ids)
    {
      InOf(t, role, sc, kind, ids, h);
    }
    ThreeParts(WatchedOf(t, role, sc, kind, ids), Of(t, role, sc, kind, KIND_USER, ids),
               Of(t, role, sc, kind, KIND_GROUP, ids), Of(t, role, sc, kind, KIND_TEAM, ids));
  }

  lemma InOf(t: Table, role: RoleId, sc: Scope, kind: Option<string>, ids: Option<seq<string>>, h: AssignmentHit)
    ensures h in WatchedOf(t, role, sc, kind, ids)
        <==> CountedKind(h.holder.kind) && h in Of(t, role, sc, kind, h.holder.kind, ids)
    ensures forall k :: h in Of(t, role, sc, kind, k, ids) ==> k == h.holder.kind
  {
  }

  ghost function Of(t: Table, role: RoleId, sc: Scope, kind: Option<string>, k: string, ids: Option<seq<string>>)
    : set<AssignmentHit>
  {
    set h | h in HeldBy(t, role, sc, k) && Watched(kind, k) && (ids.Some? ==> h.holder.id in ids.value)
  }

  lemma OfIs(t: Table, role: RoleId, sc: Scope, kind: Option<string>, k: string, ids: seq<string>)
    ensures |Of(t, role, sc, kind, k, None)| == if Watched(kind, k) then |HeldBy(t, role, sc, k)| else 0
    ensures |Of(t, role, sc, kind, k, Some(ids))|
         == if Watched(kind, k) then |Among(HeldBy(t, role, sc, k), ids)| else 0
  {
    if Watched(kind, k) {
      assert Of(t, role, sc, kind, k, None) == HeldBy(t, role, sc, k);
      assert Of(t, role, sc, kind, k, Some(ids)) == Among(HeldBy(t, role, sc, k), ids);
    } else {
      assert Of(t, role, sc, kind, k, None) == {};
      assert Of(t, role, sc, kind, k, Some(ids)) == {};
    }
  }

  predicate OutOfBounds(n: int, min: int, max: int) {
    n < min || (max > 0 && n > max)
  }

  lemma BoundsTogether(kind: Option<string>, min: int, max: int, u: nat, g: nat, n: nat)
    ensures WithinBounds(kind, min, max, u, g, n)
         <==> !(CountedOrAll(kind)
                && OutOfBounds((if Watched(kind, KIND_USER) then u else 0)
                               + (if Watched(kind, KIND_GROUP) then g else 0)
                               + if Watched(kind, KIND_TEAM) then n else 0, min, max))
  {
  }

  lemma InstancesExactly(t: Table, sc: Scope, held: set<RoleId>, proposed: set<RoleId>, p: Principal,
                         assigner: Option<Principal>, role: RoleId, min: int, max: int, kind: Option<string>)
    ensures Permits(MinMaxInstances(role, min, max, kind), t, sc, held, proposed, p, assigner)
         <==> !RefusesInstances(t, sc, role, role in proposed, p, min, max, kind)
  {
    var ids := if role in proposed then [p.id] else [];
    BoundsTogether(kind, min, max, |Among(HeldBy(t, role, sc, KIND_USER), ids)|,
                   |Among(HeldBy(t, role, sc, KIND_GROUP), ids)|, |Among(HeldBy(t, role, sc, KIND_TEAM), ids)|);
    CountedOfIds(t, sc, role, role in proposed, p, kind);
  }

  lemma CountedOfIds(t: Table, sc: Scope, role: RoleId, holds: bool, p: Principal, kind: Option<string>)
    ensures var ids := if holds then [p.id] else [];
      var counts := (k: string) => if Watched(kind, k) then |Among(HeldBy(t, role, sc, k), ids)| else 0;
      CountedNow(t, sc, role, holds, p, kind) == counts(KIND_USER) + counts(KIND_GROUP) + counts(KIND_TEAM)
  {
    var ids := if holds then [p.id] else [];
    WatchingSplits(t, role, sc, kind, Some(ids));
    OfIs(t, role, sc, kind, KIND_USER, ids);
    OfIs(t, role, sc, kind, KIND_GROUP, ids);
    OfIs(t, role, sc, kind, KIND_TEAM, ids);
    if holds {
      assert WatchedOf(t, role, sc, kind, Some(ids)) == set h | h in Watching(t, role, sc, kind) && h.holder.id == p.id;
    } else {
      assert WatchedOf(t, role, sc, kind, Some(ids)) == {};
    }
  }

  lemma KindsTogether(t: Table, sc: Scope, p: Principal, role: RoleId, kind: Option<string>, come: nat, go: nat)
    requires come == 0 || go == 0
    requires go > 0 && CountedKind(p.kind) ==> HeldBy(t, role, sc, p.kind) != {} || role == ""
    requires go > 0 ==> role == "" || go == 1
    requires role == "" ==> HitsOf(t, role) == {}
    ensures Leaves(t, sc, p, role, kind, come, go)
         <==> !(CountedOrAll(kind)
                && |Watching(t, role, sc, kind)| + (if Watched(kind, p.kind) then come else 0)
                   == if Watched(kind, p.kind) then go else 0)
  {
    WatchingSplits(t, role, sc, kind, None);
    assert WatchedOf(t, role, sc, kind, None) == Watching(t, role, sc, kind);
    OfIs(t, role, sc, kind, KIND_USER, []);
    OfIs(t, role, sc, kind, KIND_GROUP, []);
    OfIs(t, role, sc, kind, KIND_TEAM, []);
  }

  /** Nobody holds the empty role, and what a principal holds in scope is a hit. */
  lemma HeldIsHit(t: Table, p: Principal, sc: Scope, role: RoleId)
    requires Good(t) && ValidPrincipal(p)
    ensures HitsOf(t, "") == {}
    ensures role in RolesOf(t, p, sc) ==> HeldBy(t, role, sc, p.kind) != {}
  {
    if h :| h in HitsOf(t, "") {
      RolesAreNamed(t, "", h);
    }
    if role in RolesOf(t, p, sc) {
      var a :| a in Listing(t, p) && InScope(a.bindings, sc) && a.role == role;
      ListingsAgree(t, role, p, a.bindings);
      assert AssignmentHit(role, a.bindings, p) in HeldBy(t, role, sc, p.kind);
    }
  }

  lemma NewRoles(held: set<RoleId>, roles: seq<RoleId>, role: RoleId)
    ensures Only(held - (held + Elements(roles)), role) == {}
    ensures (exists r :: r in roles && r !in held && Concerns(role, r))
            <==> Only(held + Elements(roles) - held, role) != {}
  {
    var added := Only(held + Elements(roles) - held, role);
    assert Only(held - (held + Elements(roles)), role) == {};
    forall r
      ensures r in added <==> r in roles && r !in held && Concerns(role, r)
    {
    }
  }

  lemma GoneRoles(held: set<RoleId>, roles: seq<RoleId>, role: RoleId)
    ensures Only(held - Elements(roles) - held, role) == {}
    ensures Only(held - (held - Elements(roles)), role) == set r | r in held && r in roles && Concerns(role, r)
    ensures role != "" ==>
              (set r | r in held && r in roles && Concerns(role, r))
              == if role in held && role in roles then {role} else {}
  {
    assert Only(held - Elements(roles) - held, role) == {};
  }

  lemma FirstMayCome(t: Table, sc: Scope, p: Principal, roles: seq<RoleId>, assigner: Option<Principal>, role: RoleId,
                     min: int, kind: Option<string>)
    requires Good(t) && ValidPrincipal(p)
    ensures var held, rule := RolesOf(t, p, sc), RequireAtLeast(role, min, kind);
      Permits(rule, t, sc, held, held + Elements(roles), p, assigner)
      <==> !RefusesAdding(rule, t, sc, held, p, roles, assigner)
  {
    var held := RolesOf(t, p, sc);
    PermitsIfLeaves(t, sc, held, held + Elements(roles), p, assigner, role, min, kind);
    NewRoles(held, roles, role);
    HeldIsHit(t, p, sc, role);
    KindsTogether(t, sc, p, role, kind, |Only(held + Elements(roles) - held, role)|, 0);
  }

  lemma LastMustStay(t: Table, sc: Scope, p: Principal, roles: seq<RoleId>, assigner: Option<Principal>, role: RoleId,
                     min: int, kind: Option<string>)
    requires Good(t) && ValidPrincipal(p)
    ensures var held, rule := RolesOf(t, p, sc), RequireAtLeast(role, min, kind);
      Permits(rule, t, sc, held, held - Elements(roles), p, assigner)
      <==> !RefusesRemoving(rule, t, sc, held, p, roles, assigner)
  {
    var held := RolesOf(t, p, sc);
    PermitsIfLeaves(t, sc, held, held - Elements(roles), p, assigner, role, min, kind);
    GoneRoles(held, roles, role);
    HeldIsHit(t, p, sc, role);
    KindsTogether(t, sc, p, role, kind, 0, |Only(held - (held - Elements(roles)), role)|);
  }

  lemma AddingExactly(rule: Rule, t: Table, sc: Scope, p: Principal, roles: seq<RoleId>, assigner: Option<Principal>)
    requires Good(t) && ValidPrincipal(p)
    ensures var held := RolesOf(t, p, sc);
      Permits(rule, t, sc, held, held + Elements(roles), p, assigner)
      <==> !RefusesAdding(rule, t, sc, held, p, roles, assigner)
  {
    var held := RolesOf(t, p, sc);
    var proposed := held + Elements(roles);
    match rule
    case CannotAddSelf(ruled) => assert forall r :: r in proposed - held <==> r in roles && r !in held;
    case CannotRemoveSelf(_) => assert held - proposed == {};
    case MinMaxInstances(role, min, max, kind) =>
      InstancesExactly(t, sc, held, proposed, p, assigner, role, min, max, kind);
    case RequireAtLeast(role, min, kind) => FirstMayCome(t, sc, p, roles, assigner, role, min, kind);
    case _ =>
  }

  lemma RemovingExactly(rule: Rule, t: Table, sc: Scope, p: Principal, roles: seq<RoleId>, assigner: Option<Principal>)
    requires Good(t) && ValidPrincipal(p)
    ensures var held := RolesOf(t, p, sc);
      Permits(rule, t, sc, held, held - Elements(roles), p, assigner)
      <==> !RefusesRemoving(rule, t, sc, held, p, roles, assigner)
  {
    var held := RolesOf(t, p, sc);
    var proposed := held - Elements(roles);
    match rule
    case CannotAddSelf(_) => assert proposed - held == {};
    case CannotRemoveSelf(ruled) => assert forall r :: r in held - proposed <==> r in roles && r in held;
    case MinMaxInstances(role, min, max, kind) =>
      InstancesExactly(t, sc, held, proposed, p, assigner, role, min, max, kind);
    case RequireAtLeast(role, min, kind) => LastMustStay(t, sc, p, roles, assigner, role, min, kind);
    case _ =>
  }

  // --- when a change goes through ---------------------------------------------------------------

  function Unruled(m: Manager): Manager {
    m.(rules := [])
  }

  /** An addition is refused as a whole when one rule refuses it, and otherwise
      goes as it goes without rules. */
  lemma AdditionExactly(m: Manager, t: Table, p: Principal, roles: seq<RoleId>, assigner: Option<Principal>)
    requires Good(t)
    ensures var held := RolesOf(t, p, m.scope);
      AddRoles(m, t, p, roles, assigner)
      == if exists rule :: rule in m.rules && RefusesAdding(rule, t, m.scope, held, p, roles, assigner) then t
         else AddRoles(Unruled(m), t, p, roles, assigner)
  {
    if ValidPrincipal(p) {
      forall rule | rule in m.rules
        ensures Permits(rule, t, m.scope, RolesOf(t, p, m.scope), RolesOf(t, p, m.scope) + Elements(roles), p, assigner)
            <==> !RefusesAdding(rule, t, m.scope, RolesOf(t, p, m.scope), p, roles, assigner)
      {
        AddingExactly(rule, t, m.scope, p, roles, assigner);
      }
    }
  }

  lemma RemovalExactly(m: Manager, t: Table, p: Principal, roles: seq<RoleId>, assigner: Option<Principal>)
    requires Good(t)
    ensures var held := RolesOf(t, p, m.scope);
      RemoveRoles(m, t, p, roles, assigner)
      == if exists rule :: rule in m.rules && RefusesRemoving(rule, t, m.scope, held, p, roles, assigner) then t
         else RemoveRoles(Unruled(m), t, p, roles, assigner)
  {
    if ValidPrincipal(p) {
      forall rule | rule in m.rules
        ensures Permits(rule, t, m.scope, RolesOf(t, p, m.scope), RolesOf(t, p, m.scope) - Elements(roles), p, assigner)
            <==> !RefusesRemoving(rule, t, m.scope, RolesOf(t, p, m.scope), p, roles, assigner)
      {
        RemovingExactly(rule, t, m.scope, p, roles, assigner);
      }
    }
  }

  /** A bulk removal names the holder. */
  predicate Leaving(h: AssignmentHit, users: seq<string>, groups: seq<string>) {
    || (h.holder.kind == KIND_USER && h.holder.id in users)
    || (h.holder.kind == KIND_GROUP && h.holder.id in groups)
  }

  /** The removal rule refuses when everybody it counts is named, nobody included. */
  ghost predicate RefusesBulk(rule: RemovalRule, t: Table, sc: Scope, users: seq<string>, groups: seq<string>) {
    match rule
    case KeepAtLeast(role, _, kind) =>
      CountedOrAll(kind) && forall h :: h in Watching(t, role, sc, kind) ==> Leaving(h, users, groups)
    case OtherRemovalRule(role, accepts) => !accepts(Holders(t, role, sc, None), users, groups)
  }

  lemma AllAmong(hits: set<AssignmentHit>, ids: seq<string>)
    ensures |Among(hits, ids)| == |hits| <==> forall h :: h in hits ==> h.holder.id in ids
  {
    var rest := hits - Among(hits, ids);
    assert hits == Among(hits, ids) + rest;
    assert |hits| == |Among(hits, ids)| + |rest|;
    assert rest == {} <==> forall h :: h in hits ==> h.holder.id in ids by {
      assert forall h :: h in rest <==> h in hits && h.holder.id !in ids;
    }
  }

  lemma BulkRuleExactly(rule: RemovalRule, t: Table, sc: Scope, users: seq<string>, groups: seq<string>)
    ensures PermitsRemoval(rule, t, sc, users, groups) <==> !RefusesBulk(rule, t, sc, users, groups)
  {
    if rule.KeepAtLeast? {
      var u, g, n := HeldBy(t, rule.role, sc, KIND_USER), HeldBy(t, rule.role, sc, KIND_GROUP),
                     HeldBy(t, rule.role, sc, KIND_TEAM);
      AllAmong(u, users);
      AllAmong(g, groups);
      var w := Watching(t, rule.role, sc, rule.kind);
      assert forall h :: h in w <==> (h in u || h in g || h in n) && Watched(rule.kind, h.holder.kind);
    }
  }

  /** A bulk removal is refused as a whole when one removal rule refuses it, and
      otherwise goes as it goes without removal rules. */
  lemma BulkExactly(m: Manager, t: Table, users: seq<string>, groups: seq<string>, assigner: Option<Principal>)
    ensures RemoveBulkUsers(m, t, users, groups, assigner)
         == if exists rule :: rule in m.removalRules && RefusesBulk(rule, t, m.scope, users, groups) then t
            else RemoveBulkUsers(m.(removalRules := []), t, users, groups, assigner)
  {
    forall rule | rule in m.removalRules
      ensures PermitsRemoval(rule, t, m.scope, users, groups) <==> !RefusesBulk(rule, t, m.scope, users, groups)
    {
      BulkRuleExactly(rule, t, m.scope, users, groups);
    }
    EachWithout(m, t, KIND_USER, users, assigner);
    EachWithout(m, RemoveFromEach(m, t, KIND_USER, users, assigner), KIND_GROUP, groups, assigner);
  }

  lemma {:induction false} EachWithout(m: Manager, t: Table, kind: string, ids: seq<string>,
                                       assigner: Option<Principal>)
    ensures RemoveFromEach(m.(removalRules := []), t, kind, ids, assigner) == RemoveFromEach(m, t, kind, ids, assigner)
    decreases |ids|
  {
    if ids != [] && ids[0] != "" {
      var p := Principal(kind, ids[0]);
      EachWithout(m, RemoveRoles(m, t, p, ScopedRoles(Listing(t, p), m.scope), assigner), kind, ids[1..], assigner);
    }
  }
}
