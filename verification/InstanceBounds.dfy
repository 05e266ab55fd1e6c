// What MinMaxInstancesRule keeps (role_assignment_manager.go:491-622): it counts
// the holders of the assignee's ID only.
module InstanceBounds {
  import opened Types
  import opened Collections
  import opened Assignments
  import opened ManagerRules

  // --- MinMaxInstances counts the assignee only --------------------------------------------------------

  predicate CountedKind(kind: string) {
    kind in {KIND_USER, KIND_GROUP, KIND_TEAM}
  }

  /** A principal of this ID, of a counted kind, holds the role in scope. */
  ghost predicate Occupied(t: Table, role: RoleId, sc: Scope, kind: Option<string>, id: string) {
    exists h :: h in HitsOf(t, role) && InScope(h.bindings, sc) && h.holder.id == id && CountedKind(h.holder.kind)
                && (kind.Some? ==> h.holder.kind == kind.value)
  }

  /** For an assignee whose ID does not hold the role the count is zero, whether
      the role is proposed or not and whoever else holds it. */
  lemma MinMaxOfNewcomer(t: Table, sc: Scope, current: set<RoleId>, proposed: set<RoleId>, p: Principal,
                         assigner: Option<Principal>, role: RoleId, min: int, max: int, kind: Option<string>)
    requires kind.Some? ==> CountedKind(kind.value)
    requires !Occupied(t, role, sc, kind, p.id)
    ensures Permits(MinMaxInstances(role, min, max, kind), t, sc, current, proposed, p, assigner) <==> min <= 0
  {
    var ids := if role in proposed then [p.id] else [];
    forall k | CountedKind(k) && (kind.Some? ==> kind.value == k)
      ensures Among(HeldBy(t, role, sc, k), ids) == {}
    {
    }
    assert kind.None? || kind.value == KIND_USER ==> Among(HeldBy(t, role, sc, KIND_USER), ids) == {};
    assert kind.None? || kind.value == KIND_GROUP ==> Among(HeldBy(t, role, sc, KIND_GROUP), ids) == {};
    assert kind.None? || kind.value == KIND_TEAM ==> Among(HeldBy(t, role, sc, KIND_TEAM), ids) == {};
  }

  /** A removal lets nobody in. */
  lemma RemovalOccupiesNothing(m: Manager, t: Table, c: Change, role: RoleId, kind: Option<string>, id: string)
    requires Good(t) && !c.Add?
    ensures Occupied(Changed(m, t, c), role, m.scope, kind, id) ==> Occupied(t, role, m.scope, kind, id)
  {
    var u := Changed(m, t, c);
    ChangesStayGood(m, t, c);
    forall h | h in HitsOf(u, role)
      ensures h in HitsOf(t, role)
    {
      ListingsAgree(u, role, h.holder, h.bindings);
      match c
      case Remove(p, roles, assigner) => RemoveShrinks(m, t, p, roles, assigner);
      case RemoveBulk(users, groups, assigner) =>
        EachOnlyLoses(m, t, KIND_USER, users, assigner, h.holder, role, h.bindings);
        EachOnlyLoses(m, RemoveFromEach(m, t, KIND_USER, users, assigner), KIND_GROUP, groups, assigner,
                      h.holder, role, h.bindings);
      assert RoleAssignment(role, h.bindings) in Listing(t, h.holder);
      ListingsAgree(t, role, h.holder, h.bindings);
      assert h == AssignmentHit(role, h.bindings, h.holder);
    }
  }

  lemma AdditionOccupiesNothing(m: Manager, t: Table, p: Principal, roles: seq<RoleId>, assigner: Option<Principal>,
                                role: RoleId, min: int, max: int, kind: Option<string>, id: string)
    requires Good(t) && MinMaxInstances(role, min, max, kind) in m.rules && min >= 1
    requires kind.Some? ==> CountedKind(kind.value)
    requires !Occupied(t, role, m.scope, kind, id)
    ensures !Occupied(AddRoles(m, t, p, roles, assigner), role, m.scope, kind, id)
  {
    var u := AddRoles(m, t, p, roles, assigner);
    var proposed := RolesOf(t, p, m.scope) + Elements(roles);
    if p.id == id {
      MinMaxOfNewcomer(t, m.scope, RolesOf(t, p, m.scope), proposed, p, assigner, role, min, max, kind);
      assert !Passes(m, t, p, proposed, assigner);
    } else if Passes(m, t, p, proposed, assigner) {
      AddGrows(m, t, p, roles, assigner);
      forall h | h in HitsOf(u, role) && h.holder.id == id
        ensures h in HitsOf(t, role)
      {
        GrownHits(t, u, p, roles, ScopeBindings(m.scope), role, h);
      }
    }
  }

  /** With a minimum of one or more, over every run no ID comes to hold the role
      that did not hold it: the rule shuts out whom it should count. */
  lemma {:induction false} MinMaxAdmitsNobodyNew(m: Manager, t: Table, cs: seq<Change>, role: RoleId, min: int,
                                                 max: int,
                                                 kind: Option<string>, id: string)
    requires Good(t) && MinMaxInstances(role, min, max, kind) in m.rules && min >= 1
    requires kind.Some? ==> CountedKind(kind.value)
    requires !Occupied(t, role, m.scope, kind, id)
    ensures !Occupied(RunChanges(m, t, cs), role, m.scope, kind, id)
  {
    if cs != [] {
      var before, c := RunChanges(m, t, cs[..|cs| - 1]), cs[|cs| - 1];
      MinMaxAdmitsNobodyNew(m, t, cs[..|cs| - 1], role, min, max, kind, id);
      RunsStayGood(m, t, cs[..|cs| - 1]);
      if c.Add? {
        AdditionOccupiesNothing(m, before, c.p, c.roles, c.assigner, role, min, max, kind, id);
      } else {
        RemovalOccupiesNothing(m, before, c, role, kind, id);
      }
    }
  }

  // --- the minimum ------------------------------------------------------------------------------

  predicate CountedOrAll(kind: Option<string>) {
    kind.Some? ==> CountedKind(kind.value)
  }

  /** Without the role among the proposed nobody is counted. */
  lemma NothingProposed(t: Table, sc: Scope, current: set<RoleId>, proposed: set<RoleId>, p: Principal,
                        assigner: Option<Principal>, role: RoleId, min: int, max: int, kind: Option<string>)
    requires CountedOrAll(kind) && min >= 1 && role !in proposed
    ensures !Permits(MinMaxInstances(role, min, max, kind), t, sc, current, proposed, p, assigner)
  {
    forall k
      ensures Among(HeldBy(t, role, sc, k), []) == {}
    {
    }
  }

  lemma RemovalKeepsHits(m: Manager, t: Table, p: Principal, roles: seq<RoleId>, assigner: Option<Principal>,
                         role: RoleId, min: int, max: int, kind: Option<string>, h: AssignmentHit)
    requires Good(t) && MinMaxInstances(role, min, max, kind) in m.rules && min >= 1 && CountedOrAll(kind)
    ensures Good(RemoveRoles(m, t, p, roles, assigner))
    ensures h in HitsOf(t, role) ==> h in HitsOf(RemoveRoles(m, t, p, roles, assigner), role)
  {
    var u := RemoveRoles(m, t, p, roles, assigner);
    var proposed := RolesOf(t, p, m.scope) - Elements(roles);
    RemoveShrinks(m, t, p, roles, assigner);
    if role in roles {
      NothingProposed(t, m.scope, RolesOf(t, p, m.scope), proposed, p, assigner, role, min, max, kind);
      assert !Passes(m, t, p, proposed, assigner);
    } else if Passes(m, t, p, proposed, assigner) {
      GrownHits(u, t, p, roles, ScopeBindings(m.scope), role, h);
    }
  }

  lemma {:induction false} EachKeepsHits(m: Manager, t: Table, of: string, ids: seq<string>,
                                         assigner: Option<Principal>,
                                         role: RoleId, min: int, max: int, kind: Option<string>, h: AssignmentHit)
    requires Good(t) && MinMaxInstances(role, min, max, kind) in m.rules && min >= 1 && CountedOrAll(kind)
    ensures Good(RemoveFromEach(m, t, of, ids, assigner))
    ensures h in HitsOf(t, role) ==> h in HitsOf(RemoveFromEach(m, t, of, ids, assigner), role)
    decreases |ids|
  {
    if ids != [] && ids[0] != "" {
      var p := Principal(of, ids[0]);
      var roles := ScopedRoles(Listing(t, p), m.scope);
      RemovalKeepsHits(m, t, p, roles, assigner, role, min, max, kind, h);
      EachKeepsHits(m, RemoveRoles(m, t, p, roles, assigner), of, ids[1..], assigner, role, min, max, kind, h);
    }
  }

  lemma ChangeKeepsHits(m: Manager, t: Table, c: Change, role: RoleId, min: int, max: int, kind: Option<string>,
                        h: AssignmentHit)
    requires Good(t) && MinMaxInstances(role, min, max, kind) in m.rules && min >= 1 && CountedOrAll(kind)
    ensures h in HitsOf(t, role) ==> h in HitsOf(Changed(m, t, c), role)
  {
    match c
    case Add(p, roles, assigner) =>
      AddGrows(m, t, p, roles, assigner);
      if Passes(m, t, p, RolesOf(t, p, m.scope) + Elements(roles), assigner) {
        GrownHits(t, AddRoles(m, t, p, roles, assigner), p, roles, ScopeBindings(m.scope), role, h);
      }
    case Remove(p, roles, assigner) => RemovalKeepsHits(m, t, p, roles, assigner, role, min, max, kind, h);
    case RemoveBulk(users, groups, assigner) =>
      var t1 := RemoveFromEach(m, t, KIND_USER, users, assigner);
      EachKeepsHits(m, t, KIND_USER, users, assigner, role, min, max, kind, h);
      EachKeepsHits(m, t1, KIND_GROUP, groups, assigner, role, min, max, kind, h);
  }

  /** With a minimum of one or more, over every run nobody who holds the role
      loses it. */
  lemma {:induction false} MinMaxReleasesNobody(m: Manager, t: Table, cs: seq<Change>, role: RoleId, min: int, max: int,
                                                kind: Option<string>, h: AssignmentHit)
    requires Good(t) && MinMaxInstances(role, min, max, kind) in m.rules && min >= 1 && CountedOrAll(kind)
    requires h in HitsOf(t, role)
    ensures h in HitsOf(RunChanges(m, t, cs), role)
  {
    if cs != [] {
      MinMaxReleasesNobody(m, t, cs[..|cs| - 1], role, min, max, kind, h);
      RunsStayGood(m, t, cs[..|cs| - 1]);
      ChangeKeepsHits(m, RunChanges(m, t, cs[..|cs| - 1]), cs[|cs| - 1], role, min, max, kind, h);
    }
  }

  /** No change takes the holders below the minimum. */
  ghost predicate MinMaxKeepsMin(min: int, max: int, kind: Option<string>) {
    forall m: Manager, t, c, role ::
      Good(t) && MinMaxInstances(role, min, max, kind) in m.rules && |Holders(t, role, m.scope, kind)| >= min
      ==> |Holders(Changed(m, t, c), role, m.scope, kind)| >= min
  }

  lemma MinIsKept(m: Manager, t: Table, c: Change, role: RoleId, min: int, max: int, kind: Option<string>)
    requires Good(t) && MinMaxInstances(role, min, max, kind) in m.rules
    requires kind == Some(KIND_ROLE) ==> min <= 0
    requires |Holders(t, role, m.scope, kind)| >= min
    ensures |Holders(Changed(m, t, c), role, m.scope, kind)| >= min
  {
    if min >= 1 {
      if kind.Some? && !ValidKind(kind.value) {
        NobodyOfUnknownKind(t, role, m.scope, kind);
      }
      assert CountedOrAll(kind);
      forall h | h in Holders(t, role, m.scope, kind)
        ensures h in Holders(Changed(m, t, c), role, m.scope, kind)
      {
        ChangeKeepsHits(m, t, c, role, min, max, kind, h);
      }
      SubsetSize(Holders(t, role, m.scope, kind), Holders(Changed(m, t, c), role, m.scope, kind));
    }
  }

  /** The minimum is kept for every kind but "role", which is not counted. */
  lemma MinMaxKeepsMinExactly(min: int, max: int, kind: Option<string>)
    ensures MinMaxKeepsMin(min, max, kind) <==> kind != Some(KIND_ROLE) || min <= 0
  {
    if kind != Some(KIND_ROLE) || min <= 0 {
      forall m: Manager, t, c, role
        | Good(t) && MinMaxInstances(role, min, max, kind) in m.rules && |Holders(t, role, m.scope, kind)| >= min
        ensures |Holders(Changed(m, t, c), role, m.scope, kind)| >= min
      {
        MinIsKept(m, t, c, role, min, max, kind);
      }
    } else {
      RolesFallBelow(Manager(EVERYWHERE, {}, [MinMaxInstances("r", min, max, kind)], []), min, max, kind);
    }
  }

  lemma RolesFallBelow(m: Manager, min: nat, max: int, kind: Option<string>)
    requires kind == Some(KIND_ROLE) && min >= 1
    requires m.scope == EVERYWHERE && m.rules == [MinMaxInstances("r", min, max, kind)]
    ensures !MinMaxKeepsMin(min, max, kind)
  {
    var t, u, c := Crowd(KIND_ROLE, min), Crowd(KIND_ROLE, min - 1), Remove(Member(KIND_ROLE, min), ["r"], None);
    OneFewer(min, kind);
    LastRoleIsRemoved(m, min, max, kind);
    FellBelow(min, max, kind, m, t, c, u, "r");
  }

  lemma OneFewer(n: nat, kind: Option<string>)
    requires kind == Some(KIND_ROLE) && n >= 1
    ensures Good(Crowd(KIND_ROLE, n)) && |Holders(Crowd(KIND_ROLE, n), "r", EVERYWHERE, kind)| == n
    ensures |Holders(Crowd(KIND_ROLE, n - 1), "r", EVERYWHERE, kind)| == n - 1
  {
    CrowdSize(KIND_ROLE, n, kind);
    CrowdSize(KIND_ROLE, n - 1, kind);
    CrowdIsGood(KIND_ROLE, n);
  }

  lemma LastRoleIsRemoved(m: Manager, n: nat, max: int, kind: Option<string>)
    requires kind == Some(KIND_ROLE) && n >= 1
    requires m.scope == EVERYWHERE && m.rules == [MinMaxInstances("r", n, max, kind)]
    ensures Changed(m, Crowd(KIND_ROLE, n), Remove(Member(KIND_ROLE, n), ["r"], None)) == Crowd(KIND_ROLE, n - 1)
  {
    RoleKindPasses(m, Crowd(KIND_ROLE, n), Member(KIND_ROLE, n), n, max, kind);
    LastIsRemoved(m, KIND_ROLE, n);
  }

  /** A rule about the kind "role" refuses nothing. */
  lemma RoleKindPasses(m: Manager, t: Table, p: Principal, min: nat, max: int, kind: Option<string>)
    requires kind == Some(KIND_ROLE) && p == Member(KIND_ROLE, min) && min >= 1
    requires m.scope == EVERYWHERE && m.rules == [MinMaxInstances("r", min, max, kind)]
    ensures Passes(m, t, p, RolesOf(t, p, EVERYWHERE) - Elements(["r"]), None)
  {
    StarsLength(min);
  }

  lemma FellBelow(min: int, max: int, kind: Option<string>, m: Manager, t: Table, c: Change, u: Table, role: RoleId)
    requires Good(t) && MinMaxInstances(role, min, max, kind) in m.rules && Changed(m, t, c) == u
    ensures MinMaxKeepsMin(min, max, kind) ==>
              |Holders(t, role, m.scope, kind)| >= min ==> |Holders(u, role, m.scope, kind)| >= min
  {
  }

  // --- the maximum ------------------------------------------------------------------------------

  /** No change takes the holders above the maximum. */
  ghost predicate MinMaxKeepsMax(min: int, max: int, kind: Option<string>) {
    forall m: Manager, t, c, role ::
      Good(t) && MinMaxInstances(role, min, max, kind) in m.rules && |Holders(t, role, m.scope, kind)| <= max
      ==> |Holders(Changed(m, t, c), role, m.scope, kind)| <= max
  }

  /** Bounds nothing can meet refuse every change. */
  lemma NothingFits(m: Manager, t: Table, p: Principal, proposed: set<RoleId>, assigner: Option<Principal>,
                    role: RoleId, min: int, max: int, kind: Option<string>)
    requires MinMaxInstances(role, min, max, kind) in m.rules && CountedOrAll(kind) && 0 < max < min
    ensures !Passes(m, t, p, proposed, assigner)
  {
    assert !Permits(MinMaxInstances(role, min, max, kind), t, m.scope, RolesOf(t, p, m.scope), proposed, p, assigner);
  }

  lemma {:induction false} EachRefused(m: Manager, t: Table, of: string, ids: seq<string>, assigner: Option<Principal>,
                                       role: RoleId, min: int, max: int, kind: Option<string>)
    requires MinMaxInstances(role, min, max, kind) in m.rules && CountedOrAll(kind) && 0 < max < min
    ensures RemoveFromEach(m, t, of, ids, assigner) == t
    decreases |ids|
  {
    if ids != [] && ids[0] != "" {
      var p := Principal(of, ids[0]);
      var roles := ScopedRoles(Listing(t, p), m.scope);
      NothingFits(m, t, p, RolesOf(t, p, m.scope) - Elements(roles), assigner, role, min, max, kind);
      EachRefused(m, t, of, ids[1..], assigner, role, min, max, kind);
    }
  }

  lemma EverythingRefused(m: Manager, t: Table, c: Change, role: RoleId, min: int, max: int, kind: Option<string>)
    requires MinMaxInstances(role, min, max, kind) in m.rules && CountedOrAll(kind) && 0 < max < min
    ensures Changed(m, t, c) == t
  {
    match c
    case Add(p, roles, assigner) =>
      NothingFits(m, t, p, RolesOf(t, p, m.scope) + Elements(roles), assigner, role, min, max, kind);
    case Remove(p, roles, assigner) =>
      NothingFits(m, t, p, RolesOf(t, p, m.scope) - Elements(roles), assigner, role, min, max, kind);
    case RemoveBulk(users, groups, assigner) =>
      EachRefused(m, t, KIND_USER, users, assigner, role, min, max, kind);
      EachRefused(m, t, KIND_GROUP, groups, assigner, role, min, max, kind);
  }

  predicate Unknown(kind: Option<string>) {
    kind.Some? && !ValidKind(kind.value)
  }

  /** The maximum is kept only where the rule refuses every change or nobody can
      be a holder: it does not count those who come in. */
  lemma MinMaxKeepsMaxExactly(min: int, max: int, kind: Option<string>)
    requires max > 0
    ensures MinMaxKeepsMax(min, max, kind) <==> kind != Some(KIND_ROLE) && (min > max || Unknown(kind))
  {
    if kind != Some(KIND_ROLE) && (min > max || Unknown(kind)) {
      forall m: Manager, t, c, role
        | Good(t) && MinMaxInstances(role, min, max, kind) in m.rules && |Holders(t, role, m.scope, kind)| <= max
        ensures |Holders(Changed(m, t, c), role, m.scope, kind)| <= max
      {
        if Unknown(kind) {
          ChangesStayGood(m, t, c);
          NobodyOfUnknownKind(Changed(m, t, c), role, m.scope, kind);
        } else {
          EverythingRefused(m, t, c, role, min, max, kind);
        }
      }
    } else {
      var k := if kind.Some? then kind.value else KIND_USER;
      PileOverflows(Manager(EVERYWHERE, {"r"}, [MinMaxInstances("r", min, max, kind)], []), k, min, max, kind);
    }
  }

  /** One principal with n assignments of the role, each bound differently. */
  function Pile(n: nat): seq<RoleAssignment> {
    if n == 0 then [] else Pile(n - 1) + [RoleAssignment("r", map["n" := Str(Stars(n))])]
  }

  function Piled(k: string, n: nat): Table {
    map[PrincipalKey(Principal(k, "p")) := Pile(n)]
  }

  lemma {:induction false} PileMembers(n: nat, a: RoleAssignment)
    ensures a in Pile(n) ==> a.role == "r" && "n" in a.bindings && a.bindings["n"].Str? && |a.bindings["n"].s| <= n
  {
    if n > 0 {
      PileMembers(n - 1, a);
      StarsLength(n);
    }
  }

  lemma {:induction false} PileIsDistinct(n: nat)
    ensures PairwiseDistinct(Pile(n)) && |Pile(n)| == n
  {
    if n > 0 {
      PileIsDistinct(n - 1);
      StarsLength(n);
      var last := RoleAssignment("r", map["n" := Str(Stars(n))]);
      forall e | e in Pile(n - 1)
        ensures !SamePair(e, last)
      {
        PileMembers(n - 1, e);
      }
      AppendKeepsDistinct(Pile(n - 1), last);
    }
  }

  lemma DistinctElements(s: seq<RoleAssignment>)
    requires PairwiseDistinct(s)
    ensures |Elements(s)| == |s|
  {
    forall i, j | 0 <= i < j < |s|
      ensures s[i] != s[j]
    {
      MapEqualsSelf(s[i].bindings);
    }
    DistinctLength(s);
  }

  /** A table of one row, all of one role. */
  lemma OneRowHolders(k: string, list: seq<RoleAssignment>, kind: Option<string>)
    requires ValidKind(k) && (kind.Some? ==> kind.value == k) && PairwiseDistinct(list)
    requires forall a :: a in list ==> a.role == "r"
    ensures var t: Table := map[PrincipalKey(Principal(k, "p")) := list];
      && Good(t) && |Holders(t, "r", EVERYWHERE, kind)| == |list|
      && forall h :: h in Holders(t, "r", EVERYWHERE, kind) ==> h.holder == Principal(k, "p")
  {
    var p := Principal(k, "p");
    var t: Table := map[PrincipalKey(p) := list];
    KeyRoundTrip(p);
    DistinctElements(list);
    var hits := set a | a in Elements(list) :: HitFor(p, a);
    SameSizeImage(Elements(list), p);
    forall h
      ensures h in Holders(t, "r", EVERYWHERE, kind) <==> h in hits
    {
      OneRowHit(t, p, list, h);
    }
    assert Holders(t, "r", EVERYWHERE, kind) == hits;
  }

  function HitFor(p: Principal, a: RoleAssignment): AssignmentHit {
    AssignmentHit(a.role, a.bindings, p)
  }

  lemma OneRowHit(t: Table, p: Principal, list: seq<RoleAssignment>, h: AssignmentHit)
    requires t == map[PrincipalKey(p) := list] && ValidKind(p.kind) && forall a :: a in list ==> a.role == "r"
    ensures h in HitsOf(t, "r") <==> exists a :: a in list && h == HitFor(p, a)
  {
    KeyRoundTrip(p);
  }

  lemma {:induction false} SameSizeImage(s: set<RoleAssignment>, p: Principal)
    ensures |set a | a in s :: HitFor(p, a)| == |s|
    decreases s
  {
    var hits := set a | a in s :: HitFor(p, a);
    if s == {} {
      assert hits == {};
    } else {
      var x :| x in s;
      var rest := set a | a in s - {x} :: HitFor(p, a);
      SameSizeImage(s - {x}, p);
      assert HitFor(p, x) !in rest;
      assert hits == rest + {HitFor(p, x)};
    }
  }

  lemma PileOverflows(m: Manager, k: string, min: int, max: nat, kind: Option<string>)
    requires ValidKind(k) && (kind.Some? ==> kind.value == k) && (k == KIND_ROLE ==> kind.Some?)
    requires max > 0 && (kind != Some(KIND_ROLE) ==> min <= max)
    requires m.scope == EVERYWHERE && m.known == {"r"} && m.rules == [MinMaxInstances("r", min, max, kind)]
    ensures !MinMaxKeepsMax(min, max, kind)
  {
    var t, p := Piled(k, max), Principal(k, "p");
    var added := Pile(max) + [RoleAssignment("r", map[])];
    PileIsDistinct(max);
    forall a {
      PileMembers(max, a);
    }
    OneRowHolders(k, Pile(max), kind);
    PileGrows(max);
    OneRowHolders(k, added, kind);
    PileMayGrow(t, k, min, max, kind);
    OneIsAdded(m, k, max);
    Overflowed(min, max, kind, m, t, Add(p, ["r"], None), "r");
  }

  lemma PileGrows(n: nat)
    ensures PairwiseDistinct(Pile(n) + [RoleAssignment("r", map[])])
    ensures forall e :: e in Pile(n) ==> !SamePair(e, RoleAssignment("r", map[]))
    ensures forall e :: e in Pile(n) + [RoleAssignment("r", map[])] ==> e.role == "r"
  {
    PileIsDistinct(n);
    forall e | e in Pile(n)
      ensures !SamePair(e, RoleAssignment("r", map[])) && e.role == "r"
    {
      PileMembers(n, e);
    }
    AppendKeepsDistinct(Pile(n), RoleAssignment("r", map[]));
  }

  /** The rule counts what the assignee holds already, and not what comes. */
  lemma PileMayGrow(t: Table, k: string, min: int, max: nat, kind: Option<string>)
    requires ValidKind(k) && (kind.Some? ==> kind.value == k) && (k == KIND_ROLE ==> kind.Some?)
    requires max > 0 && (kind != Some(KIND_ROLE) ==> min <= max) && t == Piled(k, max)
    ensures var p, current := Principal(k, "p"), RolesOf(t, Principal(k, "p"), EVERYWHERE);
      Permits(MinMaxInstances("r", min, max, kind), t, EVERYWHERE, current, current + Elements(["r"]), p, None)
  {
    PileIsDistinct(max);
    forall a {
      PileMembers(max, a);
    }
    OneRowHolders(k, Pile(max), Some(k));
    OneRowHolders(k, Pile(max), None);
    assert "r" in Elements(["r"]);
    forall j
      ensures Among(HeldBy(t, "r", EVERYWHERE, j), ["p"]) == if j == k then Holders(t, "r", EVERYWHERE, Some(k)) else {}
    {
      forall h | h in HeldBy(t, "r", EVERYWHERE, j)
        ensures h.holder == Principal(k, "p")
      {
        assert h in Holders(t, "r", EVERYWHERE, None);
      }
    }
  }

  lemma OneIsAdded(m: Manager, k: string, n: nat)
    requires ValidKind(k) && m.scope == EVERYWHERE && m.known == {"r"}
    requires var t, p := Piled(k, n), Principal(k, "p");
      Passes(m, t, p, RolesOf(t, p, EVERYWHERE) + Elements(["r"]), None)
    ensures Changed(m, Piled(k, n), Add(Principal(k, "p"), ["r"], None))
         == map[PrincipalKey(Principal(k, "p")) := Pile(n) + [RoleAssignment("r", map[])]]
  {
    var t, p := Piled(k, n), Principal(k, "p");
    PileGrows(n);
    assert ScopeBindings(EVERYWHERE) == map[];
    var u: Table := map[PrincipalKey(p) := Pile(n) + [RoleAssignment("r", map[])]];
    assert Listing(t, p) == Pile(n);
    assert t[PrincipalKey(p) := Pile(n) + [RoleAssignment("r", map[])]] == u;
    assert Assign(t, p, "r", {"r"}, map[]) == Ok(u);
    assert AssignAll(u, p, [], {"r"}, map[]) == u;
  }

  lemma Overflowed(min: int, max: int, kind: Option<string>, m: Manager, t: Table, c: Change, role: RoleId)
    requires Good(t) && MinMaxInstances(role, min, max, kind) in m.rules
    ensures MinMaxKeepsMax(min, max, kind) ==>
              |Holders(t, role, m.scope, kind)| <= max ==> |Holders(Changed(m, t, c), role, m.scope, kind)| <= max
  {
  }
}
