// From writes to verdicts: a request is granted by the procedure on a
// bootstrap store exactly when the policy says so, which knows only recorded
// inheritance edges, assignments and grants, no closure, cache of expansions,
// deduplication or fetching.
module EndToEnd {
  import opened Types
  import opened Collections
  import opened RoleGraph
  import opened Matching
  import opened Assignments
  import opened StoreModel
  import opened Decision
  import opened DecisionLaws
  import opened RoleExpansion
  import opened CacheLaws
  import opened FieldChecks
  import BuiltInRegistry
  import RoleIndex
  import opened AssignmentKeys
  import Effective
  import Policy

  /** The registry's grants and closure index. */
  datatype Registry = Registry(grants: seq<Grant>, index: RoleIndex.Index)

  /** c is a service on this store and registry at this moment. */
  ghost predicate Serves(c: Engine, s: State, b: Registry, now: Time) {
    ServesBase(c, s, now) && RegistryServes(c.builtIns, b, now)
  }

  ghost predicate RegistryServes(r: RegistryView, b: Registry, now: Time) {
    && (forall o, req: Request :: r.grantsForOwners(o, req) == BuiltInRegistry.RegistryGrants(b.grants, o, req, now))
    && (forall ids :: Elements(r.expandRoles(ids)) == RoleIndex.Expansion(b.index.rows, RoleIndex.Roots(ids)))
  }

  /** w has the answers of such a service. */
  ghost predicate Served(w: Service, s: State, b: Registry, now: Time) {
    && RegistryServes(w.builtIns, b, now)
    && (forall ids :: Elements(w.store.expandRoles(ids)) == RoleIndex.Expansion(s.index.rows, RoleIndex.Roots(ids)))
    && (forall o, req: Request :: w.store.grantsForOwners(o, req) == OrNone(OwnersGrants(s.grants, o, req, now)))
  }

  lemma AnswersAreServed(c: Engine, s: State, b: Registry, now: Time)
    requires Serves(c, s, b, now)
    ensures Served(Answers(c), s, b, now)
  {
    forall ids
      ensures Elements(Answers(c).store.expandRoles(ids)) == RoleIndex.Expansion(s.index.rows, RoleIndex.Roots(ids))
    {
      assert Expands(s, ids, c.backend.expandRoles(ids));
    }
  }

  // --- what the answers amount to -----------------------------------------------------

  /** Both sets of edges. */
  datatype Edges = Edges(custom: Graph, builtIn: Graph)
  {
    ghost function Both(): Graph { custom + builtIn }
  }

  /** The registry's grants go by owner ID, whatever their owner kind. */
  ghost predicate OwnedByRole(s: State, b: Registry, r: RoleId, g: Grant) {
    if IsBuiltIn(r) then g in b.grants && g.ownerId == r
    else g in s.grants && g.Owner() == Principal(KIND_ROLE, r)
  }

  ghost predicate InForce(g: Grant, req: Request, now: Time) {
    !g.ExpiredAt(now) && (req.permission == "" || g.permission == req.permission)
  }

  /** g belongs to an enabled role that the assignment's role reaches. */
  ghost predicate Conveys(w: Service, s: State, b: Registry, e: Edges, a: RoleAssignment, req: Request, now: Time,
                          g: Grant) {
    InForce(g, req, now) && exists r :: Reaches(e.Both(), a.role, r) && !Disabled(w, r) && OwnedByRole(s, b, r, g)
  }

  ghost predicate OwnedByCaller(w: Service, s: State, user: string, g: Grant) {
    g in s.grants && g.Owner() in DirectOwners(w, user)
  }

  /** A grant of the caller or its groups, or one conveyed to one of its
      assignments and bound to it. */
  ghost predicate Weighs(w: Service, s: State, b: Registry, e: Edges, req: Request, now: Time, g: Grant) {
    || (OwnedByCaller(w, s, req.user, g) && InForce(g, req, now))
    || exists a, h :: a in ActiveAssignments(w, req.user) && Conveys(w, s, b, e, a, req, now, h)
                      && ResolveGrantBindings(h, a) == Ok(g)
  }

  /** What the store pre-filters is not seen; the registry does not pre-filter. */
  predicate Seen(g: Grant, req: Request) {
    IsBuiltIn(g.ownerId) || PassesPreFilter(g, req)
  }

  /** A grant that is seen and cannot be bound blocks the request. */
  ghost predicate SeenBind(w: Service, s: State, b: Registry, e: Edges, req: Request, now: Time) {
    forall a, g :: a in ActiveAssignments(w, req.user) && Conveys(w, s, b, e, a, req, now, g) && Seen(g, req)
                   ==> ResolveGrantBindings(g, a).Ok?
  }

  ghost predicate Decided(w: Service, s: State, b: Registry, e: Edges, req: Request, path: Option<string>, now: Time,
                          deny: bool) {
    exists g :: Weighs(w, s, b, e, req, now, g) && g.IsDeny() == deny && Applicable(g, req, path)
  }

  ghost predicate WeighedGrants(w: Service, s: State, b: Registry, e: Edges, req: Request, path: Option<string>,
                               now: Time) {
    && req.permission != ""
    && SeenBind(w, s, b, e, req, now)
    && !Decided(w, s, b, e, req, path, now, true)
    && Decided(w, s, b, e, req, path, now, false)
  }

  // --- the service without the pre-filter ------------------------------------------------

  function Unfiltered(grants: seq<Grant>, owners: seq<Principal>, req: Request, now: Time): seq<Grant> {
    if !AllValid(owners) then []
    else Filter(grants, (g: Grant) => OwnedIn(g, StoreModel.KeysOf(owners)) && !g.ExpiredAt(now)
                                      && (req.permission == "" || g.permission == req.permission))
  }

  function WithoutPreFilter(w: Service, s: State, now: Time): Service {
    w.(store := w.store.(grantsForOwners := (o: seq<Principal>, req: Request) => Unfiltered(s.grants, o, req, now)))
  }

  ghost predicate CleanStore(s: State) {
    forall g :: g in s.grants ==> ValidKind(g.ownerKind) && CleanScope(g)
  }

  lemma OnlyThePreFilter(w: Service, s: State, b: Registry, now: Time)
    requires Served(w, s, b, now) && CleanStore(s)
    ensures PreFiltered(WithoutPreFilter(w, s, now), w) && CleanGrants(WithoutPreFilter(w, s, now))
  {
  }

  // --- what is fetched is what is conveyed ----------------------------------------------------

  ghost predicate Ready(w: Service, s: State, b: Registry, e: Edges, now: Time) {
    && Served(w, s, b, now) && CleanStore(s)
    && RoleIndex.Tracks(s.index, e.custom) && RoleIndex.Tracks(b.index, e.builtIn)
    && Routed(e.custom, e.builtIn) && forall x :: x in e.custom ==> !IsBuiltIn(x.0)
  }

  lemma OwnedInRoles(g: Grant, owners: seq<Principal>, roles: seq<RoleId>)
    requires ValidKind(g.ownerKind) && owners == OwnersAmong(roles, false)
    ensures OwnedIn(g, StoreModel.KeysOf(owners))
       <==> g.ownerKind == KIND_ROLE && g.ownerId in roles && !IsBuiltIn(g.ownerId)
  {
    forall p | p in owners
      ensures PrincipalKey(g.Owner()) == PrincipalKey(p) <==> g.Owner() == p
    {
      KeysAreInjective(g.Owner(), p);
    }
    if g.ownerKind == KIND_ROLE && g.ownerId in roles && !IsBuiltIn(g.ownerId) {
      assert g.Owner() in owners;
    }
  }

  lemma RegistryAnswers(b: Registry, roles: seq<RoleId>, req: Request, now: Time, g: Grant)
    ensures g in BuiltInRegistry.RegistryGrants(b.grants, OwnersAmong(roles, true), req, now)
       <==> g in b.grants && g.ownerId in roles && IsBuiltIn(g.ownerId) && InForce(g, req, now)
  {
    var owners := OwnersAmong(roles, true);
    forall r
      ensures r in BuiltInRegistry.RoleIdsOf(owners) <==> r in roles && IsBuiltIn(r)
    {
      assert Principal(KIND_ROLE, r) in owners <==> r in roles && IsBuiltIn(r);
    }
  }

  lemma StoreAnswers(s: State, roles: seq<RoleId>, req: Request, now: Time, g: Grant)
    requires CleanStore(s) && forall r :: r in roles ==> r != ""
    ensures g in Unfiltered(s.grants, OwnersAmong(roles, false), req, now)
       <==> g in s.grants && g.ownerKind == KIND_ROLE && g.ownerId in roles && !IsBuiltIn(g.ownerId)
            && InForce(g, req, now)
  {
    assert AllValid(OwnersAmong(roles, false));
    if g in s.grants {
      OwnedInRoles(g, OwnersAmong(roles, false), roles);
    }
  }

  ghost predicate OwnedByOneOf(s: State, b: Registry, roles: seq<RoleId>, g: Grant) {
    exists r :: r in roles && OwnedByRole(s, b, r, g)
  }

  lemma OwnedSplits(s: State, b: Registry, roles: seq<RoleId>, g: Grant)
    ensures OwnedByOneOf(s, b, roles, g) <==> g.ownerId in roles && OwnedByRole(s, b, g.ownerId, g)
  {
  }

  lemma FetchedIsOwned(w: Service, s: State, b: Registry, now: Time, roles: seq<RoleId>, req: Request, g: Grant)
    requires Served(w, s, b, now) && CleanStore(s) && forall r :: r in roles ==> r != ""
    ensures Relevant(RoleGrants(WithoutPreFilter(w, s, now), roles, req), roles, now, g)
       <==> InForce(g, req, now) && OwnedByOneOf(s, b, roles, g)
  {
    var u := WithoutPreFilter(w, s, now);
    RegistryAnswers(b, roles, req, now, g);
    StoreAnswers(s, roles, req, now, g);
    OwnedSplits(s, b, roles, g);
    NobodyOwnsNothing(s, b, roles, req, now);
  }

  lemma NobodyOwnsNothing(s: State, b: Registry, roles: seq<RoleId>, req: Request, now: Time)
    ensures OwnersAmong(roles, true) == [] ==> forall r :: r in roles ==> !IsBuiltIn(r)
    ensures OwnersAmong(roles, false) == [] ==> forall r :: r in roles ==> IsBuiltIn(r)
  {
    forall r | r in roles
      ensures Principal(KIND_ROLE, r) in OwnersAmong(roles, IsBuiltIn(r))
    {
    }
  }

  lemma RolesReached(w: Service, s: State, b: Registry, e: Edges, root: RoleId, r: RoleId, now: Time)
    requires Ready(w, s, b, e, now) && Normalised(root)
    ensures r in Expanded(WithoutPreFilter(w, s, now), root) <==> Reaches(e.Both(), root, r) && !Disabled(w, r)
    ensures r in Expanded(WithoutPreFilter(w, s, now), root) ==> r != ""
  {
    var u := WithoutPreFilter(w, s, now);
    ExpandedIsReachableMinusDisabled(u, s.index, b.index, e.custom, e.builtIn, root, r);
    if Reaches(e.Both(), root, r) {
      ReachesNormalised(e.Both(), root, r);
    }
  }

  lemma FetchedIsConveyed(w: Service, s: State, b: Registry, e: Edges, a: RoleAssignment, req: Request, now: Time,
                          g: Grant)
    requires Ready(w, s, b, e, now) && Normalised(a.role)
    ensures Carries(WithoutPreFilter(w, s, now), a, req, now, g) <==> Conveys(w, s, b, e, a, req, now, g)
  {
    var roles := Expanded(WithoutPreFilter(w, s, now), a.role);
    forall r {
      RolesReached(w, s, b, e, a.role, r, now);
    }
    FetchedIsOwned(w, s, b, now, roles, req, g);
  }

  lemma DirectIsOwned(w: Service, s: State, b: Registry, req: Request, now: Time, g: Grant)
    requires Served(w, s, b, now) && CleanStore(s) && "" !in Groups(w, req.user)
    ensures g in DirectGrants(WithoutPreFilter(w, s, now), req) && !g.ExpiredAt(now)
       <==> OwnedByCaller(w, s, req.user, g) && InForce(g, req, now)
  {
    var owners := DirectOwners(w, req.user);
    assert DirectOwners(WithoutPreFilter(w, s, now), req.user) == owners;
    assert AllValid(owners);
    if g in s.grants {
      forall p | p in owners
        ensures PrincipalKey(g.Owner()) == PrincipalKey(p) <==> g.Owner() == p
      {
        KeysAreInjective(g.Owner(), p);
      }
    }
  }

  // --- the verdict on the answers ----------------------------------------------------------

  /** The keys tell the caller's assignments apart, their role IDs have no
      surrounding space, and no binding is empty or "*". */
  ghost predicate CleanHeld(w: Service, user: string) {
    && KeysTellApart(w, RawAssignments(w, user))
    && forall a :: a in ActiveAssignments(w, user) ==> Normalised(a.role) && CleanBindings(a.bindings)
  }

  /** Without the pre-filter the request is decided by what the policy weighs. */
  lemma UnfilteredDecisions(w: Service, s: State, b: Registry, e: Edges, req: Request, path: Option<string>, now: Time)
    requires Ready(w, s, b, e, now) && CleanHeld(w, req.user)
    requires "" !in Groups(w, req.user)
    ensures var u, held := WithoutPreFilter(w, s, now), ActiveAssignments(w, req.user);
      && (Denied(u, held, req, path, now) <==> Decided(w, s, b, e, req, path, now, true))
      && (Allowed(u, held, req, path, now) <==> Decided(w, s, b, e, req, path, now, false))
  {
    var u, held := WithoutPreFilter(w, s, now), ActiveAssignments(w, req.user);
    forall a, g | a in held
      ensures Carries(u, a, req, now, g) <==> Conveys(w, s, b, e, a, req, now, g)
    {
      FetchedIsConveyed(w, s, b, e, a, req, now, g);
    }
    forall g
      ensures Bears(u, held, req, now, g) <==> Weighs(w, s, b, e, req, now, g)
    {
      DirectIsOwned(w, s, b, req, now, g);
    }
  }

  /** What the procedure fetches for an assignment is what is conveyed and seen. */
  lemma SeenIsFetched(w: Service, s: State, b: Registry, e: Edges, a: RoleAssignment, req: Request, now: Time, g: Grant)
    requires Ready(w, s, b, e, now) && Normalised(a.role)
    ensures Carries(w, a, req, now, g) <==> Conveys(w, s, b, e, a, req, now, g) && Seen(g, req)
  {
    var u := WithoutPreFilter(w, s, now);
    var roles := Expanded(u, a.role);
    assert Inherited(w, a.role) == Inherited(u, a.role);
    SameFilter(Inherited(w, a.role), r => !Disabled(w, r), r => !Disabled(u, r));
    forall r {
      RolesReached(w, s, b, e, a.role, r, now);
    }
    FetchedIsConveyed(w, s, b, e, a, req, now, g);
    OnlyThePreFilter(w, s, b, now);
    RegistryAnswers(b, roles, req, now, g);
    StoreAnswers(s, roles, req, now, g);
  }

  lemma SeenBindsExactly(w: Service, s: State, b: Registry, e: Edges, req: Request, now: Time)
    requires Ready(w, s, b, e, now) && CleanHeld(w, req.user)
    ensures SomeUnbound(w, ActiveAssignments(w, req.user), req, now) <==> !SeenBind(w, s, b, e, req, now)
  {
    forall a, g | a in ActiveAssignments(w, req.user)
      ensures Carries(w, a, req, now, g) <==> Conveys(w, s, b, e, a, req, now, g) && Seen(g, req)
    {
      SeenIsFetched(w, s, b, e, a, req, now, g);
    }
  }

  /** The verdict on the store's answers weighs what is conveyed. */
  lemma AnswersAreWeighed(w: Service, s: State, b: Registry, e: Edges, req: Request, path: Option<string>,
                              now: Time)
    requires Ready(w, s, b, e, now) && CleanHeld(w, req.user) && "" !in Groups(w, req.user)
    ensures Granted(w, Elements(Held(w, req.user)), req, path, now) <==> WeighedGrants(w, s, b, e, req, path, now)
  {
    DedupIsHarmless(w, req, path, now);
    if req.permission != "" {
      OnlyThePreFilter(w, s, b, now);
      UnfilteredDecisions(w, s, b, e, req, path, now);
      PreFilterKeepsDecisions(WithoutPreFilter(w, s, now), w, ActiveAssignments(w, req.user), req, path, now);
      SeenBindsExactly(w, s, b, e, req, now);
    }
  }

  /** The identity provider answers, and names no group or team by an empty ID. */
  ghost predicate Identified(c: Engine, user: string) {
    NamesAnswered(c, user) && "" !in Groups(Answers(c), user) && "" !in Teams(Answers(c), user)
  }

  lemma RolesCanBeAsked(c: Engine, s: State, b: Registry, e: Edges, a: RoleAssignment, req: Request, now: Time)
    requires Serves(c, s, b, now) && Ready(Answers(c), s, b, e, now) && Normalised(a.role)
    ensures RoleAnswered(c, a, req)
  {
    var w := Answers(c);
    assert Expands(s, [a.role], c.backend.expandRoles([a.role]));
    forall r | r in Expanded(w, a.role)
      ensures r != ""
    {
      ExpandedIsReachableMinusDisabled(w, s.index, b.index, e.custom, e.builtIn, a.role, r);
      ReachesNormalised(e.Both(), a.role, r);
    }
    assert AllValid(OwnersAmong(Expanded(w, a.role), false));
  }

  lemma HeldCanBeAsked(c: Engine, s: State, b: Registry, e: Edges, req: Request, now: Time)
    requires Serves(c, s, b, now) && Ready(Answers(c), s, b, e, now) && CleanHeld(Answers(c), req.user)
    ensures forall a :: a in Held(Answers(c), req.user) ==> RoleAnswered(c, a, req)
  {
    DedupDropsOnlyRepetitions(Answers(c), req.user);
    forall a | a in Held(Answers(c), req.user)
      ensures RoleAnswered(c, a, req)
    {
      assert a in Elements(Held(Answers(c), req.user));
      RolesCanBeAsked(c, s, b, e, a, req, now);
    }
  }

  lemma DirectCanBeAsked(c: Engine, s: State, req: Request, now: Time)
    requires ServesBase(c, s, now) && "" !in Groups(Answers(c), req.user)
    ensures GrantsAnswered(c, DirectOwners(Answers(c), req.user), req)
  {
    assert AllValid(DirectOwners(Answers(c), req.user));
  }

  lemma CallerCanBeAsked(c: Engine, s: State, user: string)
    requires ServesRoles(c, s)
    ensures AssignmentsAnswered(c, user) <==> Identified(c, user)
  {
    NamesCanBeAsked(c, s, KIND_GROUP, Groups(Answers(c), user));
    NamesCanBeAsked(c, s, KIND_TEAM, Teams(Answers(c), user));
  }

  lemma NamesCanBeAsked(c: Engine, s: State, kind: string, ids: seq<string>)
    requires ServesRoles(c, s) && ValidKind(kind)
    ensures Readable(c, kind, ids) <==> "" !in ids
  {
    forall id
      ensures c.backend.assignmentsFor(Principal(kind, id)).Ok? <==> id != ""
    {
    }
  }

  // --- the policy and the model ---------------------------------------------------------------

  function NamesOf(r: Result<seq<string>>, user: string): set<string> {
    if user == "" || r.Err? then {} else set x | x in r.value
  }

  /** What the policy reads of a service, its store, registry and edges. */
  ghost function SettingOf(c: Engine, s: State, b: Registry, e: Edges, user: string): Policy.Setting {
    Policy.Setting(s, c.builtIns.roles, b.grants, e.Both(), user,
                   NamesOf(c.backend.groupsOf(user), user), NamesOf(c.backend.teamsOf(user), user),
                   c.publicRole, c.authenticatedRole, c.adminRole, c.adminGroup)
  }

  lemma ListedByTable(c: Engine, s: State, kind: string, ids: seq<string>, a: RoleAssignment)
    requires ServesRoles(c, s) && ValidKind(kind) && "" !in ids
    ensures a in ListedAll(Answers(c), kind, ids) <==>
              exists id :: id in ids && a in Listing(s.table, Principal(kind, id))
  {
    forall id | id in ids
      ensures Answers(c).store.assignmentsFor(Principal(kind, id)) == Listing(s.table, Principal(kind, id))
    {
      assert c.backend.assignmentsFor(Principal(kind, id)).Ok?;
    }
  }

  lemma NamesAgree(c: Engine, user: string)
    requires NamesAnswered(c, user)
    ensures forall g :: g in Groups(Answers(c), user) <==> g in NamesOf(c.backend.groupsOf(user), user)
    ensures forall g :: g in Teams(Answers(c), user) <==> g in NamesOf(c.backend.teamsOf(user), user)
  {
  }

  /** Who holds what, as the procedure resolves it and as the policy says it. */
  lemma HeldIsHeld(c: Engine, s: State, b: Registry, e: Edges, user: string, a: RoleAssignment)
    requires ServesRoles(c, s) && Identified(c, user)
    ensures a in ActiveAssignments(Answers(c), user) <==> Policy.Holds(SettingOf(c, s, b, e, user), a)
  {
    var w, x := Answers(c), SettingOf(c, s, b, e, user);
    NamesAgree(c, user);
    ListedByTable(c, s, KIND_GROUP, Groups(w, user), a);
    ListedByTable(c, s, KIND_TEAM, Teams(w, user), a);
    assert a in OwnAssignments(w, user) <==> user != "" && a in Listing(s.table, Principal("user", user));
    ToAllIsSynthetic(c, s, b, e, user, a);
    CountsIsActive(c, s, b, e, user, a);
  }

  lemma ToAllIsSynthetic(c: Engine, s: State, b: Registry, e: Edges, user: string, a: RoleAssignment)
    requires NamesAnswered(c, user)
    ensures var w := Answers(c);
      a in SyntheticAssignments(w, user, Groups(w, user)) <==> Policy.AssignedToAll(SettingOf(c, s, b, e, user), a)
  {
    NamesAgree(c, user);
    assert a == RoleAssignment(a.role, a.bindings);
  }

  lemma CountsIsActive(c: Engine, s: State, b: Registry, e: Edges, user: string, a: RoleAssignment)
    requires ServesRoles(c, s)
    ensures Active(Answers(c), a) <==> Policy.Counts(SettingOf(c, s, b, e, user), a.role)
  {
    assert Answers(c).store.roleDefinition(a.role) == if a.role in s.roles then Some(s.roles[a.role]) else None;
  }

  lemma UsableIsEnabled(c: Engine, s: State, b: Registry, e: Edges, user: string, r: RoleId)
    requires ServesRoles(c, s)
    ensures Policy.Usable(SettingOf(c, s, b, e, user), r) <==> !Disabled(Answers(c), r)
  {
    assert Answers(c).store.roleDefinition(r) == if r in s.roles then Some(s.roles[r]) else None;
  }

  lemma SaysIsResolved(scope: string, values: Bindings, text: string)
    ensures Policy.Says(scope, values, text) <==> ResolveScopeToken(scope, values) == Ok(text)
  {
    assert "?" <= scope <==> scope != "" && scope[0] == '?';
  }

  lemma BoundIsResolved(g: Grant, a: RoleAssignment, b: Grant)
    ensures Policy.Bound(g, a, b) <==> ResolveGrantBindings(g, a) == Ok(b)
  {
    if HasVariables(g) {
      var values := if g.ownerKind == "role" then a.bindings else map[];
      SaysIsResolved(g.teamScope, values, b.teamScope);
      if g.objectScope.Some? && b.objectScope.Some? {
        SaysIsResolved(g.objectScope.value, values, b.objectScope.value);
      }
      assert BindingsFor(g, a).Ok? ==> BindingsFor(g, a).value == values;
    } else {
      NoVariables(g);
    }
  }

  lemma NoVariables(g: Grant)
    ensures HasVariables(g) <==> g.variableSpec != None && g.variableSpec != Some(map[])
  {
  }

  lemma AppliesAsPolicySays(g: Grant, req: Request, path: Option<string>)
    ensures Applicable(g, req, path) <==> Policy.Meets(g, req) && Policy.Covers(g, path)
    ensures g.IsDeny() == Policy.Denies(g)
  {
    forall field | path.Some? && field in g.restricted
      ensures FieldPathMatches(field, path.value) <==> Policy.AtOrBelow(field, path.value)
    {
      FieldPathMatchesExactly(field, path.value);
    }
  }

  lemma VisibleIsSeen(g: Grant, req: Request)
    ensures Policy.Visible(g, req) <==> Seen(g, req)
    ensures Policy.Shown(g.teamScope, req.team) && (g.objectScope.Some? ==> Policy.Shown(g.objectScope.value, req.obj))
       <==> PassesPreFilter(g, req)
  {
    assert forall scope: string :: "?" <= scope <==> IsTemplate(scope);
  }

  lemma ConveyedIsConveyed(c: Engine, s: State, b: Registry, e: Edges, a: RoleAssignment, req: Request, now: Time,
                           g: Grant)
    requires ServesRoles(c, s)
    ensures Conveys(Answers(c), s, b, e, a, req, now, g) <==>
              Policy.Conveys(SettingOf(c, s, b, e, req.user), a, req.permission, now, g)
  {
    forall r {
      UsableIsEnabled(c, s, b, e, req.user, r);
    }
  }

  lemma OwnIsOwned(c: Engine, s: State, b: Registry, e: Edges, req: Request, now: Time, g: Grant)
    requires NamesAnswered(c, req.user)
    ensures OwnedByCaller(Answers(c), s, req.user, g) && InForce(g, req, now) <==>
              Policy.OwnGrant(SettingOf(c, s, b, e, req.user), req.permission, now, g)
  {
    NamesAgree(c, req.user);
    assert g.Owner() == Principal(g.ownerKind, g.ownerId);
  }

  lemma WeighedIsWeighed(c: Engine, s: State, b: Registry, e: Edges, req: Request, now: Time, g: Grant)
    requires ServesRoles(c, s) && Identified(c, req.user)
    ensures Weighs(Answers(c), s, b, e, req, now, g) <==>
              Policy.Weighs(SettingOf(c, s, b, e, req.user), req.permission, now, g)
  {
    OwnIsOwned(c, s, b, e, req, now, g);
    forall a, h
      ensures a in ActiveAssignments(Answers(c), req.user) <==> Policy.Holds(SettingOf(c, s, b, e, req.user), a)
      ensures Conveys(Answers(c), s, b, e, a, req, now, h) <==>
                Policy.Conveys(SettingOf(c, s, b, e, req.user), a, req.permission, now, h)
      ensures ResolveGrantBindings(h, a) == Ok(g) <==> Policy.Bound(h, a, g)
    {
      HeldIsHeld(c, s, b, e, req.user, a);
      ConveyedIsConveyed(c, s, b, e, a, req, now, h);
      BoundIsResolved(h, a, g);
    }
  }

  lemma AllBindIsSeenBind(c: Engine, s: State, b: Registry, e: Edges, req: Request, now: Time)
    requires ServesRoles(c, s) && Identified(c, req.user)
    ensures SeenBind(Answers(c), s, b, e, req, now) <==> Policy.AllBind(SettingOf(c, s, b, e, req.user), req, now)
  {
    forall a, h
      ensures a in ActiveAssignments(Answers(c), req.user) <==> Policy.Holds(SettingOf(c, s, b, e, req.user), a)
      ensures Conveys(Answers(c), s, b, e, a, req, now, h) <==>
                Policy.Conveys(SettingOf(c, s, b, e, req.user), a, req.permission, now, h)
      ensures Seen(h, req) <==> Policy.Visible(h, req)
      ensures ResolveGrantBindings(h, a).Ok? <==> exists g :: Policy.Bound(h, a, g)
    {
      HeldIsHeld(c, s, b, e, req.user, a);
      ConveyedIsConveyed(c, s, b, e, a, req, now, h);
      VisibleIsSeen(h, req);
      BindsIsResolved(h, a);
    }
  }

  lemma BindsIsResolved(h: Grant, a: RoleAssignment)
    ensures ResolveGrantBindings(h, a).Ok? <==> exists g :: Policy.Bound(h, a, g)
  {
    forall g {
      BoundIsResolved(h, a, g);
    }
    if ResolveGrantBindings(h, a).Ok? {
      assert Policy.Bound(h, a, ResolveGrantBindings(h, a).value);
    }
  }

  lemma WeighedGrantsIsPolicy(c: Engine, s: State, b: Registry, e: Edges, req: Request, path: Option<string>, now: Time)
    requires ServesRoles(c, s) && Identified(c, req.user)
    ensures WeighedGrants(Answers(c), s, b, e, req, path, now) <==>
              Policy.Grants(SettingOf(c, s, b, e, req.user), req, path, now)
  {
    AllBindIsSeenBind(c, s, b, e, req, now);
    forall g
      ensures Weighs(Answers(c), s, b, e, req, now, g) <==>
                Policy.Weighs(SettingOf(c, s, b, e, req.user), req.permission, now, g)
      ensures Applicable(g, req, path) <==> Policy.Meets(g, req) && Policy.Covers(g, path)
      ensures g.IsDeny() == Policy.Denies(g)
    {
      WeighedIsWeighed(c, s, b, e, req, now, g);
      AppliesAsPolicySays(g, req, path);
    }
  }

  // --- the main result ------------------------------------------------------------------------

  /** The keys tell the caller's assignments apart, their role IDs have no
      surrounding space, and no binding is empty or "*". */
  ghost predicate CleanCaller(x: Policy.Setting) {
    && (forall a, d :: Policy.Holds(x, a) && Policy.Holds(x, d) && KeyText(a) == KeyText(d) ==> a == d)
    && forall a :: Policy.Holds(x, a) ==> Normalised(a.role) && CleanBindings(a.bindings)
  }

  lemma CleanCallerHoldsClean(c: Engine, s: State, b: Registry, e: Edges, user: string)
    requires ServesRoles(c, s) && Identified(c, user) && CleanCaller(SettingOf(c, s, b, e, user))
    ensures CleanHeld(Answers(c), user)
  {
    var w := Answers(c);
    forall a
      ensures a in ActiveAssignments(w, user) <==> Policy.Holds(SettingOf(c, s, b, e, user), a)
      ensures a in RawAssignments(w, user) && Active(w, a) <==> a in ActiveAssignments(w, user)
    {
      HeldIsHeld(c, s, b, e, user, a);
    }
  }

  /** On a bootstrap store a query fails exactly where the identity provider
      fails or names a group or team by an empty ID. */
  lemma AnsweredExactly(c: Engine, s: State, b: Registry, e: Edges, req: Request, now: Time)
    requires Serves(c, s, b, now) && Ready(Answers(c), s, b, e, now) && CleanCaller(SettingOf(c, s, b, e, req.user))
    ensures Answered(c, req) <==> Identified(c, req.user)
  {
    CallerCanBeAsked(c, s, req.user);
    if Identified(c, req.user) {
      CleanCallerHoldsClean(c, s, b, e, req.user);
      HeldCanBeAsked(c, s, b, e, req, now);
      DirectCanBeAsked(c, s, req, now);
    }
  }

  /** The procedure grants what the policy grants, to callers the identity
      provider answers for without an empty ID, and nothing to others. */
  lemma VerdictIsPolicy(c: Engine, s: State, b: Registry, e: Edges, req: Request, path: Option<string>, now: Time)
    requires Serves(c, s, b, now) && Ready(Answers(c), s, b, e, now) && CleanCaller(SettingOf(c, s, b, e, req.user))
    ensures Grants(c, req, path, now) <==>
              Identified(c, req.user) && Policy.Grants(SettingOf(c, s, b, e, req.user), req, path, now)
  {
    AnsweredExactly(c, s, b, e, req, now);
    if Identified(c, req.user) {
      CleanCallerHoldsClean(c, s, b, e, req.user);
      AnswersAreWeighed(Answers(c), s, b, e, req, path, now);
      WeighedGrantsIsPolicy(c, s, b, e, req, path, now);
    }
  }

  /** The edges a service hands to the store: trimmed non-empty IDs, and no
      built-in parent. */
  predicate StoreEdge(w: Write) {
    w.AddInheritance? && !RoleIndex.LinkRefused(w.parent, w.child)
    ==> Normalised(w.parent) && Normalised(w.child) && !IsBuiltIn(w.parent)
  }

  /** What reaches the registry: built-in roles, and links between them. */
  predicate RegistryOp(op: RoleIndex.Op) {
    || (op.Touch? && IsBuiltIn(op.role))
    || (op.Link? && BuiltInRegistry.LinkAllowed(op.parent, op.child) && Normalised(op.parent) && Normalised(op.child))
  }

  lemma {:induction false} StoreEdgesStay(ws: seq<Write>)
    requires forall w :: w in ws ==> StoreEdge(w)
    ensures forall x :: x in GhostGraph(ws) ==> Normalised(x.0) && Normalised(x.1) && !IsBuiltIn(x.0)
  {
    if ws != [] {
      var before := ws[..|ws| - 1];
      StoreEdgesStay(before);
      assert StoreEdge(ws[|ws| - 1]);
    }
  }

  lemma {:induction false} RegistryEdgesStay(ops: seq<RoleIndex.Op>)
    requires forall op :: op in ops ==> RegistryOp(op)
    ensures forall x :: x in RoleIndex.Run(ops).edges ==> Normalised(x.0) && Normalised(x.1)
  {
    if ops != [] {
      var before := ops[..|ops| - 1];
      RegistryEdgesStay(before);
      assert RegistryOp(ops[|ops| - 1]);
    }
  }

  lemma RunsAreRouted(ws: seq<Write>, ops: seq<RoleIndex.Op>)
    requires (forall w :: w in ws ==> StoreEdge(w)) && forall op :: op in ops ==> RegistryOp(op)
    ensures Routed(GhostGraph(ws), RoleIndex.Run(ops).edges)
    ensures forall x :: x in GhostGraph(ws) ==> !IsBuiltIn(x.0)
  {
    StoreEdgesStay(ws);
    RegistryEdgesStay(ops);
    BuiltInRegistry.RegistryIndex(ops);
  }

  /** Over every run of store writes and registrations: the verdict is the
      policy's over the edges recorded (a deleted role bypassed). */
  lemma EveryRunDecidesByPolicy(ws: seq<Write>, ops: seq<RoleIndex.Op>, registryGrants: seq<Grant>, c: Engine,
                                req: Request, path: Option<string>, now: Time)
    requires (forall w :: w in ws ==> StoreEdge(w)) && forall op :: op in ops ==> RegistryOp(op)
    requires var s, b := RunWrites(ws), Registry(registryGrants, RoleIndex.Run(ops));
      var e := Edges(GhostGraph(ws), RoleIndex.Run(ops).edges);
      Serves(c, s, b, now) && CleanStore(s) && CleanCaller(SettingOf(c, s, b, e, req.user))
    ensures var s, b := RunWrites(ws), Registry(registryGrants, RoleIndex.Run(ops));
      var e := Edges(GhostGraph(ws), RoleIndex.Run(ops).edges);
      Grants(c, req, path, now) <==>
        Identified(c, req.user) && Policy.Grants(SettingOf(c, s, b, e, req.user), req, path, now)
  {
    var s, b := RunWrites(ws), Registry(registryGrants, RoleIndex.Run(ops));
    StoresAreSound(ws);
    BuiltInRegistry.RegistryIndex(ops);
    RunsAreRouted(ws, ops);
    AnswersAreServed(c, s, b, now);
    VerdictIsPolicy(c, s, b, Edges(GhostGraph(ws), RoleIndex.Run(ops).edges), req, path, now);
  }

  // --- the cache and the listing ----------------------------------------------------------------------------

  /** The registry answers by the set of owners and of roots, as the transparency
      of the cache needs. */
  lemma RegistryIsBySet(c: Engine, b: Registry, now: Time)
    requires RegistryServes(c.builtIns, b, now)
    ensures RegistryBySet(c, now)
  {
    forall o, p, req: Request | Elements(o) == Elements(p)
      ensures c.builtIns.grantsForOwners(o, req) == c.builtIns.grantsForOwners(p, req)
    {
      SameMembers(o, p);
      assert BuiltInRegistry.RoleIdsOf(o) == BuiltInRegistry.RoleIdsOf(p);
    }
    forall a, d | Elements(a) == Elements(d)
      ensures Elements(c.builtIns.expandRoles(a)) == Elements(c.builtIns.expandRoles(d))
    {
      SameMembers(a, d);
      assert RoleIndex.Roots(a) == RoleIndex.Roots(d);
    }
  }

  /** What the listing is made of, as it is gathered and as the policy says it. */
  lemma ContributionIsPolicy(c: Engine, s: State, b: Registry, e: Edges, user: string, team: string, obj: string,
                             now: Time,
                             g: Grant)
    requires Serves(c, s, b, now) && Ready(Answers(c), s, b, e, now)
    requires Identified(c, user) && CleanCaller(SettingOf(c, s, b, e, user))
    ensures Effective.Contributes(Answers(c), ActiveAssignments(Answers(c), user), Request(user, team, obj, ""), now,
                                  g) <==>
              Policy.Contributes(SettingOf(c, s, b, e, user), team, obj, now, g)
  {
    var w, x, base := Answers(c), SettingOf(c, s, b, e, user), Request(user, team, obj, "");
    CleanCallerHoldsClean(c, s, b, e, user);
    OwnIsFetched(c, s, b, e, base, now, g);
    forall a, h
      ensures a in ActiveAssignments(w, user) && Carries(w, a, base, now, h) && ResolveGrantBindings(h, a) == Ok(g) <==>
                Policy.Holds(x, a) && Policy.Conveys(x, a, "", now, h) && Policy.Visible(h, base)
                       && Policy.Bound(h, a, g)
    {
      HeldIsHeld(c, s, b, e, user, a);
      BoundIsResolved(h, a, g);
      VisibleIsSeen(h, base);
      ConveyedIsConveyed(c, s, b, e, a, base, now, h);
      if a in ActiveAssignments(w, user) {
        SeenIsFetched(w, s, b, e, a, base, now, h);
      }
    }
    ContributesByCarried(w, ActiveAssignments(w, user), base, now, g);
  }

  lemma ContributesByCarried(w: Service, held: set<RoleAssignment>, base: Request, now: Time, g: Grant)
    ensures Effective.Contributes(w, held, base, now, g) <==>
              || (g in DirectGrants(w, base) && !g.ExpiredAt(now))
              || (Policy.ForTeam(g, base.team)
                  && exists a, h :: a in held && Carries(w, a, base, now, h) && ResolveGrantBindings(h, a) == Ok(g))
  {
    forall a, h | a in held && Carries(w, a, base, now, h) && ResolveGrantBindings(h, a)
           == Ok(g) && Policy.ForTeam(g, base.team)
      ensures Effective.Contributes(w, held, base, now, g)
    {
      Effective.ContributesFromCarried(w, held, base, now, a, h, g);
    }
    forall a | a in held && g in Effective.BoundOf(RoleGrants(w, Expanded(w, a.role), base), Expanded(w, a.role), a,
                                                  base.team, now)
      ensures Policy.ForTeam(g, base.team)
              && exists h :: Carries(w, a, base, now, h) && ResolveGrantBindings(h, a) == Ok(g)
    {
      var h :| h in RoleGrants(w, Expanded(w, a.role), base)
               && Effective.Counts(h, Expanded(w, a.role), a, base.team, now) && g == ResolveGrantBindings(h, a).value;
      assert Carries(w, a, base, now, h);
    }
  }

  lemma OwnIsFetched(c: Engine, s: State, b: Registry, e: Edges, base: Request, now: Time, g: Grant)
    requires Serves(c, s, b, now) && Ready(Answers(c), s, b, e, now) && Identified(c, base.user)
    ensures g in DirectGrants(Answers(c), base) && !g.ExpiredAt(now) <==>
              && Policy.OwnGrant(SettingOf(c, s, b, e, base.user), base.permission, now, g)
              && Policy.Shown(g.teamScope, base.team)
              && (g.objectScope.Some? ==> Policy.Shown(g.objectScope.value, base.obj))
  {
    var w := Answers(c);
    OnlyThePreFilter(w, s, b, now);
    DirectIsOwned(w, s, b, base, now, g);
    OwnIsOwned(c, s, b, e, base, now, g);
    VisibleIsSeen(g, base);
    assert DirectOwners(w, base.user) == DirectOwners(WithoutPreFilter(w, s, now), base.user);
  }

  lemma ContributionsArePolicy(c: Engine, s: State, b: Registry, e: Edges, user: string, team: string, obj: string,
                               now: Time,
                               g: Grant)
    requires Serves(c, s, b, now) && Ready(Answers(c), s, b, e, now)
    requires Identified(c, user) && CleanCaller(SettingOf(c, s, b, e, user))
    ensures g in Effective.Contributions(Answers(c), Held(Answers(c), user), Request(user, team, obj, ""), now) <==>
              Policy.Contributes(SettingOf(c, s, b, e, user), team, obj, now, g)
  {
    CleanCallerHoldsClean(c, s, b, e, user);
    DedupDropsOnlyRepetitions(Answers(c), user);
    Effective.ContributionMembers(Answers(c), Held(Answers(c), user), Request(user, team, obj, ""), now, g);
    ContributionIsPolicy(c, s, b, e, user, team, obj, now, g);
  }

  lemma ListsAsPolicy(w: Service, list: seq<Grant>, allowed: map<string, Effective.Entry>, x: Policy.Setting,
                      team: string,
                      obj: string, now: Time, key: string)
    requires Effective.Lists(w, list, allowed)
    requires forall g :: g in list <==> Policy.Contributes(x, team, obj, now, g)
    ensures key in allowed <==> Policy.Lists(x, team, obj, now, key)
  {
    forall g
      ensures Effective.Key(g) == Policy.JoinedKey(g) && g.IsDeny() == Policy.Denies(g)
    {
    }
  }

  lemma EntryAsPolicy(w: Service, list: seq<Grant>, allowed: map<string, Effective.Entry>, x: Policy.Setting,
                      team: string,
                      obj: string, now: Time, key: string)
    requires Effective.Lists(w, list, allowed) && key in allowed
    requires forall g :: g in list <==> Policy.Contributes(x, team, obj, now, g)
    ensures exists g :: Policy.Contributes(x, team, obj, now, g) && Policy.JoinedKey(g) == key && !Policy.Denies(g)
                        && Effective.FromAllow(w, allowed[key], g)
  {
    Effective.EntriesAreAllows(w, list, allowed, key);
    var g :| g in list && Effective.FromAllow(w, allowed[key], g);
    assert Policy.Contributes(x, team, obj, now, g);
  }

  /** The listing is the policy's: keys, and entry by entry an allow that
      contributes. */
  lemma ListingIsPolicy(c: Engine, s: State, b: Registry, e: Edges, user: string, team: string, obj: string, now: Time,
                        allowed: map<string, Effective.Entry>, key: string)
    requires Serves(c, s, b, now) && Ready(Answers(c), s, b, e, now)
    requires Identified(c, user) && CleanCaller(SettingOf(c, s, b, e, user))
    requires var w := Answers(c);
      Effective.Lists(w, Effective.Contributions(w, Held(w, user), Request(user, team, obj, ""), now), allowed)
    ensures key in allowed <==> Policy.Lists(SettingOf(c, s, b, e, user), team, obj, now, key)
    ensures key in allowed ==>
              exists g :: Policy.Contributes(SettingOf(c, s, b, e, user), team, obj, now, g)
                          && Policy.JoinedKey(g) == key && !Policy.Denies(g)
                          && Effective.FromAllow(Answers(c), allowed[key], g)
  {
    var w, x := Answers(c), SettingOf(c, s, b, e, user);
    var list := Effective.Contributions(w, Held(w, user), Request(user, team, obj, ""), now);
    forall g {
      ContributionsArePolicy(c, s, b, e, user, team, obj, now, g);
    }
    ListsAsPolicy(w, list, allowed, x, team, obj, now, key);
    if key in allowed {
      EntryAsPolicy(w, list, allowed, x, team, obj, now, key);
    }
  }

  /** Both halves of the service answer by permission, as the comparison of the
      listing with the verdict needs. */
  lemma ServedByPermission(w: Service, s: State, b: Registry, now: Time)
    requires Served(w, s, b, now)
    ensures Effective.SelectsByPermission(w.store.grantsForOwners)
    ensures Effective.SelectsByPermission(w.builtIns.grantsForOwners)
  {
  }
}
