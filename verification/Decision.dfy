// The decision procedure of service.go: two phases over the caller's grants
// with early exits, refined to an order-free verdict.
module Decision {
  import opened Types
  import opened Text
  import opened Collections
  import opened Matching
  import opened AssignmentKeys

  /** What a permission store and an identity provider answer, or fail to,
      while one request is decided. */
  datatype Backend = Backend(
    assignmentsFor: Principal -> Result<seq<RoleAssignment>>,
    roleDefinition: RoleId -> Result<Role>,
    expandRoles: seq<RoleId> -> Result<seq<RoleId>>,
    grantsForOwners: (seq<Principal>, Request) -> Result<seq<Grant>>,
    disabledBuiltIns: Result<set<RoleId>>,
    groupsOf: string -> Result<seq<string>>,
    teamsOf: string -> Result<seq<string>>)

  /** The service with what it asks. */
  datatype Engine = Engine(
    backend: Backend,
    builtIns: RegistryView,
    publicRole: RoleId,
    authenticatedRole: RoleId,
    adminRole: RoleId,
    adminGroup: string)

  /** The answers alone, on which the verdict is stated: a query that fails
      counts as answered with nothing. */
  datatype StoreView = StoreView(
    assignmentsFor: Principal -> seq<RoleAssignment>,
    roleDefinition: RoleId -> Option<Role>,
    expandRoles: seq<RoleId> -> seq<RoleId>,
    grantsForOwners: (seq<Principal>, Request) -> seq<Grant>,
    disabledBuiltIns: set<RoleId>)

  /** What the in-memory registry of built-in roles answers. */
  datatype RegistryView = RegistryView(
    roles: map<RoleId, Role>,
    expandRoles: seq<RoleId> -> seq<RoleId>,
    grantsForOwners: (seq<Principal>, Request) -> seq<Grant>)

  datatype Service = Service(
    store: StoreView,
    builtIns: RegistryView,
    groupsOf: string -> seq<string>,
    teamsOf: string -> seq<string>,
    publicRole: RoleId,
    authenticatedRole: RoleId,
    adminRole: RoleId,
    adminGroup: string)

  function OrNone<T>(r: Result<seq<T>>): seq<T> {
    if r.Ok? then r.value else []
  }

  function Quiet<A, B>(ask: A -> Result<seq<B>>): A -> seq<B> {
    (x: A) => OrNone(ask(x))
  }

  function QuietGrants(ask: (seq<Principal>, Request) -> Result<seq<Grant>>): (seq<Principal>, Request) -> seq<Grant> {
    (owners: seq<Principal>, req: Request) => OrNone(ask(owners, req))
  }

  /** A definition that cannot be read is one that is not there. */
  function QuietDefinitions(ask: RoleId -> Result<Role>): RoleId -> Option<Role> {
    (r: RoleId) => if ask(r).Ok? then Some(ask(r).value) else None
  }

  function Answers(e: Engine): Service {
    var b := e.backend;
    var disabled := if b.disabledBuiltIns.Ok? then b.disabledBuiltIns.value else {};
    var store := StoreView(Quiet(b.assignmentsFor), QuietDefinitions(b.roleDefinition), Quiet(b.expandRoles),
                           QuietGrants(b.grantsForOwners), disabled);
    Service(store, e.builtIns, Quiet(b.groupsOf), Quiet(b.teamsOf),
            e.publicRole, e.authenticatedRole, e.adminRole, e.adminGroup)
  }

  predicate IsBuiltIn(r: RoleId) {
    HasPrefix(r, BUILTIN_PREFIX)
  }

  // --- who the caller is -----------------------------------------------------------

  /** Each name once, in the order of first mention. */
  function Distinct(names: seq<string>): (r: seq<string>)
    ensures NoDuplicates(r) && forall x :: x in r <==> x in names
  {
    if names == [] then []
    else
      var before := Distinct(names[..|names| - 1]);
      var last := names[|names| - 1];
      assert names == names[..|names| - 1] + [last];
      if last in before then before else before + [last]
  }

  /** Where a name is mentioned first. */
  function FirstMention(names: seq<string>, x: string): nat
    requires x in names
    ensures FirstMention(names, x) < |names| && names[FirstMention(names, x)] == x
    ensures forall j :: 0 <= j < FirstMention(names, x) ==> names[j] != x
  {
    if names[0] == x then 0 else 1 + FirstMention(names[1..], x)
  }

  lemma {:induction false} DistinctKeepsOrder(names: seq<string>, i: nat, j: nat)
    requires i < j < |Distinct(names)|
    ensures FirstMention(names, Distinct(names)[i]) < FirstMention(names, Distinct(names)[j])
  {
    var front, last := names[..|names| - 1], names[|names| - 1];
    var d := Distinct(front);
    assert names == front + [last];
    forall x | x in front
      ensures FirstMention(names, x) == FirstMention(front, x)
    {
      assert forall k :: 0 <= k < |front| ==> names[k] == front[k];
    }
    assert d[i] in front;
    if j < |d| {
      DistinctKeepsOrder(front, i, j);
      assert d[j] in front;
    } else {
      assert Distinct(names)[j] == last && last !in front;
    }
  }

  /** resolveUserGroupIDs and resolveUserTeamIDs. */
  method ResolveNames(user: string, answer: Result<seq<string>>) returns (r: Result<seq<string>>)
    ensures r.Ok? <==> user == "" || answer.Ok?
    ensures r.Ok? ==> r.value == if user == "" then [] else Distinct(answer.value)
  {
    if user == "" {
      return Ok([]);
    }
    if answer.Err? {
      return Err;
    }
    var names := answer.value;
    var result: seq<string> := [];
    var seen: set<string> := {};
    for i := 0 to |names|
      invariant result == Distinct(names[..i]) && seen == Elements(result)
    {
      assert names[..i + 1][..i] == names[..i];
      if names[i] in seen {
        continue;
      }
      AppendNew(result, names[i]);
      seen := seen + {names[i]};
      result := result + [names[i]];
    }
    WholePrefix(names);
    r := Ok(result);
  }

  function Groups(w: Service, user: string): seq<string> {
    if user == "" then [] else Distinct(w.groupsOf(user))
  }

  function Teams(w: Service, user: string): seq<string> {
    if user == "" then [] else Distinct(w.teamsOf(user))
  }

  // --- the assignments that count -----------------------------------------------------

  function SyntheticAssignments(w: Service, user: string, groups: seq<string>): seq<RoleAssignment> {
    (if w.publicRole != "" then [RoleAssignment(w.publicRole, map[])] else [])
    + (if user != "" && w.authenticatedRole != "" then [RoleAssignment(w.authenticatedRole, map[])] else [])
    + (if user != "" && w.adminRole != "" && w.adminGroup != "" && w.adminGroup in groups
       then [RoleAssignment(w.adminRole, map[])] else [])
  }

  /** The role exists and its definition is not marked disabled. */
  predicate Active(w: Service, a: RoleAssignment) {
    a.role != "" &&
    (a.role in {w.publicRole, w.authenticatedRole, w.adminRole}
     || if IsBuiltIn(a.role) then a.role in w.builtIns.roles && !w.builtIns.roles[a.role].disabled
        else w.store.roleDefinition(a.role).Some? && !w.store.roleDefinition(a.role).value.disabled)
  }

  function ListedAll(w: Service, kind: string, ids: seq<string>): (r: seq<RoleAssignment>)
    ensures forall a :: a in r <==> exists id :: id in ids && a in w.store.assignmentsFor(Principal(kind, id))
  {
    if ids == [] then []
    else
      var front := ids[..|ids| - 1];
      assert ids == front + [ids[|ids| - 1]];
      ListedAll(w, kind, front) + w.store.assignmentsFor(Principal(kind, ids[|ids| - 1]))
  }

  function OwnAssignments(w: Service, user: string): seq<RoleAssignment> {
    if user != "" then w.store.assignmentsFor(Principal(KIND_USER, user)) else []
  }

  function RawAssignments(w: Service, user: string): seq<RoleAssignment> {
    OwnAssignments(w, user)
    + ListedAll(w, KIND_GROUP, Groups(w, user))
    + ListedAll(w, KIND_TEAM, Teams(w, user))
    + SyntheticAssignments(w, user, Groups(w, user))
  }

  ghost function KeysOf(s: seq<RoleAssignment>): set<string> {
    set a | a in s :: KeyText(a)
  }

  /** The active assignments, the first of each key. */
  ghost function KeepFirst(w: Service, s: seq<RoleAssignment>): seq<RoleAssignment> {
    if s == [] then []
    else
      var before := KeepFirst(w, s[..|s| - 1]);
      var last := s[|s| - 1];
      if Active(w, last) && KeyText(last) !in KeysOf(before) then before + [last] else before
  }

  /** The assignments the decision is made from. */
  ghost function Held(w: Service, user: string): seq<RoleAssignment> {
    KeepFirst(w, RawAssignments(w, user))
  }

  /** The closure appendUnique, continuing after the assignments in `done`. */
  method AppendUnique(w: Service, more: seq<RoleAssignment>, seen0: set<string>, result0: seq<RoleAssignment>,
                      ghost done: seq<RoleAssignment>)
    returns (seen: set<string>, result: seq<RoleAssignment>)
    requires result0 == KeepFirst(w, done) && seen0 == KeysOf(result0)
    ensures result == KeepFirst(w, done + more) && seen == KeysOf(result)
  {
    seen, result := seen0, result0;
    assert done + more[..0] == done;
    for i := 0 to |more|
      invariant KeptFirst(w, done + more[..i], seen, result)
    {
      KeptGrows(w, done + more[..i], more[i], seen, result);
      assert done + more[..i + 1] == done + more[..i] + [more[i]];
      if !Active(w, more[i]) {
        continue;
      }
      var key := AssignmentKey(more[i]);
      if key in seen {
        continue;
      }
      seen := seen + {key};
      result := result + [more[i]];
    }
    assert done + more[..|more|] == done + more;
  }

  /** What the closure has collected from these assignments. */
  ghost predicate KeptFirst(w: Service, s: seq<RoleAssignment>, seen: set<string>, result: seq<RoleAssignment>) {
    result == KeepFirst(w, s) && seen == KeysOf(result)
  }

  lemma KeptGrows(w: Service, s: seq<RoleAssignment>, a: RoleAssignment, seen: set<string>, result: seq<RoleAssignment>)
    requires KeptFirst(w, s, seen, result)
    ensures if Active(w, a) && KeyText(a) !in seen then KeptFirst(w, s + [a], seen + {KeyText(a)}, result + [a])
            else KeptFirst(w, s + [a], seen, result)
  {
    KeepFirstGrows(w, s, a);
    assert KeepFirst(w, s) + [] == KeepFirst(w, s);
  }

  lemma KeepFirstGrows(w: Service, s: seq<RoleAssignment>, a: RoleAssignment)
    ensures KeepFirst(w, s + [a])
         == KeepFirst(w, s) + if Active(w, a) && KeyText(a) !in KeysOf(KeepFirst(w, s)) then [a] else []
    ensures KeysOf(KeepFirst(w, s) + [a]) == KeysOf(KeepFirst(w, s)) + {KeyText(a)}
  {
    assert (s + [a])[..|s|] == s;
  }

  lemma ListedGrows(w: Service, kind: string, ids: seq<string>, i: nat, done: seq<RoleAssignment>)
    requires i < |ids|
    ensures done + ListedAll(w, kind, ids[..i + 1])
         == done + ListedAll(w, kind, ids[..i]) + w.store.assignmentsFor(Principal(kind, ids[i]))
  {
    assert ids[..i + 1][..i] == ids[..i];
  }

  /** The assignments of all these principals can be read. */
  ghost predicate Readable(e: Engine, kind: string, ids: seq<string>) {
    forall id :: id in ids ==> e.backend.assignmentsFor(Principal(kind, id)).Ok?
  }

  ghost predicate NamesAnswered(e: Engine, user: string) {
    user != "" ==> e.backend.groupsOf(user).Ok? && e.backend.teamsOf(user).Ok?
  }

  /** Every query about the caller's names and assignments is answered. */
  ghost predicate AssignmentsAnswered(e: Engine, user: string) {
    && NamesAnswered(e, user)
    && (user != "" ==> e.backend.assignmentsFor(Principal(KIND_USER, user)).Ok?)
    && Readable(e, KIND_GROUP, Groups(Answers(e), user))
    && Readable(e, KIND_TEAM, Teams(Answers(e), user))
  }

  method AppendListed(e: Engine, kind: string, ids: seq<string>, seen0: set<string>, result0: seq<RoleAssignment>,
                      ghost done: seq<RoleAssignment>)
    returns (ok: bool, seen: set<string>, result: seq<RoleAssignment>)
    requires result0 == KeepFirst(Answers(e), done) && seen0 == KeysOf(result0)
    ensures ok <==> Readable(e, kind, ids)
    ensures ok ==> result == KeepFirst(Answers(e), done + ListedAll(Answers(e), kind, ids)) && seen == KeysOf(result)
  {
    var w := Answers(e);
    seen, result := seen0, result0;
    assert done + ListedAll(w, kind, ids[..0]) == done;
    for i := 0 to |ids|
      invariant KeptFirst(w, done + ListedAll(w, kind, ids[..i]), seen, result)
      invariant Readable(e, kind, ids[..i])
    {
      var listed := e.backend.assignmentsFor(Principal(kind, ids[i]));
      PrefixGrows(ids, i);
      if listed.Err? {
        assert ids[i] in ids;
        return false, seen, result;
      }
      ListedGrows(w, kind, ids, i, done);
      seen, result := AppendUnique(w, listed.value, seen, result, done + ListedAll(w, kind, ids[..i]));
    }
    WholePrefix(ids);
    ok := true;
  }

  method ResolveRoleAssignments(e: Engine, user: string, groups: seq<string>, teams: seq<string>)
    returns (r: Result<seq<RoleAssignment>>)
    requires groups == Groups(Answers(e), user) && teams == Teams(Answers(e), user) && NamesAnswered(e, user)
    ensures r.Ok? <==> AssignmentsAnswered(e, user)
    ensures r.Ok? ==> r.value == Held(Answers(e), user)
  {
    var w := Answers(e);
    var seen: set<string> := {};
    var result: seq<RoleAssignment> := [];
    if user != "" {
      var own := e.backend.assignmentsFor(Principal(KIND_USER, user));
      if own.Err? {
        return Err;
      }
      seen, result := AppendUnique(w, own.value, seen, result, []);
      assert [] + own.value == OwnAssignments(w, user);
    }
    ghost var done := OwnAssignments(w, user);
    var ok;
    ok, seen, result := AppendListed(e, KIND_GROUP, groups, seen, result, done);
    if !ok {
      return Err;
    }
    done := done + ListedAll(w, KIND_GROUP, groups);
    ok, seen, result := AppendListed(e, KIND_TEAM, teams, seen, result, done);
    if !ok {
      return Err;
    }
    done := done + ListedAll(w, KIND_TEAM, teams);
    seen, result := AppendUnique(w, SyntheticAssignments(w, user, groups), seen, result, done);
    r := Ok(result);
  }

  /** The caller's groups and assignments, as both procedures begin. */
  method ResolveCaller(e: Engine, user: string) returns (r: Result<(seq<string>, seq<RoleAssignment>)>)
    ensures r.Ok? <==> AssignmentsAnswered(e, user)
    ensures r.Ok? ==> r.value == (Groups(Answers(e), user), Held(Answers(e), user))
  {
    var groups := ResolveNames(user, e.backend.groupsOf(user));
    if groups.Err? {
      return Err;
    }
    var teams := ResolveNames(user, e.backend.teamsOf(user));
    if teams.Err? {
      return Err;
    }
    var assignments := ResolveRoleAssignments(e, user, groups.value, teams.value);
    if assignments.Err? {
      return Err;
    }
    r := Ok((groups.value, assignments.value));
  }

  // --- expansion and fetching -----------------------------------------------------------

  /** Named in the disabled list, or disabled by its own definition. */
  predicate Disabled(w: Service, r: RoleId) {
    r in w.store.disabledBuiltIns ||
    if r in w.builtIns.roles then w.builtIns.roles[r].disabled
    else w.store.roleDefinition(r).Some? && w.store.roleDefinition(r).value.disabled
  }

  /** Store first, registry second; a built-in root skips the store. */
  function Inherited(w: Service, root: RoleId): seq<RoleId> {
    if IsBuiltIn(root) then w.builtIns.expandRoles([root])
    else w.builtIns.expandRoles(w.store.expandRoles([root]))
  }

  function Expanded(w: Service, root: RoleId): seq<RoleId> {
    Filter(Inherited(w, root), r => !Disabled(w, r))
  }

  /** The store is asked for custom roots only. */
  ghost predicate ExpansionAnswered(e: Engine, root: RoleId) {
    !IsBuiltIn(root) ==> e.backend.expandRoles([root]).Ok?
  }

  ghost predicate Truthful(e: Engine, cache: map<RoleId, seq<RoleId>>) {
    forall r :: r in cache ==> cache[r] == Expanded(Answers(e), r) && ExpansionAnswered(e, r)
  }

  /** A list of disabled roles or a definition that cannot be read disables
      nothing; a store that cannot expand fails the call. */
  method ExpandRolesCached(e: Engine, root: RoleId, cache: map<RoleId, seq<RoleId>>)
    returns (r: Result<seq<RoleId>>, cache': map<RoleId, seq<RoleId>>)
    requires Truthful(e, cache)
    ensures r.Ok? <==> ExpansionAnswered(e, root)
    ensures r.Ok? ==> r.value == Expanded(Answers(e), root)
    ensures Truthful(e, cache')
  {
    if root in cache {
      return Ok(cache[root]), cache;
    }
    var w := Answers(e);
    var expanded;
    if IsBuiltIn(root) {
      expanded := e.builtIns.expandRoles([root]);
    } else {
      var fromStore := e.backend.expandRoles([root]);
      if fromStore.Err? {
        return Err, cache;
      }
      expanded := e.builtIns.expandRoles(fromStore.value);
    }
    var roles := EnabledAmong(w, expanded);
    r := Ok(roles);
    cache' := cache[root := roles];
  }

  method EnabledAmong(w: Service, expanded: seq<RoleId>) returns (roles: seq<RoleId>)
    ensures roles == Filter(expanded, r => !Disabled(w, r))
  {
    roles := [];
    ghost var enabled := (r: RoleId) => !Disabled(w, r);
    for i := 0 to |expanded|
      invariant roles == Filter(expanded[..i], enabled)
    {
      FilterGrows(expanded, i, enabled);
      if !Disabled(w, expanded[i]) {
        roles := roles + [expanded[i]];
      }
    }
    WholePrefix(expanded);
  }

  function OwnersAmong(roles: seq<RoleId>, builtIn: bool): (owners: seq<Principal>)
    ensures forall p :: p in owners <==> p.kind == KIND_ROLE && p.id in roles && IsBuiltIn(p.id) == builtIn
  {
    if roles == [] then []
    else
      var last := roles[|roles| - 1];
      assert roles == roles[..|roles| - 1] + [last];
      OwnersAmong(roles[..|roles| - 1], builtIn)
      + if IsBuiltIn(last) == builtIn then [Principal(KIND_ROLE, last)] else []
  }

  /** fetchRoleGrants: the registry for built-in owners, the store for the rest. */
  function RoleGrants(w: Service, roles: seq<RoleId>, req: Request): seq<Grant> {
    var builtIn, custom := OwnersAmong(roles, true), OwnersAmong(roles, false);
    (if builtIn != [] then w.builtIns.grantsForOwners(builtIn, req) else [])
    + (if custom != [] then w.store.grantsForOwners(custom, req) else [])
  }

  /** The store is asked if there are custom owners. */
  ghost predicate GrantsAnswered(e: Engine, owners: seq<Principal>, req: Request) {
    owners != [] ==> e.backend.grantsForOwners(owners, req).Ok?
  }

  method FetchRoleGrants(e: Engine, roles: seq<RoleId>, req: Request) returns (r: Result<seq<Grant>>)
    ensures r.Ok? <==> GrantsAnswered(e, OwnersAmong(roles, false), req)
    ensures r.Ok? ==> r.value == RoleGrants(Answers(e), roles, req)
  {
    var builtIn: seq<Principal>, custom: seq<Principal> := [], [];
    for i := 0 to |roles|
      invariant builtIn == OwnersAmong(roles[..i], true) && custom == OwnersAmong(roles[..i], false)
    {
      assert roles[..i + 1][..i] == roles[..i];
      if IsBuiltIn(roles[i]) {
        builtIn := builtIn + [Principal(KIND_ROLE, roles[i])];
      } else {
        custom := custom + [Principal(KIND_ROLE, roles[i])];
      }
    }
    assert roles[..|roles|] == roles;
    var grants: seq<Grant> := [];
    if |builtIn| > 0 {
      grants := e.builtIns.grantsForOwners(builtIn, req);
    }
    if |custom| > 0 {
      var fromStore := e.backend.grantsForOwners(custom, req);
      if fromStore.Err? {
        return Err;
      }
      grants := grants + fromStore.value;
    }
    r := Ok(grants);
  }

  function GroupOwners(groups: seq<string>): (owners: seq<Principal>)
    ensures forall p :: p in owners <==> p.kind == KIND_GROUP && p.id in groups
  {
    if groups == [] then []
    else
      var last := groups[|groups| - 1];
      assert groups == groups[..|groups| - 1] + [last];
      GroupOwners(groups[..|groups| - 1]) + [Principal(KIND_GROUP, last)]
  }

  function DirectOwners(w: Service, user: string): seq<Principal> {
    (if user != "" then [Principal(KIND_USER, user)] else []) + GroupOwners(Groups(w, user))
  }

  function DirectGrants(w: Service, req: Request): seq<Grant> {
    var owners := DirectOwners(w, req.user);
    if owners == [] then [] else w.store.grantsForOwners(owners, req)
  }

  // --- the verdict -----------------------------------------------------------------------

  /** g was fetched for these roles and is still in force. */
  ghost predicate Relevant(grants: seq<Grant>, roles: seq<RoleId>, now: Time, g: Grant) {
    g in grants && (g.ownerKind == KIND_ROLE ==> g.ownerId in roles) && !g.ExpiredAt(now)
  }

  /** g was fetched for assignment a. */
  ghost predicate Carries(w: Service, a: RoleAssignment, req: Request, now: Time, g: Grant) {
    Relevant(RoleGrants(w, Expanded(w, a.role), req), Expanded(w, a.role), now, g)
  }

  /** Some grant fetched for an assignment cannot be bound to it. */
  ghost predicate SomeUnbound(w: Service, held: set<RoleAssignment>, req: Request, now: Time) {
    exists a, g :: a in held && Carries(w, a, req, now, g) && ResolveGrantBindings(g, a).Err?
  }

  /** b is one of the grants the request is decided by: a grant of the caller or
      its groups, or a role grant bound to an assignment. */
  ghost predicate Bears(w: Service, held: set<RoleAssignment>, req: Request, now: Time, b: Grant) {
    || (b in DirectGrants(w, req) && !b.ExpiredAt(now))
    || exists a, g :: a in held && Carries(w, a, req, now, g) && ResolveGrantBindings(g, a) == Ok(b)
  }

  ghost predicate Denied(w: Service, held: set<RoleAssignment>, req: Request, path: Option<string>, now: Time) {
    exists b :: Bears(w, held, req, now, b) && b.IsDeny() && Applicable(b, req, path)
  }

  ghost predicate Allowed(w: Service, held: set<RoleAssignment>, req: Request, path: Option<string>, now: Time) {
    exists b :: Bears(w, held, req, now, b) && !b.IsDeny() && Applicable(b, req, path)
  }

  /** The verdict, free of any order: everything binds, nothing denies,
      something allows. */
  ghost predicate Granted(w: Service, held: set<RoleAssignment>, req: Request, path: Option<string>, now: Time) {
    && req.permission != ""
    && !SomeUnbound(w, held, req, now)
    && !Denied(w, held, req, path, now)
    && Allowed(w, held, req, path, now)
  }

  // --- the procedure -----------------------------------------------------------------------

  method EvaluateDirect(grants: seq<Grant>, req: Request, path: Option<string>, now: Time)
    returns (denied: bool, allowed: bool)
    ensures denied <==> exists g :: g in grants && !g.ExpiredAt(now) && g.IsDeny() && Applicable(g, req, path)
    ensures !denied ==> (allowed <==>
              exists g :: g in grants && !g.ExpiredAt(now) && !g.IsDeny() && Applicable(g, req, path))
  {
    denied, allowed := false, false;
    for i := 0 to |grants|
      invariant forall g :: g in grants[..i] && !g.ExpiredAt(now) && g.IsDeny() ==> !Applicable(g, req, path)
      invariant allowed <==>
                exists g :: g in grants[..i] && !g.ExpiredAt(now) && !g.IsDeny() && Applicable(g, req, path)
    {
      var g := grants[i];
      assert grants[..i + 1] == grants[..i] + [g];
      if g.ExpiredAt(now) {
        continue;
      }
      if !GrantMatchesRequest(g, req) || !GrantMatchesFieldPath(g, path) {
        continue;
      }
      if g.IsDeny() {
        if path.None? && |g.restricted| > 0 {
          continue;
        }
        return true, allowed;
      }
      allowed := true;
    }
    assert grants[..|grants|] == grants;
  }

  datatype Scan = Failed | DeniedHere | Passed(allowed: bool)

  /** g is relevant and binds to a deny or an allow that applies. */
  ghost predicate Decides(g: Grant, a: RoleAssignment, deny: bool, req: Request, path: Option<string>) {
    && ResolveGrantBindings(g, a).Ok?
    && ResolveGrantBindings(g, a).value.IsDeny() == deny
    && Applicable(ResolveGrantBindings(g, a).value, req, path)
  }

  ghost predicate ScanMeans(s: Scan, grants: seq<Grant>, roles: seq<RoleId>, a: RoleAssignment,
                            req: Request, path: Option<string>, now: Time) {
    match s
    case Failed => exists g :: Relevant(grants, roles, now, g) && ResolveGrantBindings(g, a).Err?
    case DeniedHere => exists g :: Relevant(grants, roles, now, g) && Decides(g, a, true, req, path)
    case Passed(allowed) =>
      && (forall g :: Relevant(grants, roles, now, g) ==> ResolveGrantBindings(g, a).Ok?)
      && (forall g :: Relevant(grants, roles, now, g) ==> !Decides(g, a, true, req, path))
      && (allowed <==> exists g :: Relevant(grants, roles, now, g) && Decides(g, a, false, req, path))
  }

  method EvaluateRoleGrants(grants: seq<Grant>, roles: seq<RoleId>, a: RoleAssignment,
                            req: Request, path: Option<string>, now: Time)
    returns (s: Scan)
    ensures ScanMeans(s, grants, roles, a, req, path, now)
  {
    var allowed := false;
    for i := 0 to |grants|
      invariant ScanMeans(Passed(allowed), grants[..i], roles, a, req, path, now)
    {
      var g := grants[i];
      assert grants[..i + 1] == grants[..i] + [g];
      if g.ownerKind == KIND_ROLE && g.ownerId !in roles {
        continue;
      }
      if g.ExpiredAt(now) {
        continue;
      }
      assert Relevant(grants, roles, now, g) && Relevant(grants[..i + 1], roles, now, g);
      var resolved := ResolveGrantBindings(g, a);
      if resolved.Err? {
        return Failed;
      }
      var bound := resolved.value;
      if !GrantMatchesRequest(bound, req) || !GrantMatchesFieldPath(bound, path) {
        continue;
      }
      if bound.IsDeny() {
        if path.None? && |bound.restricted| > 0 {
          continue;
        }
        assert Decides(g, a, true, req, path);
        return DeniedHere;
      }
      assert Decides(g, a, false, req, path);
      allowed := true;
    }
    assert grants[..|grants|] == grants;
    s := Passed(allowed);
  }

  /** Nothing fails or denies among the direct grants and these assignments, and
      `allowed` says whether something allows. */
  ghost predicate SoFar(w: Service, held: set<RoleAssignment>, req: Request, path: Option<string>, now: Time,
                        allowed: bool) {
    && !SomeUnbound(w, held, req, now)
    && !Denied(w, held, req, path, now)
    && (allowed <==> Allowed(w, held, req, path, now))
  }

  lemma OneMore(w: Service, held: set<RoleAssignment>, a: RoleAssignment, req: Request, path: Option<string>,
                now: Time, allowed: bool, here: bool)
    requires SoFar(w, held, req, path, now, allowed)
    requires ScanMeans(Passed(here), RoleGrants(w, Expanded(w, a.role), req), Expanded(w, a.role), a, req, path, now)
    ensures SoFar(w, held + {a}, req, path, now, allowed || here)
  {
    forall b | Bears(w, held + {a}, req, now, b)
      ensures Bears(w, held, req, now, b) ||
              exists g :: Carries(w, a, req, now, g) && ResolveGrantBindings(g, a) == Ok(b)
    {
    }
    forall b | Bears(w, held, req, now, b)
      ensures Bears(w, held + {a}, req, now, b)
    {
    }
    if here {
      var roles := Expanded(w, a.role);
      var g :| Relevant(RoleGrants(w, roles, req), roles, now, g) && Decides(g, a, false, req, path);
      assert Carries(w, a, req, now, g);
      assert Bears(w, held + {a}, req, now, ResolveGrantBindings(g, a).value);
    }
  }

  /** One bad assignment is enough. */
  lemma OneFails(w: Service, held: set<RoleAssignment>, a: RoleAssignment, req: Request, path: Option<string>,
                 now: Time, s: Scan)
    requires a in held && !s.Passed?
    requires ScanMeans(s, RoleGrants(w, Expanded(w, a.role), req), Expanded(w, a.role), a, req, path, now)
    ensures s.Failed? ==> SomeUnbound(w, held, req, now)
    ensures s.DeniedHere? ==> Denied(w, held, req, path, now)
  {
    var roles := Expanded(w, a.role);
    if s.Failed? {
      var g :| Relevant(RoleGrants(w, roles, req), roles, now, g) && ResolveGrantBindings(g, a).Err?;
      assert Carries(w, a, req, now, g);
    } else {
      var g :| Relevant(RoleGrants(w, roles, req), roles, now, g) && Decides(g, a, true, req, path);
      assert Carries(w, a, req, now, g);
      assert Bears(w, held, req, now, ResolveGrantBindings(g, a).value);
    }
  }

  lemma DirectDenies(w: Service, held: set<RoleAssignment>, req: Request, path: Option<string>, now: Time)
    requires exists g :: g in DirectGrants(w, req) && !g.ExpiredAt(now) && g.IsDeny() && Applicable(g, req, path)
    ensures Denied(w, held, req, path, now)
  {
    var g :| g in DirectGrants(w, req) && !g.ExpiredAt(now) && g.IsDeny() && Applicable(g, req, path);
    assert Bears(w, held, req, now, g);
  }

  lemma DirectSoFar(w: Service, req: Request, path: Option<string>, now: Time, allowed: bool)
    requires !exists g :: g in DirectGrants(w, req) && !g.ExpiredAt(now) && g.IsDeny() && Applicable(g, req, path)
    requires allowed <==>
             exists g :: g in DirectGrants(w, req) && !g.ExpiredAt(now) && !g.IsDeny() && Applicable(g, req, path)
    ensures SoFar(w, {}, req, path, now, allowed)
  {
    if allowed {
      var g :| g in DirectGrants(w, req) && !g.ExpiredAt(now) && !g.IsDeny() && Applicable(g, req, path);
      assert Bears(w, {}, req, now, g);
    }
  }

  // --- queries that fail --------------------------------------------------------------------

  /** The two queries made for one assignment are answered. */
  ghost predicate RoleAnswered(e: Engine, a: RoleAssignment, req: Request) {
    && ExpansionAnswered(e, a.role)
    && GrantsAnswered(e, OwnersAmong(Expanded(Answers(e), a.role), false), req)
  }

  /** Every query of the request is answered whose failure is an error. */
  ghost predicate Answered(e: Engine, req: Request) {
    && AssignmentsAnswered(e, req.user)
    && GrantsAnswered(e, DirectOwners(Answers(e), req.user), req)
    && forall a :: a in Held(Answers(e), req.user) ==> RoleAnswered(e, a, req)
  }

  /** The verdict on the answers, if they are all there. */
  ghost predicate Grants(e: Engine, req: Request, path: Option<string>, now: Time) {
    Answered(e, req) && Granted(Answers(e), Elements(Held(Answers(e), req.user)), req, path, now)
  }

  method EvaluateAssignment(e: Engine, a: RoleAssignment, cache: map<RoleId, seq<RoleId>>, req: Request,
                            path: Option<string>, now: Time)
    returns (answered: bool, s: Scan, cache': map<RoleId, seq<RoleId>>)
    requires Truthful(e, cache)
    ensures Truthful(e, cache') && (answered <==> RoleAnswered(e, a, req))
    ensures var roles := Expanded(Answers(e), a.role);
      answered ==> ScanMeans(s, RoleGrants(Answers(e), roles, req), roles, a, req, path, now)
  {
    s := Failed;
    var roles, grants;
    roles, cache' := ExpandRolesCached(e, a.role, cache);
    if roles.Err? {
      return false, s, cache';
    }
    grants := FetchRoleGrants(e, roles.value, req);
    if grants.Err? {
      return false, s, cache';
    }
    s := EvaluateRoleGrants(grants.value, roles.value, a, req, path, now);
    answered := true;
  }

  method EvaluateAssignments(e: Engine, assignments: seq<RoleAssignment>, allowed0: bool, req: Request,
                             path: Option<string>, now: Time)
    returns (r: Result<bool>)
    requires SoFar(Answers(e), {}, req, path, now, allowed0)
    ensures r == Ok(true) <==> (forall a :: a in assignments ==> RoleAnswered(e, a, req))
                               && SoFar(Answers(e), Elements(assignments), req, path, now, true)
    ensures r.Err? ==> (exists a :: a in assignments && !RoleAnswered(e, a, req))
                       || SomeUnbound(Answers(e), Elements(assignments), req, now)
  {
    ghost var w := Answers(e);
    var allowed := allowed0;
    var cache: map<RoleId, seq<RoleId>> := map[];
    WholePrefix(assignments);
    for i := 0 to |assignments|
      invariant Truthful(e, cache)
      invariant forall a :: a in assignments[..i] ==> RoleAnswered(e, a, req)
      invariant SoFar(w, Elements(assignments[..i]), req, path, now, allowed)
    {
      var a := assignments[i];
      assert a in assignments;
      var answered, s;
      answered, s, cache := EvaluateAssignment(e, a, cache, req, path, now);
      if !answered {
        return Err;
      }
      if !s.Passed? {
        OneFails(w, Elements(assignments), a, req, path, now, s);
        return if s.Failed? then Err else Ok(false);
      }
      OneMore(w, Elements(assignments[..i]), a, req, path, now, allowed, s.allowed);
      PrefixGrows(assignments, i);
      allowed := allowed || s.allowed;
    }
    r := Ok(allowed);
  }

  /** Granted exactly by the verdict on complete answers. */
  method EvaluatePermission(e: Engine, req: Request, path: Option<string>, now: Time) returns (r: Result<bool>)
    ensures r == Ok(true) <==> Grants(e, req, path, now)
    ensures r.Err? ==> CannotDecide(e, req, now)
  {
    ghost var w := Answers(e);
    if req.permission == "" {
      return Err;
    }
    var caller := ResolveCaller(e, req.user);
    if caller.Err? {
      return Err;
    }
    var (groups, assignments) := caller.value;
    var owners := (if req.user != "" then [Principal(KIND_USER, req.user)] else []) + GroupOwners(groups);
    assert owners == DirectOwners(w, req.user);
    var allowed := false;
    if |owners| > 0 {
      var direct := e.backend.grantsForOwners(owners, req);
      if direct.Err? {
        return Err;
      }
      var denied;
      denied, allowed := EvaluateDirect(direct.value, req, path, now);
      if denied {
        DirectDenies(w, Elements(assignments), req, path, now);
        return Ok(false);
      }
    }
    DirectSoFar(w, req, path, now, allowed);
    r := EvaluateAssignments(e, assignments, allowed, req, path, now);
  }

  /** What alone makes a decision fail. */
  ghost predicate CannotDecide(e: Engine, req: Request, now: Time) {
    || req.permission == ""
    || !Answered(e, req)
    || SomeUnbound(Answers(e), Elements(Held(Answers(e), req.user)), req, now)
  }

  method HasPermission(e: Engine, req: Request, now: Time) returns (r: Result<bool>)
    ensures r == Ok(true) <==> Grants(e, req, None, now)
    ensures r.Err? ==> CannotDecide(e, req, now)
  {
    r := EvaluatePermission(e, req, None, now);
  }
}
