// What the engine is for, said without any of its procedures: who holds what,
// which roles count, what a grant says once bound, and when a request is
// granted. Everything is read off recorded edges, the assignment table, grants
// and names.
module Policy {
  import opened Types
  import opened Text
  import opened RoleGraph
  import opened Assignments
  import opened StoreModel

  /** All that a decision depends on, for one caller. */
  datatype Setting = Setting(
    store: State,
    builtInRoles: map<RoleId, Role>,
    builtInGrants: seq<Grant>,
    edges: Graph,
    user: string,
    groups: set<string>,
    teams: set<string>,
    publicRole: RoleId,
    authenticatedRole: RoleId,
    adminRole: RoleId,
    adminGroup: string)

  predicate BuiltIn(r: RoleId) {
    "builtin." <= r
  }

  // --- who holds what -----------------------------------------------------------------

  /** The table assigns it to the user, or to one of the groups or teams. */
  predicate AssignedByTable(x: Setting, a: RoleAssignment) {
    || (x.user != "" && a in Listing(x.store.table, Principal("user", x.user)))
    || (exists g :: g in x.groups && a in Listing(x.store.table, Principal("group", g)))
    || (exists t :: t in x.teams && a in Listing(x.store.table, Principal("team", t)))
  }

  /** Everybody has the public role, whoever is named the authenticated role, and
      members of the admin group the admin role, as far as these are set. */
  predicate AssignedToAll(x: Setting, a: RoleAssignment) {
    && a.bindings == map[] && a.role != ""
    && (|| a.role == x.publicRole
        || (x.user != "" && a.role == x.authenticatedRole)
        || (x.user != "" && a.role == x.adminRole && x.adminGroup != "" && x.adminGroup in x.groups))
  }

  /** The three roles above always count; others have to be defined and not
      marked disabled, built-in ones in the registry and custom ones in the store. */
  predicate Counts(x: Setting, r: RoleId) {
    r != "" &&
    if r == x.publicRole || r == x.authenticatedRole || r == x.adminRole then true
    else if BuiltIn(r) then r in x.builtInRoles && !x.builtInRoles[r].disabled
    else r in x.store.roles && !x.store.roles[r].disabled
  }

  predicate Holds(x: Setting, a: RoleAssignment) {
    (AssignedByTable(x, a) || AssignedToAll(x, a)) && Counts(x, a.role)
  }

  // --- what reaches an assignment -----------------------------------------------------

  /** Not switched off, and its definition, if there is one, not marked disabled. */
  predicate Usable(x: Setting, r: RoleId) {
    && r !in x.store.disabled
    && (r in x.builtInRoles ==> !x.builtInRoles[r].disabled)
    && (r !in x.builtInRoles && r in x.store.roles ==> !x.store.roles[r].disabled)
  }

  predicate InTime(g: Grant, now: Time) {
    g.expiresAt.Some? ==> now < g.expiresAt.value
  }

  /** The registry's grants go by owner ID, whatever their owner kind. */
  predicate Owns(x: Setting, r: RoleId, g: Grant) {
    if BuiltIn(r) then g in x.builtInGrants && g.ownerId == r
    else g in x.store.grants && g.ownerKind == "role" && g.ownerId == r
  }

  /** A request without a permission asks for all of them. */
  predicate About(g: Grant, permission: string) {
    permission == "" || g.permission == permission
  }

  /** g is owned by a usable role that the assignment's role reaches. */
  ghost predicate Conveys(x: Setting, a: RoleAssignment, permission: string, now: Time, g: Grant) {
    && InTime(g, now) && About(g, permission)
    && exists r :: Reaches(x.edges, a.role, r) && Usable(x, r) && Owns(x, r, g)
  }

  /** g is the caller's own, or one of its groups'. */
  predicate OwnGrant(x: Setting, permission: string, now: Time, g: Grant) {
    && g in x.store.grants && InTime(g, now) && About(g, permission)
    && ((x.user != "" && g.ownerKind == "user" && g.ownerId == x.user)
        || (g.ownerKind == "group" && g.ownerId in x.groups))
  }

  // --- what a grant says, bound -------------------------------------------------------

  /** A bound value inside a scope; floats lose their fraction. */
  function Written(v: Value): string {
    match v
    case Str(s) => s
    case Int(n) => Itoa(n)
    case Int64(n) => Itoa(n)
    case Float(whole, _) => Itoa(whole)
    case Other(_, text) => text
  }

  predicate Template(scope: string) {
    "?" <= scope
  }

  /** A template stands for the value bound to its name, anything else for itself. */
  predicate Says(scope: string, values: Bindings, text: string) {
    if Template(scope) then scope[1..] in values && text == Written(values[scope[1..]]) else text == scope
  }

  /** b is g bound to the assignment. A grant without variables is taken as it
      is; one with variables has to belong to the very role assigned, finds all
      that it requires, and differs in its scopes only. */
  predicate Bound(g: Grant, a: RoleAssignment, b: Grant) {
    if g.variableSpec == None || g.variableSpec == Some(map[]) then b == g
    else
      var values := if g.ownerKind == "role" then a.bindings else map[];
      && (g.ownerKind == "role" ==> g.ownerId == a.role)
      && (forall k :: k in g.variableSpec.value && g.variableSpec.value[k] == Str("required") ==> k in values)
      && b == g.(teamScope := b.teamScope, objectScope := b.objectScope)
      && Says(g.teamScope, values, b.teamScope)
      && (g.objectScope.Some? <==> b.objectScope.Some?)
      && (g.objectScope.Some? ==> Says(g.objectScope.value, values, b.objectScope.value))
  }

  // --- what a request meets -----------------------------------------------------------

  predicate Meets(b: Grant, req: Request) {
    && b.permission == req.permission
    && (b.teamScope == "*" || (req.team != "" && b.teamScope == req.team))
    && (b.objectScope == None || b.objectScope == Some("*") || b.objectScope == Some(req.obj))
  }

  /** The path is the field or lies below it, part by part. */
  predicate AtOrBelow(field: string, path: string) {
    && TrimSpace(field) != "" && TrimSpace(path) != ""
    && Split(TrimSpace(field)) <= Split(TrimSpace(path))
  }

  predicate Denies(b: Grant) {
    b.effect == "deny"
  }

  /** A deny of fields is about these fields and what is below them, an allow of
      fields about all others; of an object as a whole a deny of fields says
      nothing. */
  predicate Covers(b: Grant, path: Option<string>) {
    if b.restricted == [] then true
    else if path == None then !Denies(b)
    else Denies(b) <==> exists field :: field in b.restricted && AtOrBelow(field, path.value)
  }

  // --- the policy ---------------------------------------------------------------------

  /** b counts for the caller: its own, or conveyed to an assignment and bound. */
  ghost predicate Weighs(x: Setting, permission: string, now: Time, b: Grant) {
    || OwnGrant(x, permission, now, b)
    || exists a, g :: Holds(x, a) && Conveys(x, a, permission, now, g) && Bound(g, a, b)
  }

  /** The store shows a scope to a request that names a value for it. */
  predicate Shown(scope: string, value: string) {
    scope == "*" || (value != "" && (Template(scope) || scope == value))
  }

  /** The registry shows all its grants, the store those whose scopes it shows. */
  predicate Visible(g: Grant, req: Request) {
    || BuiltIn(g.ownerId)
    || (Shown(g.teamScope, req.team) && (g.objectScope.Some? ==> Shown(g.objectScope.value, req.obj)))
  }

  /** A visible grant that cannot be bound blocks the request. */
  ghost predicate AllBind(x: Setting, req: Request, now: Time) {
    forall a, g :: Holds(x, a) && Conveys(x, a, req.permission, now, g) && Visible(g, req)
           ==> exists b :: Bound(g, a, b)
  }

  ghost predicate Decides(x: Setting, req: Request, path: Option<string>, now: Time, deny: bool) {
    exists b :: Weighs(x, req.permission, now, b) && Denies(b) == deny && Meets(b, req) && Covers(b, path)
  }

  /** A permission is named, everything visible binds, nothing denies, and
      something allows. */
  ghost predicate Grants(x: Setting, req: Request, path: Option<string>, now: Time) {
    && req.permission != ""
    && AllBind(x, req, now)
    && !Decides(x, req, path, now, true)
    && Decides(x, req, path, now, false)
  }

  // --- the listing of effective permissions ---------------------------------------------

  /** What a listing for a team and an object is made of, either of them "*" for
      all that is scoped to any. */
  ghost predicate Contributes(x: Setting, team: string, obj: string, now: Time, b: Grant) {
    || (OwnGrant(x, "", now, b) && Shown(b.teamScope, team)
        && (b.objectScope.Some? ==> Shown(b.objectScope.value, obj)))
    || (ForTeam(b, team)
        && exists a, g :: Holds(x, a) && Conveys(x, a, "", now, g) && Visible(g, Request(x.user, team, obj, ""))
                          && Bound(g, a, b))
  }

  predicate ForTeam(b: Grant, team: string) {
    team == "*" || b.teamScope == "*" || (team != "" && b.teamScope == team)
  }

  function JoinedKey(b: Grant): string {
    b.teamScope + "::" + (if b.objectScope.Some? then b.objectScope.value else "") + "::" + b.permission
  }

  /** Something allows under the key and nothing denies. */
  ghost predicate Lists(x: Setting, team: string, obj: string, now: Time, key: string) {
    && (exists b :: Contributes(x, team, obj, now, b) && !Denies(b) && JoinedKey(b) == key)
    && forall b :: Contributes(x, team, obj, now, b) && Denies(b) ==> JoinedKey(b) != key
  }
}
