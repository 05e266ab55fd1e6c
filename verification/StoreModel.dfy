// The bootstrap store as a value: its writes, which a failure leaves without
// effect, and the answers to its queries (bootstrap_store.go).
module StoreModel {
  import opened Types
  import opened Collections
  import opened Matching
  import RoleGraph
  import RoleIndex
  import opened Assignments

  datatype State = State(
    roles: map<RoleId, Role>,
    index: RoleIndex.Index,
    table: Table,
    grants: seq<Grant>,
    disabled: set<RoleId>)

  const EMPTY_STORE := State(map[], RoleIndex.EMPTY, map[], [], {})

  datatype Write =
    | CreateRole(role: Role)
    | UpdateRole(role: Role)
    | DeleteRole(id: RoleId)
    | AddInheritance(parent: RoleId, child: RoleId)
    | AssignRole(p: Principal, id: RoleId, builtIns: seq<Role>, bindings: Bindings)
    | UnassignRole(p: Principal, id: RoleId, bindings: Bindings)
    | CreateGrant(grant: Grant)
    | DeleteGrants(owner: Principal)
    | Disable(id: RoleId)
    | Enable(id: RoleId)

  predicate GrantAccepted(g: Grant) {
    g.ownerId != "" && g.permission != "" && g.teamScope != ""
  }

  function Known(roles: map<RoleId, Role>, builtIns: seq<Role>): set<RoleId> {
    roles.Keys + set r | r in builtIns :: r.id
  }

  predicate Refused(s: State, w: Write) {
    match w
    case CreateRole(role) => role.id == "" || role.name == "" || role.id in s.roles
    case UpdateRole(role) => role.id == "" || role.name == "" || role.id !in s.roles
    case DeleteRole(id) => id == "" || id !in s.roles
    case AddInheritance(parent, child) => RoleIndex.LinkRefused(parent, child)
    case AssignRole(p, id, builtIns, b) => Assign(s.table, p, id, Known(s.roles, builtIns), b).Err?
    case UnassignRole(p, id, b) => Unassign(s.table, p, id, b).Err?
    case CreateGrant(g) => !GrantAccepted(g)
    case DeleteGrants(_) => false
    case Disable(id) => id == ""
    case Enable(id) => id == ""
  }

  function Written(s: State, w: Write): State {
    if Refused(s, w) then s
    else
      match w
      case CreateRole(role) =>
        s.(roles := s.roles[role.id := role], index := RoleIndex.Step(s.index, RoleIndex.Touch(role.id)))
      case UpdateRole(role) => s.(roles := s.roles[role.id := role])
      case DeleteRole(id) =>
        s.(roles := s.roles - {id}, index := RoleIndex.Step(s.index, RoleIndex.Drop(id)),
           table := DropRole(s.table, id))
      case AddInheritance(parent, child) => s.(index := RoleIndex.Step(s.index, RoleIndex.Link(parent, child)))
      case AssignRole(p, id, builtIns, b) =>
        s.(table := Apply(s.table, AssignOp(p, id, Known(s.roles, builtIns), b)))
      case UnassignRole(p, id, b) => s.(table := Apply(s.table, UnassignOp(p, id, b)))
      case CreateGrant(g) => s.(grants := s.grants + [g])
      case DeleteGrants(owner) => s.(grants := Filter(s.grants, (g: Grant) => g.Owner() != owner))
      case Disable(id) => s.(disabled := s.disabled + {id})
      case Enable(id) => s.(disabled := s.disabled - {id})
  }

  lemma WrittenCreate(s: State, role: Role)
    requires !Refused(s, CreateRole(role))
    ensures Written(s, CreateRole(role))
         == s.(roles := s.roles[role.id := role], index := RoleIndex.Step(s.index, RoleIndex.Touch(role.id)))
  {
  }

  lemma WrittenDelete(s: State, id: RoleId)
    requires !Refused(s, DeleteRole(id))
    ensures Written(s, DeleteRole(id))
         == s.(roles := s.roles - {id}, index := RoleIndex.Step(s.index, RoleIndex.Drop(id)),
               table := DropRole(s.table, id))
  {
  }

  lemma WrittenAssign(s: State, p: Principal, id: RoleId, builtIns: seq<Role>, b: Bindings)
    ensures Written(s, AssignRole(p, id, builtIns, b))
         == s.(table := Apply(s.table, AssignOp(p, id, Known(s.roles, builtIns), b)))
    ensures Refused(s, AssignRole(p, id, builtIns, b)) <==> !Assign(s.table, p, id, Known(s.roles, builtIns), b).Ok?
  {
  }

  lemma WrittenUnassign(s: State, p: Principal, id: RoleId, b: Bindings)
    ensures Written(s, UnassignRole(p, id, b)) == s.(table := Apply(s.table, UnassignOp(p, id, b)))
    ensures Refused(s, UnassignRole(p, id, b)) <==> !Unassign(s.table, p, id, b).Ok?
  {
  }

  lemma WrittenDeleteGrants(s: State, owner: Principal, kept: seq<Grant>)
    requires kept == Filter(s.grants, (g: Grant) => g.Owner() != owner)
    ensures Written(s, DeleteGrants(owner)) == s.(grants := kept)
  {
  }

  function RunWrites(ws: seq<Write>): State {
    if ws == [] then EMPTY_STORE else Written(RunWrites(ws[..|ws| - 1]), ws[|ws| - 1])
  }

  // --- queries about grants -----------------------------------------------------------

  predicate OwnedIn(g: Grant, keys: set<string>) {
    PrincipalKey(g.Owner()) in keys
  }

  predicate AllValid(owners: seq<Principal>) {
    forall p :: p in owners ==> ValidPrincipal(p)
  }

  function KeysOf(owners: seq<Principal>): set<string> {
    set p | p in owners :: PrincipalKey(p)
  }

  predicate Fetched(g: Grant, keys: set<string>, req: Request, now: Time) {
    OwnedIn(g, keys) && !g.ExpiredAt(now) && (req.permission == "" || g.permission == req.permission)
    && PassesPreFilter(g, req)
  }

  /** GrantsForOwners. */
  function OwnersGrants(grants: seq<Grant>, owners: seq<Principal>, req: Request, now: Time): Result<seq<Grant>> {
    if !AllValid(owners) then Err
    else Ok(Filter(grants, (g: Grant) => Fetched(g, KeysOf(owners), req, now)))
  }

  /** GrantsForPrincipal. */
  function PrincipalsGrants(grants: seq<Grant>, p: Principal, now: Time): Result<seq<Grant>> {
    if !ValidPrincipal(p) then Err
    else Ok(Filter(grants, (g: Grant) => g.Owner() == p && !g.ExpiredAt(now)))
  }

  // --- what every run keeps ---------------------------------------------------------------

  /** The graph behind the closure rows (see RoleIndex). */
  ghost function GhostGraph(ws: seq<Write>): RoleGraph.Graph {
    if ws == [] then {}
    else
      var before, w := ws[..|ws| - 1], ws[|ws| - 1];
      var g := GhostGraph(before);
      if Refused(RunWrites(before), w) then g
      else
        match w
        case AddInheritance(parent, child) => RoleIndex.GhostStep(g, RoleIndex.Link(parent, child))
        case DeleteRole(id) => RoleIndex.GhostStep(g, RoleIndex.Drop(id))
        case _ => g
  }

  /** In every reachable store the rows are reachability, the assignment table is
      well-formed, every stored role has a row, and every grant passed the checks. */
  lemma {:induction false} StoresAreSound(ws: seq<Write>)
    ensures RoleIndex.Tracks(RunWrites(ws).index, GhostGraph(ws))
    ensures Good(RunWrites(ws).table)
    ensures RunWrites(ws).roles.Keys <= RunWrites(ws).index.rows.Keys
    ensures forall g :: g in RunWrites(ws).grants ==> g.ownerId != "" && g.permission != "" && g.teamScope != ""
  {
    if ws != [] {
      var before, w := ws[..|ws| - 1], ws[|ws| - 1];
      StoresAreSound(before);
      var s := RunWrites(before);
      if !Refused(s, w) {
        match w
        case CreateRole(role) => RoleIndex.StepTracks(s.index, GhostGraph(before), RoleIndex.Touch(role.id));
        case DeleteRole(id) =>
          RoleIndex.StepTracks(s.index, GhostGraph(before), RoleIndex.Drop(id));
          AppliesStayGood(s.table, DropOp(id));
        case AddInheritance(parent, child) =>
          RoleIndex.StepTracks(s.index, GhostGraph(before), RoleIndex.Link(parent, child));
        case AssignRole(p, id, builtIns, b) => AppliesStayGood(s.table, AssignOp(p, id, Known(s.roles, builtIns), b));
        case UnassignRole(p, id, b) => AppliesStayGood(s.table, UnassignOp(p, id, b));
        case _ =>
      }
    }
  }

  /** No assignment of a deleted role survives its deletion. */
  lemma DeletedRoleIsUnassigned(s: State, id: RoleId)
    requires !Refused(s, DeleteRole(id))
    ensures var after := Written(s, DeleteRole(id));
      && id !in after.roles && id !in after.index.rows
      && (forall a :: a in after.index.rows ==> id !in after.index.rows[a])
      && (forall key, a :: key in after.table && a in after.table[key] ==> a.role != id)
      && (forall p: Principal, a: RoleAssignment ::
            a.role != id ==> (a in Listing(after.table, p) <==> a in Listing(s.table, p)))
  {
  }
}
