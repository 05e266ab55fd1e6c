// How one grant is bound to an assignment and matched against one request
// (service.go), and the scope pre-filter the stores run beforehand.
module Matching {
  import opened Types
  import opened Text

  // --- binding resolution ------------------------------------------------------

  /** What fmt prints for a binding value. */
  function Sprint(v: Value): string {
    match v
    case Str(s) => s
    case Int(n) => Itoa(n)
    case Int64(n) => Itoa(n)
    case Float(_, text) => text
    case Other(_, text) => text
  }

  /** What a value becomes inside a scope: floats lose their fraction. */
  function ScopeText(v: Value): string {
    match v
    case Float(whole, _) => Itoa(whole)
    case _ => Sprint(v)
  }

  predicate IsTemplate(scope: string) {
    scope != "" && scope[0] == '?'
  }

  function ResolveScopeToken(scope: string, bindings: Bindings): Result<string> {
    if !IsTemplate(scope) then Ok(scope)
    else if scope[1..] in bindings then Ok(ScopeText(bindings[scope[1..]]))
    else Err
  }

  /** The bindings a grant is resolved with; role-owned grants use only those of
      an assignment to that very role. */
  function BindingsFor(g: Grant, a: RoleAssignment): Result<Bindings> {
    if g.ownerKind != KIND_ROLE then Ok(map[])
    else if g.ownerId == a.role then Ok(a.bindings)
    else Err
  }

  predicate RequiredPresent(spec: Bindings, bindings: Bindings) {
    forall k :: k in spec && spec[k] == Str("required") ==> k in bindings
  }

  predicate HasVariables(g: Grant) {
    g.variableSpec.Some? && |g.variableSpec.value| != 0
  }

  function ResolveGrantBindings(g: Grant, a: RoleAssignment): Result<Grant> {
    if !HasVariables(g) then Ok(g)
    else
      match BindingsFor(g, a)
      case Err => Err
      case Ok(bindings) =>
        if !RequiredPresent(g.variableSpec.value, bindings) then Err
        else
          match ResolveScopeToken(g.teamScope, bindings)
          case Err => Err
          case Ok(team) =>
            match g.objectScope
            case None => Ok(g.(teamScope := team))
            case Some(scope) =>
              match ResolveScopeToken(scope, bindings)
              case Err => Err
              case Ok(obj) => Ok(g.(teamScope := team, objectScope := Some(obj)))
  }

  /** Binding rewrites scopes and nothing else, so expiry, effect, owner and
      field restrictions may be looked at before or after. */
  lemma ResolvingKeepsTheRest(g: Grant, a: RoleAssignment)
    requires ResolveGrantBindings(g, a).Ok?
    ensures var r := ResolveGrantBindings(g, a).value;
      r == g.(teamScope := r.teamScope, objectScope := r.objectScope)
      && (r.objectScope.None? <==> g.objectScope.None?)
  {
  }

  // --- matching a request --------------------------------------------------------

  predicate MatchesTeamScope(scope: string, team: string) {
    scope == "*" || (team != "" && scope == team)
  }

  predicate GrantMatchesRequest(g: Grant, req: Request) {
    && g.permission == req.permission
    && MatchesTeamScope(g.teamScope, req.team)
    && (g.objectScope.None? || g.objectScope.value == "*" || g.objectScope.value == req.obj)
  }

  predicate FieldPathMatches(restricted: string, candidate: string) {
    var r, c := TrimSpace(restricted), TrimSpace(candidate);
    r != "" && c != "" && (r == c || HasPrefix(c, r + "."))
  }

  predicate Restricts(g: Grant, path: string) {
    exists r :: r in g.restricted && FieldPathMatches(r, path)
  }

  predicate GrantMatchesFieldPath(g: Grant, path: Option<string>) {
    path.None? || g.restricted == [] || (g.IsDeny() <==> Restricts(g, path.value))
  }

  /** The grant takes part in the decision: it matches, and it is not a deny of
      single fields in a whole-object check. */
  predicate Applicable(g: Grant, req: Request, path: Option<string>) {
    && GrantMatchesRequest(g, req)
    && GrantMatchesFieldPath(g, path)
    && !(g.IsDeny() && path.None? && g.restricted != [])
  }

  // --- field paths -----------------------------------------------------------------

  /** `up` is the trimmed path itself cut off in front of one of its dots. */
  predicate DottedAncestor(up: string, path: string) {
    up != "" && Trimmed(up) && HasPrefix(TrimSpace(path), up + ".")
  }

  lemma RestrictionReachesDown(restricted: string, up: string, path: string)
    requires DottedAncestor(up, path) && FieldPathMatches(restricted, up)
    ensures FieldPathMatches(restricted, path)
  {
    var r, c := TrimSpace(restricted), TrimSpace(path);
    TrimmedIsFixed(up);
    if r != up {
      assert r + "." <= up && up <= c;
    }
  }

  /** Going up a path only drops denies and only adds allows. */
  lemma FieldOrder(g: Grant, req: Request, up: string, path: string)
    requires DottedAncestor(up, path)
    ensures g.IsDeny() && Applicable(g, req, Some(up)) ==> Applicable(g, req, Some(path))
    ensures !g.IsDeny() && Applicable(g, req, Some(path)) ==> Applicable(g, req, Some(up))
  {
    forall r | r in g.restricted && FieldPathMatches(r, up)
      ensures FieldPathMatches(r, path)
    {
      RestrictionReachesDown(r, up, path);
    }
  }

  // --- the stores' pre-filter --------------------------------------------------------

  predicate ScopeMatches(scope: string, value: string) {
    scope == "*" || (if IsTemplate(scope) then value != "" else value != "" && scope == value)
  }

  predicate PassesPreFilter(g: Grant, req: Request) {
    && ScopeMatches(g.teamScope, req.team)
    && (g.objectScope.Some? ==> ScopeMatches(g.objectScope.value, req.obj))
  }

  /** The templated scope resolves to something that would have matched even
      though the request names no such scope. */
  predicate TeamSlipsThrough(g: Grant, bound: Grant, req: Request) {
    req.team == "" && IsTemplate(g.teamScope) && bound.teamScope == "*"
  }

  predicate ObjectSlipsThrough(g: Grant, bound: Grant, req: Request) {
    && req.obj == ""
    && g.objectScope.Some? && g.objectScope.value != "*"
    && bound.objectScope.Some? && (bound.objectScope.value == "" || bound.objectScope.value == "*")
  }

  /** Which dropped grants the request would have matched after binding: those
      bound to an empty or "*" scope the request leaves open. */
  lemma DroppedGrantMatches(g: Grant, a: RoleAssignment, req: Request)
    requires ResolveGrantBindings(g, a).Ok?
    ensures var bound := ResolveGrantBindings(g, a).value;
      (!PassesPreFilter(g, req) && GrantMatchesRequest(bound, req))
      <==> (GrantMatchesRequest(bound, req)
            && (TeamSlipsThrough(g, bound, req) || ObjectSlipsThrough(g, bound, req)))
  {
    var bound := ResolveGrantBindings(g, a).value;
    ResolvingKeepsTheRest(g, a);
    assert !IsTemplate(g.teamScope) ==> bound.teamScope == g.teamScope;
    assert g.objectScope.Some? && !IsTemplate(g.objectScope.value) ==> bound.objectScope == g.objectScope;
  }

  /** Bindings and object scopes with which nothing slips through. */
  predicate CleanBindings(bindings: Bindings) {
    forall k :: k in bindings ==> ScopeText(bindings[k]) != "" && ScopeText(bindings[k]) != "*"
  }

  predicate CleanScope(g: Grant) {
    g.objectScope != Some("")
  }

  lemma PreFilterIsConservative(g: Grant, a: RoleAssignment, req: Request)
    requires CleanScope(g) && CleanBindings(a.bindings) && !PassesPreFilter(g, req)
    ensures ResolveGrantBindings(g, a).Ok? ==>
              !GrantMatchesRequest(ResolveGrantBindings(g, a).value, req)
  {
    if ResolveGrantBindings(g, a).Ok? {
      DroppedGrantMatches(g, a, req);
    }
  }

  /** The same for grants used unbound, as a user's or a group's are. */
  lemma PreFilterIsConservativeUnbound(g: Grant, req: Request)
    requires CleanScope(g) && !PassesPreFilter(g, req)
    ensures !GrantMatchesRequest(g, req)
  {
  }

  /** Both conditions are needed. */
  lemma EmptyObjectScopeIsDropped(g: Grant, req: Request)
    requires g.teamScope == "*" && g.objectScope == Some("") && req.obj == ""
    requires g.permission == req.permission
    ensures !PassesPreFilter(g, req) && GrantMatchesRequest(g, req)
  {
  }

  lemma StarBindingIsDropped(g: Grant, a: RoleAssignment, req: Request)
    requires g.ownerKind == KIND_ROLE && g.ownerId == a.role && g.permission == req.permission
    requires g.teamScope == "?team" && g.objectScope == None && req.team == ""
    requires g.variableSpec == Some(map["team" := Str("required")]) && a.bindings == map["team" := Str("*")]
    ensures !PassesPreFilter(g, req)
    ensures ResolveGrantBindings(g, a).Ok? && GrantMatchesRequest(ResolveGrantBindings(g, a).value, req)
  {
    assert "?team"[1..] == "team";
    assert "team" in g.variableSpec.value;
  }
}
