// The values the engine passes around (types.go): principals, roles,
// assignments with their bindings, grants and requests.
module Types {

  datatype Option<+T> = None | Some(value: T)

  /** Go's (value, error) pairs; error texts are not modelled. */
  datatype Result<+T> = Ok(value: T) | Err

  type RoleId = string

  /** Instants, in nanoseconds. */
  type Time = int

  const KIND_USER := "user"
  const KIND_GROUP := "group"
  const KIND_TEAM := "team"
  const KIND_ROLE := "role"

  const EFFECT_ALLOW := "allow"
  const EFFECT_DENY := "deny"

  const BUILTIN_PREFIX := "builtin."

  /** A principal kind is any string in the source; only four are valid. */
  datatype Principal = Principal(kind: string, id: string)

  predicate ValidKind(kind: string) {
    kind == KIND_USER || kind == KIND_GROUP || kind == KIND_TEAM || kind == KIND_ROLE
  }

  predicate ValidPrincipal(p: Principal) {
    p.id != "" && ValidKind(p.kind)
  }

  /** What a binding of type `any` may hold. A float keeps its whole part and
      its printed text. A value of any other dynamic type keeps its printed text
      and which value it is: reflect.DeepEqual may part two that print alike. */
  datatype Value =
    | Str(s: string)
    | Int(n: int)
    | Int64(n: int)
    | Float(whole: int, text: string)
    | Other(identity: int, text: string)

  type Bindings = map<string, Value>

  datatype RoleAssignment = RoleAssignment(role: RoleId, bindings: Bindings)

  datatype AssignmentHit = AssignmentHit(role: RoleId, bindings: Bindings, holder: Principal)

  datatype Role = Role(id: RoleId, name: string, description: string, disabled: bool)

  /** A nil and an empty VariableSpec differ under reflect.DeepEqual, so the
      spec is optional. */
  datatype Grant = Grant(
    ownerKind: string,
    ownerId: string,
    effect: string,
    teamScope: string,
    objectScope: Option<string>,
    permission: string,
    expiresAt: Option<Time>,
    restricted: seq<string>,
    variableSpec: Option<Bindings>)
  {
    function Owner(): Principal { Principal(ownerKind, ownerId) }

    predicate IsDeny() { effect == EFFECT_DENY }

    predicate ExpiredAt(now: Time) {
      expiresAt.Some? && expiresAt.value <= now
    }
  }

  datatype Request = Request(user: string, team: string, obj: string, permission: string)
}
