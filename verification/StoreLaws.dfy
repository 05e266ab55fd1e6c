// What the writes of the bootstrap store mean to its queries, write by write:
// when one is refused, and what is answered differently after one that is not.
module StoreLaws {
  import opened Types
  import opened Collections
  import opened Assignments
  import opened StoreModel
  import Matching

  /** Anything the store or the built-in list defines can be assigned to a named
      principal of a valid kind, and nothing else. */
  lemma AssignableExactly(s: State, p: Principal, id: RoleId, builtIns: seq<Role>, b: Bindings)
    ensures !Refused(s, AssignRole(p, id, builtIns, b)) <==>
              && p.id != "" && p.kind in {"user", "group", "team", "role"} && id != ""
              && (id in s.roles || exists r :: r in builtIns && r.id == id)
  {
  }

  lemma UnassignableExactly(s: State, p: Principal, id: RoleId, b: Bindings)
    ensures !Refused(s, UnassignRole(p, id, b)) <==>
              && p.id != "" && p.kind in {"user", "group", "team", "role"} && id != ""
              && RoleAssignment(id, b) in Listing(s.table, p)
  {
  }

  lemma RefusedExactly(s: State, role: Role, id: RoleId, child: RoleId, g: Grant)
    ensures Refused(s, CreateRole(role)) <==> role.id == "" || role.name == "" || role.id in s.roles
    ensures Refused(s, UpdateRole(role)) <==> role.id == "" || role.name == "" || role.id !in s.roles
    ensures Refused(s, DeleteRole(id)) <==> id == "" || id !in s.roles
    ensures Refused(s, AddInheritance(id, child)) <==> id == "" || child == "" || id == child
    ensures Refused(s, CreateGrant(g)) <==> g.ownerId == "" || g.permission == "" || g.teamScope == ""
    ensures Refused(s, Disable(id)) <==> id == ""
    ensures Refused(s, Enable(id)) <==> id == ""
  {
  }

  /** A definition is the one last created or updated, until it is deleted. */
  lemma DefinitionAfter(s: State, w: Write, id: RoleId)
    ensures var after := Written(s, w);
      if (w.CreateRole? || w.UpdateRole?) && !Refused(s, w) && w.role.id == id
      then id in after.roles && after.roles[id] == w.role
      else if w == DeleteRole(id) && id != "" then id !in after.roles
      else (id in after.roles <==> id in s.roles) && (id in s.roles ==> after.roles[id] == s.roles[id])
  {
  }

  /** A principal's grants are those created for it since they were last deleted,
      in order, while they are in force. */
  lemma GrantsAfter(s: State, w: Write, p: Principal, now: Time)
    requires p.id != "" && p.kind in {"user", "group", "team", "role"}
    ensures var before, after := PrincipalsGrants(s.grants, p, now), PrincipalsGrants(Written(s, w).grants, p, now);
      && before.Ok? && after.Ok?
      && after.value ==
         if w == DeleteGrants(p) then []
         else if w.CreateGrant? && !Refused(s, w) && w.grant.ownerKind == p.kind && w.grant.ownerId == p.id
                 && (w.grant.expiresAt.Some? ==> now < w.grant.expiresAt.value)
              then before.value + [w.grant]
         else before.value
  {
    match w
    case CreateGrant(g) => if !Refused(s, w) { CreatedFor(s.grants, g, p, now); }
    case DeleteGrants(owner) => DeletedFor(s.grants, owner, p, now);
    case _ =>
  }

  lemma CreatedFor(grants: seq<Grant>, g: Grant, p: Principal, now: Time)
    requires ValidPrincipal(p)
    ensures PrincipalsGrants(grants + [g], p, now).value
         == PrincipalsGrants(grants, p, now).value + if g.Owner() == p && !g.ExpiredAt(now) then [g] else []
  {
    FilterAppend(grants, g, (h: Grant) => h.Owner() == p && !h.ExpiredAt(now));
  }

  lemma DeletedFor(grants: seq<Grant>, owner: Principal, p: Principal, now: Time)
    requires ValidPrincipal(p)
    ensures PrincipalsGrants(Filter(grants, (g: Grant) => g.Owner() != owner), p, now).value
         == if p == owner then [] else PrincipalsGrants(grants, p, now).value
  {
    var mine := (g: Grant) => g.Owner() == p && !g.ExpiredAt(now);
    var rest := (g: Grant) => g.Owner() != owner && mine(g);
    FilterTwice(grants, (g: Grant) => g.Owner() != owner, mine, rest);
    if owner == p {
      NothingLeft(grants, rest);
    } else {
      SameKept(grants, rest, mine);
    }
  }

  lemma {:induction false} NothingLeft(grants: seq<Grant>, keep: Grant -> bool)
    requires forall g :: !keep(g)
    ensures Filter(grants, keep) == []
  {
    if grants != [] {
      NothingLeft(grants[..|grants| - 1], keep);
    }
  }

  lemma {:induction false} SameKept(grants: seq<Grant>, p: Grant -> bool, q: Grant -> bool)
    requires forall g :: p(g) == q(g)
    ensures Filter(grants, p) == Filter(grants, q)
  {
    if grants != [] {
      SameKept(grants[..|grants| - 1], p, q);
    }
  }

  lemma DisabledAfter(s: State, w: Write, id: RoleId)
    ensures id in Written(s, w).disabled <==>
              if w == Disable(id) then id != "" || id in s.disabled
              else if w == Enable(id) then id == "" && id in s.disabled
              else id in s.disabled
  {
  }

  /** The listings change by the three writes about assignments only. */
  lemma ListingAfter(s: State, w: Write, p: Principal)
    requires !w.AssignRole? && !w.UnassignRole? && !w.DeleteRole?
    ensures Listing(Written(s, w).table, p) == Listing(s.table, p)
  {
  }

  /** An accepted assignment is there afterwards, or one that prints alike was. */
  lemma AssignedAfter(s: State, p: Principal, id: RoleId, builtIns: seq<Role>, b: Bindings)
    requires !Refused(s, AssignRole(p, id, builtIns, b))
    ensures var after := Listing(Written(s, AssignRole(p, id, builtIns, b)).table, p);
      || after == Listing(s.table, p) + [RoleAssignment(id, b)]
      || (after == Listing(s.table, p)
          && exists x :: x in after && x.role == id && x.bindings.Keys == b.Keys
                         && forall k :: k in b ==> Prints(x.bindings[k], b[k]))
  {
    WrittenAssign(s, p, id, builtIns, b);
    var a := RoleAssignment(id, b);
    if exists x :: x in Listing(s.table, p) && SamePair(x, a) {
      var x :| x in Listing(s.table, p) && SamePair(x, a);
      MapEqualsSymmetric(x.bindings, b);
    }
  }

  predicate Prints(v: Value, u: Value) {
    Matching.Sprint(v) == Matching.Sprint(u)
  }
}
