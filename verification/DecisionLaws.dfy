// What the verdict does not depend on: the order in which stores answer, grants
// that have run out, deduplication, and the stores' scope pre-filter.
module DecisionLaws {
  import opened Types
  import opened Collections
  import opened Matching
  import opened AssignmentKeys
  import opened Decision

  // --- stores that answer alike -------------------------------------------------------

  /** A nil VariableSpec taken for an empty one. */
  function Normal(g: Grant): Grant {
    g.(variableSpec := Some(if g.variableSpec.None? then map[] else g.variableSpec.value))
  }

  /** cloneGrants turns a nil VariableSpec into an empty one. */
  function Normals(gs: seq<Grant>): (r: seq<Grant>)
    ensures |r| == |gs| && forall i :: 0 <= i < |r| ==> r[i] == Normal(gs[i])
  {
    seq(|gs|, i requires 0 <= i < |gs| => Normal(gs[i]))
  }

  function Unexpired(now: Time): Grant -> bool {
    (g: Grant) => !g.ExpiredAt(now)
  }

  lemma NormalDecidesAlike(g: Grant, a: RoleAssignment, req: Request, path: Option<string>, now: Time)
    ensures Normal(g).ExpiredAt(now) == g.ExpiredAt(now)
    ensures Applicable(Normal(g), req, path) == Applicable(g, req, path) && Normal(g).IsDeny() == g.IsDeny()
    ensures ResolveGrantBindings(Normal(g), a)
         == match ResolveGrantBindings(g, a) { case Ok(b) => Ok(Normal(b)) case Err => Err }
  {
  }

  /** The grants still in force, in no order. */
  ghost function Live(grants: seq<Grant>, now: Time): set<Grant> {
    set g | g in grants && !g.ExpiredAt(now) :: Normal(g)
  }

  ghost predicate SameGrants(f: (seq<Principal>, Request) -> seq<Grant>,
                             h: (seq<Principal>, Request) -> seq<Grant>, now: Time) {
    forall o, p, req: Request {:trigger f(o, req), h(p, req)} ::
      Elements(o) == Elements(p) ==> Live(f(o, req), now) == Live(h(p, req), now)
  }

  ghost predicate SameExpansion(f: seq<RoleId> -> seq<RoleId>, h: seq<RoleId> -> seq<RoleId>) {
    forall s, t {:trigger f(s), h(t)} :: Elements(s) == Elements(t) ==> Elements(f(s)) == Elements(h(t))
  }

  ghost predicate SameRoleAnswers(w: Service, v: Service) {
    && SameExpansion(w.store.expandRoles, v.store.expandRoles)
    && SameExpansion(w.builtIns.expandRoles, v.builtIns.expandRoles)
    && w.store.disabledBuiltIns == v.store.disabledBuiltIns
    && w.builtIns.roles == v.builtIns.roles
    && (forall r :: w.store.roleDefinition(r) == v.store.roleDefinition(r))
    && w.publicRole == v.publicRole && w.authenticatedRole == v.authenticatedRole
    && w.adminRole == v.adminRole && w.adminGroup == v.adminGroup
  }

  /** The same answers up to order, repetition, and grants expired by `now`. */
  ghost predicate AnswersAlike(w: Service, v: Service, now: Time) {
    && SameRoleAnswers(w, v)
    && SameGrants(w.store.grantsForOwners, v.store.grantsForOwners, now)
    && SameGrants(w.builtIns.grantsForOwners, v.builtIns.grantsForOwners, now)
    && (forall u :: Elements(w.groupsOf(u)) == Elements(v.groupsOf(u)))
    && (forall u :: Elements(w.teamsOf(u)) == Elements(v.teamsOf(u)))
    && (forall p :: Elements(w.store.assignmentsFor(p)) == Elements(v.store.assignmentsFor(p)))
  }

  lemma AlikeIsSymmetric(w: Service, v: Service, now: Time)
    requires AnswersAlike(w, v, now)
    ensures AnswersAlike(v, w, now)
  {
  }

  lemma SameMembers<T>(s: seq<T>, t: seq<T>)
    ensures Elements(s) == Elements(t) <==> forall x :: x in s <==> x in t
  {
    assert forall x :: x in s <==> x in Elements(s);
    assert forall x :: x in t <==> x in Elements(t);
  }

  lemma SameExpanded(w: Service, v: Service, root: RoleId)
    requires SameRoleAnswers(w, v)
    ensures Elements(Expanded(w, root)) == Elements(Expanded(v, root))
  {
    assert Elements(w.store.expandRoles([root])) == Elements(v.store.expandRoles([root]));
    SameMembers(Inherited(w, root), Inherited(v, root));
    assert forall r :: r in Expanded(w, root) <==> r in Expanded(v, root);
  }

  lemma SameOwners(s: seq<RoleId>, t: seq<RoleId>, builtIn: bool)
    requires Elements(s) == Elements(t)
    ensures Elements(OwnersAmong(s, builtIn)) == Elements(OwnersAmong(t, builtIn))
    ensures OwnersAmong(s, builtIn) == [] <==> OwnersAmong(t, builtIn) == []
  {
    SameMembers(s, t);
    SameMembers(OwnersAmong(s, builtIn), OwnersAmong(t, builtIn));
    EmptyElements(OwnersAmong(s, builtIn));
    EmptyElements(OwnersAmong(t, builtIn));
  }

  lemma LiveAppends(s: seq<Grant>, t: seq<Grant>, now: Time)
    ensures Live(s + t, now) == Live(s, now) + Live(t, now)
  {
  }

  lemma SameRoleGrants(w: Service, v: Service, root: RoleId, req: Request, now: Time)
    requires AnswersAlike(w, v, now)
    ensures Live(RoleGrants(w, Expanded(w, root), req), now) == Live(RoleGrants(v, Expanded(v, root), req), now)
  {
    var s, t := Expanded(w, root), Expanded(v, root);
    SameExpanded(w, v, root);
    SameOwners(s, t, true);
    SameOwners(s, t, false);
    var b, c := OwnersAmong(s, true), OwnersAmong(t, true);
    var d, e := OwnersAmong(s, false), OwnersAmong(t, false);
    LiveAppends(if b != [] then w.builtIns.grantsForOwners(b, req) else [],
                if d != [] then w.store.grantsForOwners(d, req) else [], now);
    LiveAppends(if c != [] then v.builtIns.grantsForOwners(c, req) else [],
                if e != [] then v.store.grantsForOwners(e, req) else [], now);
    assert Live(w.builtIns.grantsForOwners(b, req), now) == Live(v.builtIns.grantsForOwners(c, req), now);
    assert Live(w.store.grantsForOwners(d, req), now) == Live(v.store.grantsForOwners(e, req), now);
  }

  lemma SameDirectGrants(w: Service, v: Service, req: Request, now: Time)
    requires AnswersAlike(w, v, now)
    ensures Live(DirectGrants(w, req), now) == Live(DirectGrants(v, req), now)
  {
    var o, p := DirectOwners(w, req.user), DirectOwners(v, req.user);
    SameMembers(w.groupsOf(req.user), v.groupsOf(req.user));
    SameMembers(o, p);
    EmptyElements(o);
    EmptyElements(p);
    assert Live(w.store.grantsForOwners(o, req), now) == Live(v.store.grantsForOwners(p, req), now);
  }

  lemma CarriedOver(w: Service, v: Service, a: RoleAssignment, req: Request, now: Time, g: Grant)
    returns (h: Grant)
    requires AnswersAlike(w, v, now) && Carries(w, a, req, now, g)
    ensures Carries(v, a, req, now, h) && Normal(h) == Normal(g)
  {
    SameRoleGrants(w, v, a.role, req, now);
    SameExpanded(w, v, a.role);
    SameMembers(Expanded(w, a.role), Expanded(v, a.role));
    assert Normal(g) in Live(RoleGrants(w, Expanded(w, a.role), req), now);
    h :| h in RoleGrants(v, Expanded(v, a.role), req) && !h.ExpiredAt(now) && Normal(h) == Normal(g);
  }

  lemma BornOver(w: Service, v: Service, held: set<RoleAssignment>, req: Request, now: Time, b: Grant)
    returns (c: Grant)
    requires AnswersAlike(w, v, now) && Bears(w, held, req, now, b)
    ensures Bears(v, held, req, now, c) && Normal(c) == Normal(b)
  {
    if b in DirectGrants(w, req) && !b.ExpiredAt(now) {
      SameDirectGrants(w, v, req, now);
      assert Normal(b) in Live(DirectGrants(w, req), now);
      c :| c in DirectGrants(v, req) && !c.ExpiredAt(now) && Normal(c) == Normal(b);
    } else {
      var a, g :| a in held && Carries(w, a, req, now, g) && ResolveGrantBindings(g, a) == Ok(b);
      var h := CarriedOver(w, v, a, req, now, g);
      NormalDecidesAlike(g, a, req, None, now);
      NormalDecidesAlike(h, a, req, None, now);
      c := ResolveGrantBindings(h, a).value;
    }
  }

  lemma VerdictPartsCarryOver(w: Service, v: Service, held: set<RoleAssignment>, req: Request,
                              path: Option<string>, now: Time)
    requires AnswersAlike(w, v, now)
    ensures SomeUnbound(w, held, req, now) ==> SomeUnbound(v, held, req, now)
    ensures Denied(w, held, req, path, now) ==> Denied(v, held, req, path, now)
    ensures Allowed(w, held, req, path, now) ==> Allowed(v, held, req, path, now)
  {
    if SomeUnbound(w, held, req, now) {
      var a, g :| a in held && Carries(w, a, req, now, g) && ResolveGrantBindings(g, a).Err?;
      var h := CarriedOver(w, v, a, req, now, g);
      NormalDecidesAlike(g, a, req, path, now);
      NormalDecidesAlike(h, a, req, path, now);
    }
    forall b | Bears(w, held, req, now, b) && Applicable(b, req, path)
      ensures exists c :: Bears(v, held, req, now, c) && Applicable(c, req, path) && c.IsDeny() == b.IsDeny()
    {
      var c := BornOver(w, v, held, req, now, b);
      NormalDecidesAlike(b, RoleAssignment("", map[]), req, path, now);
      NormalDecidesAlike(c, RoleAssignment("", map[]), req, path, now);
    }
  }

  /** The verdict over given assignments is the same for stores that answer alike. */
  lemma SameVerdict(w: Service, v: Service, held: set<RoleAssignment>, req: Request, path: Option<string>, now: Time)
    requires AnswersAlike(w, v, now)
    ensures Granted(w, held, req, path, now) == Granted(v, held, req, path, now)
  {
    AlikeIsSymmetric(w, v, now);
    VerdictPartsCarryOver(w, v, held, req, path, now);
    VerdictPartsCarryOver(v, w, held, req, path, now);
  }

  // --- the one failure that is passed over ----------------------------------------------

  /** A list of disabled roles that cannot be read decides every request as an
      empty one. Every other query that fails is among those `Answered` asks
      for, except that of a definition, which is taken for a missing role. */
  lemma UnreadableListDisablesNothing(e: Engine, req: Request, path: Option<string>, now: Time)
    ensures var unread, empty := e.backend.(disabledBuiltIns := Err), e.backend.(disabledBuiltIns := Ok({}));
      Grants(e.(backend := unread), req, path, now) <==> Grants(e.(backend := empty), req, path, now)
  {
    var c := e.(backend := e.backend.(disabledBuiltIns := Err));
    var d := e.(backend := e.backend.(disabledBuiltIns := Ok({})));
    assert Answers(c) == Answers(d);
    SameQueriesAnswered(c, d, req);
  }

  lemma SameQueriesAnswered(c: Engine, d: Engine, req: Request)
    requires Answers(c) == Answers(d) && d.backend == c.backend.(disabledBuiltIns := d.backend.disabledBuiltIns)
    ensures Answered(c, req) <==> Answered(d, req)
  {
    assert AssignmentsAnswered(c, req.user) <==> AssignmentsAnswered(d, req.user);
    forall a
      ensures RoleAnswered(c, a, req) <==> RoleAnswered(d, a, req)
    {
    }
  }

  // --- deduplication ---------------------------------------------------------------------

  /** The caller's active assignments, before any is dropped as a duplicate. */
  ghost function ActiveAssignments(w: Service, user: string): set<RoleAssignment> {
    set a | a in RawAssignments(w, user) && Active(w, a)
  }

  ghost predicate CleanKeys(w: Service, user: string) {
    forall a :: a in ActiveAssignments(w, user) ==> CleanKey(a)
  }

  /** No two active assignments of the caller share a key. */
  ghost predicate KeysTellApart(w: Service, s: seq<RoleAssignment>) {
    forall a, b :: a in s && b in s && Active(w, a) && Active(w, b) && KeyText(a) == KeyText(b) ==> a == b
  }

  lemma {:induction false} KeepFirstKeepsAll(w: Service, s: seq<RoleAssignment>)
    requires KeysTellApart(w, s)
    ensures Elements(KeepFirst(w, s)) == set a | a in s && Active(w, a)
  {
    if s != [] {
      var front, last := s[..|s| - 1], s[|s| - 1];
      assert s == front + [last];
      KeepFirstKeepsAll(w, front);
      var before := KeepFirst(w, front);
      AppendNew(before, last);
      if Active(w, last) && KeyText(last) in KeysOf(before) {
        var a :| a in before && KeyText(a) == KeyText(last);
        assert a in Elements(before);
      }
    }
  }

  lemma {:induction false} KeptKeysDiffer(w: Service, s: seq<RoleAssignment>, a: RoleAssignment, b: RoleAssignment)
    requires a in KeepFirst(w, s) && b in KeepFirst(w, s) && KeyText(a) == KeyText(b)
    ensures a == b
  {
    var before := KeepFirst(w, s[..|s| - 1]);
    assert a in before || b in before ==> KeyText(a) in KeysOf(before);
    if a in before && b in before {
      KeptKeysDiffer(w, s[..|s| - 1], a, b);
    }
  }

  /** Deduplication drops nothing but repetitions if and only if the keys tell
      the caller's active assignments apart. */
  lemma DedupDropsOnlyRepetitions(w: Service, user: string)
    ensures Elements(Held(w, user)) == ActiveAssignments(w, user) <==> KeysTellApart(w, RawAssignments(w, user))
  {
    var raw := RawAssignments(w, user);
    if KeysTellApart(w, raw) {
      KeepFirstKeepsAll(w, raw);
    }
    if Elements(Held(w, user)) == ActiveAssignments(w, user) {
      forall a, b | a in raw && b in raw && Active(w, a) && Active(w, b) && KeyText(a) == KeyText(b)
        ensures a == b
      {
        assert a in ActiveAssignments(w, user) && b in ActiveAssignments(w, user);
        KeptKeysDiffer(w, raw, a, b);
      }
    }
  }

  lemma CleanKeysTellApart(w: Service, user: string)
    requires CleanKeys(w, user)
    ensures KeysTellApart(w, RawAssignments(w, user))
  {
    forall a, b | a in RawAssignments(w, user) && b in RawAssignments(w, user) && Active(w, a) && Active(w, b)
                  && KeyText(a) == KeyText(b)
      ensures a == b
    {
      assert a in ActiveAssignments(w, user) && b in ActiveAssignments(w, user);
      KeyInjective(a, b);
    }
  }

  /** As long as the keys tell the caller's assignments apart only repetitions
      are dropped, so deduplicating the user's, groups', teams' and synthetic
      assignments changes no verdict. */
  lemma DedupIsHarmless(w: Service, req: Request, path: Option<string>, now: Time)
    requires KeysTellApart(w, RawAssignments(w, req.user))
    ensures Elements(Held(w, req.user)) == ActiveAssignments(w, req.user)
    ensures Granted(w, Elements(Held(w, req.user)), req, path, now)
         == Granted(w, ActiveAssignments(w, req.user), req, path, now)
  {
    DedupDropsOnlyRepetitions(w, req.user);
  }

  /** None of the caller's listings assigns the role. */
  ghost predicate Unlisted(w: Service, user: string, r: RoleId) {
    && (user != "" ==> forall a :: a in w.store.assignmentsFor(Principal("user", user)) ==> a.role != r)
    && (forall g, a :: g in w.groupsOf(user) && a in w.store.assignmentsFor(Principal("group", g)) ==> a.role != r)
    && (forall t, a :: t in w.teamsOf(user) && a in w.store.assignmentsFor(Principal("team", t)) ==> a.role != r)
  }

  /** Who holds a role that no listing assigns: the public role everybody, the
      authenticated role whoever is named, the admin role the named members of the
      admin group, and any other role nobody. */
  lemma UnlistedRoleExactly(w: Service, user: string, r: RoleId)
    requires Unlisted(w, user, r)
    ensures (exists a :: a in ActiveAssignments(w, user) && a.role == r) <==>
              && r != ""
              && (|| r == w.publicRole
                  || (user != "" && r == w.authenticatedRole)
                  || (user != "" && r == w.adminRole && w.adminGroup != "" && w.adminGroup in w.groupsOf(user)))
  {
    var a := RoleAssignment(r, map[]);
    forall d | d in RawAssignments(w, user) && d.role == r
      ensures d in SyntheticAssignments(w, user, Groups(w, user))
    {
    }
    if a in SyntheticAssignments(w, user, Groups(w, user)) {
      assert a in RawAssignments(w, user);
    }
  }

  lemma SameActiveAssignments(w: Service, v: Service, user: string, now: Time)
    requires AnswersAlike(w, v, now)
    ensures ActiveAssignments(w, user) == ActiveAssignments(v, user)
    ensures KeysTellApart(w, RawAssignments(w, user)) ==> KeysTellApart(v, RawAssignments(v, user))
  {
    SameMembers(w.groupsOf(user), v.groupsOf(user));
    SameMembers(w.teamsOf(user), v.teamsOf(user));
    forall p {
      SameMembers(w.store.assignmentsFor(p), v.store.assignmentsFor(p));
    }
    assert forall a :: a in RawAssignments(w, user) <==> a in RawAssignments(v, user) by {
      assert forall a :: a in OwnAssignments(w, user) <==> a in OwnAssignments(v, user);
      assert forall a ::
          a in ListedAll(w, KIND_GROUP, Groups(w, user)) <==> a in ListedAll(v, KIND_GROUP, Groups(v, user));
      assert forall a :: a in ListedAll(w, KIND_TEAM, Teams(w, user)) <==> a in ListedAll(v, KIND_TEAM, Teams(v, user));
    }
    assert forall a :: Active(w, a) == Active(v, a);
  }

  /** Granting does not depend on the order in which groups, teams, assignments,
      expanded roles or grants are answered. */
  lemma GrantingIsOrderFree(w: Service, v: Service, req: Request, path: Option<string>, now: Time)
    requires AnswersAlike(w, v, now) && KeysTellApart(w, RawAssignments(w, req.user))
    ensures Granted(w, Elements(Held(w, req.user)), req, path, now)
         == Granted(v, Elements(Held(v, req.user)), req, path, now)
  {
    SameActiveAssignments(w, v, req.user, now);
    DedupIsHarmless(w, req, path, now);
    DedupIsHarmless(v, req, path, now);
    SameVerdict(w, v, ActiveAssignments(w, req.user), req, path, now);
  }

  // --- the pre-filter -----------------------------------------------------------------------

  /** v answers grant queries like w but leaves out what fails the scope
      pre-filter; the registry never pre-filters. */
  ghost predicate PreFiltered(w: Service, v: Service) {
    && v == w.(store := v.store)
    && v.store == w.store.(grantsForOwners := v.store.grantsForOwners)
    && forall o, req: Request, g
         {:trigger g in v.store.grantsForOwners(o, req)} {:trigger g in w.store.grantsForOwners(o, req)} ::
         g in v.store.grantsForOwners(o, req) <==> g in w.store.grantsForOwners(o, req) && PassesPreFilter(g, req)
  }

  ghost predicate CleanGrants(w: Service) {
    forall o, req: Request, g :: g in w.store.grantsForOwners(o, req) ==> CleanScope(g)
  }

  /** What is fetched for an assignment only loses store grants that fail the filter. */
  lemma PreFilterKeepsCarried(w: Service, v: Service, a: RoleAssignment, req: Request, now: Time, g: Grant)
    requires PreFiltered(w, v) && CleanGrants(w)
    ensures Carries(v, a, req, now, g) ==> Carries(w, a, req, now, g)
    ensures Carries(w, a, req, now, g) ==>
              Carries(v, a, req, now, g) || (CleanScope(g) && !PassesPreFilter(g, req))
  {
    assert Inherited(w, a.role) == Inherited(v, a.role);
    SameFilter(Inherited(w, a.role), r => !Disabled(w, r), r => !Disabled(v, r));
  }

  lemma {:induction false} SameFilter<T(!new)>(s: seq<T>, p: T -> bool, q: T -> bool)
    requires forall x :: p(x) == q(x)
    ensures Filter(s, p) == Filter(s, q)
  {
    if s != [] {
      SameFilter(s[..|s| - 1], p, q);
    }
  }

  /** The deciding grants among those dropped could not have applied. */
  lemma PreFilterKeepsDecisions(w: Service, v: Service, held: set<RoleAssignment>, req: Request,
                                path: Option<string>, now: Time)
    requires PreFiltered(w, v) && CleanGrants(w)
    requires forall a :: a in held ==> CleanBindings(a.bindings)
    ensures Denied(v, held, req, path, now) == Denied(w, held, req, path, now)
    ensures Allowed(v, held, req, path, now) == Allowed(w, held, req, path, now)
    ensures SomeUnbound(v, held, req, now) ==> SomeUnbound(w, held, req, now)
  {
    forall a, g
      ensures Carries(v, a, req, now, g) ==> Carries(w, a, req, now, g)
      ensures Carries(w, a, req, now, g) ==>
                Carries(v, a, req, now, g) || (CleanScope(g) && !PassesPreFilter(g, req))
    {
      PreFilterKeepsCarried(w, v, a, req, now, g);
    }
    assert DirectOwners(w, req.user) == DirectOwners(v, req.user);
    forall b | Bears(v, held, req, now, b)
      ensures Bears(w, held, req, now, b)
    {
    }
    forall b | Bears(w, held, req, now, b) && Applicable(b, req, path)
      ensures Bears(v, held, req, now, b)
    {
      if b in DirectGrants(w, req) && !b.ExpiredAt(now) {
        if !PassesPreFilter(b, req) {
          PreFilterIsConservativeUnbound(b, req);
        }
      } else {
        var a, g :| a in held && Carries(w, a, req, now, g) && ResolveGrantBindings(g, a) == Ok(b);
        if !Carries(v, a, req, now, g) {
          PreFilterIsConservative(g, a, req);
        }
      }
    }
  }

  /** With bindings neither empty nor "*" and no empty object scope, dropped
      grants could not have allowed or denied anything; all the pre-filter can
      change is that a grant that does not bind goes unseen. */
  lemma PreFilterKeepsVerdict(w: Service, v: Service, held: set<RoleAssignment>, req: Request,
                              path: Option<string>, now: Time)
    requires PreFiltered(w, v) && CleanGrants(w)
    requires forall a :: a in held ==> CleanBindings(a.bindings)
    ensures Granted(w, held, req, path, now) <==> Granted(v, held, req, path, now) && !SomeUnbound(w, held, req, now)
  {
    PreFilterKeepsDecisions(w, v, held, req, path, now);
  }
}
