// What a service behind the read-through cache is answered, and that it decides
// and lists as a service on the base does.
module CacheLaws {
  import opened Types
  import opened Collections
  import opened Assignments
  import opened StoreModel
  import opened Decision
  import opened DecisionLaws
  import opened Effective
  import CachedStore
  import RoleIndex
  import GrantScan
  import Pagination

  // --- deciding through the cache ----------------------------------------------------------

  /** e's store answers about roles and assignments as it does in state s. */
  ghost predicate ServesRoles(e: Engine, s: State) {
    && (forall p :: e.backend.assignmentsFor(p) == if ValidPrincipal(p) then Ok(Listing(s.table, p)) else Err)
    && (forall id :: e.backend.roleDefinition(id) == if id in s.roles then Ok(s.roles[id]) else Err)
    && (forall ids :: Expands(s, ids, e.backend.expandRoles(ids)))
    && e.backend.disabledBuiltIns == Ok(s.disabled)
  }

  ghost predicate Expands(s: State, ids: seq<RoleId>, r: Result<seq<RoleId>>) {
    r.Ok? && Elements(r.value) == RoleIndex.Expansion(s.index.rows, RoleIndex.Roots(ids))
  }

  /** e's store is the base itself. */
  ghost predicate ServesBase(e: Engine, s: State, now: Time) {
    && ServesRoles(e, s)
    && forall o, req: Request :: e.backend.grantsForOwners(o, req) == OwnersGrants(s.grants, o, req, now)
  }

  /** f's store is the base behind a cache: each grant answer was made at some
      moment not after now, and cloned. */
  ghost predicate ServesCached(f: Engine, s: State, now: Time) {
    && ServesRoles(f, s)
    && forall o, req: Request :: FetchedBefore(s, o, req, now, f.backend.grantsForOwners(o, req))
  }

  function ClonedGrants(r: Result<seq<Grant>>): Result<seq<Grant>> {
    if r.Ok? then Ok(Normals(r.value)) else Err
  }

  ghost predicate FetchedBefore(s: State, o: seq<Principal>, req: Request, now: Time, r: Result<seq<Grant>>) {
    exists at :: at <= now && r == ClonedGrants(OwnersGrants(s.grants, o, req, at))
  }

  /** The grants in an answer. */
  function GrantsIn(r: Result<CachedStore.Answer>): Result<seq<Grant>> {
    if r.Ok? && r.value.Grants? then Ok(r.value.grants) else Err
  }

  /** What CachedStore.Store.Read promises of a query is what a service behind
      the cache is assumed to be served: of grants ... */
  lemma ReadIsFetchedBefore(s: State, o: seq<Principal>, req: Request, at: Time, r: Result<CachedStore.Answer>,
                            now: Time)
    requires CachedStore.MadeAt(s, CachedStore.GrantsForOwners(o, req), at, r, now)
    ensures FetchedBefore(s, o, req, now, GrantsIn(r))
  {
    assert GrantsIn(r) == ClonedGrants(OwnersGrants(s.grants, o, req, at));
  }

  /** ... and of assignments, definitions and expansions. */
  lemma ReadServesRoles(s: State, p: Principal, id: RoleId, ids: seq<RoleId>, at: Time, now: Time,
                        held: Result<CachedStore.Answer>, role: Result<CachedStore.Answer>,
                        expanded: Result<CachedStore.Answer>)
    requires CachedStore.MadeAt(s, CachedStore.AssignmentsForPrincipal(p), at, held, now)
    requires CachedStore.MadeAt(s, CachedStore.RoleDefinition(id), at, role, now)
    requires CachedStore.MadeAt(s, CachedStore.ExpandRoles(ids), at, expanded, now)
    ensures held == if ValidPrincipal(p) then Ok(CachedStore.Held(Listing(s.table, p))) else Err
    ensures role == if id in s.roles then Ok(CachedStore.OneRole(s.roles[id])) else Err
    ensures expanded == Ok(CachedStore.Ids(RoleIndex.Expansion(s.index.rows, RoleIndex.Roots(ids))))
  {
  }

  /** The other cached queries: definitions, holders, a principal's grants, the
      scan, and pages, which keep their cursor and total. */
  lemma ReadServesRest(s: State, role: RoleId, p: Principal, permission: string, q: Pagination.Query, at: Time,
                       now: Time,
                       definitions: Result<CachedStore.Answer>, hits: Result<CachedStore.Answer>,
                       grants: Result<CachedStore.Answer>, holders: Result<CachedStore.Answer>,
                       page: Result<CachedStore.Answer>)
    requires CachedStore.MadeAt(s, CachedStore.RoleDefinitions, at, definitions, now)
    requires CachedStore.MadeAt(s, CachedStore.AssignmentsForRole(role), at, hits, now)
    requires CachedStore.MadeAt(s, CachedStore.GrantsForPrincipal(p), at, grants, now)
    requires CachedStore.MadeAt(s, CachedStore.PrincipalsWithGrant(permission), at, holders, now)
    requires CachedStore.MadeAt(s, CachedStore.ListGrants(q), at, page, now)
    ensures definitions == Ok(CachedStore.Roles(s.roles.Values))
    ensures hits == Ok(CachedStore.Hits(HitsOf(s.table, role)))
    ensures GrantsIn(grants) == ClonedGrants(PrincipalsGrants(s.grants, p, at))
    ensures holders.Err? <==> permission == ""
    ensures holders.Ok? ==>
              && holders.value.Holders?
              && forall h :: h in holders.value.holders <==> GrantScan.Entitled(s.grants, permission, at, h)
    ensures page.Ok? && page.value.Listed? && SamePage(page.value.page, Pagination.PageOf(
              Filter(s.grants, g => Pagination.Selected(g, q)), q.limit, q.cursor))
  {
    var named := set id | id in s.roles :: s.roles[id];
    assert named == s.roles.Values;
    if holders.Ok? {
      forall h
        ensures h in holders.value.holders <==> GrantScan.Entitled(s.grants, permission, at, h)
      {
        if GrantScan.Entitled(s.grants, permission, at, h) {
          var g :| g in s.grants && g.ownerKind == h.kind && g.ownerId == h.id;
          assert g.Owner() == h;
        }
      }
    }
  }

  predicate SamePage(cached: Pagination.Answer, live: Pagination.Answer) {
    match (cached, live)
    case (Page(gs, next, total), Page(hs, nextLive, totalLive)) =>
      gs == Normals(hs) && next == nextLive && total == totalLive
    case (Panics, Panics) => true
    case _ => false
  }

  // --- the same answers in the same order -----------------------------------------------------

  lemma {:induction false} NormalsFilter(gs: seq<Grant>, now: Time)
    ensures LiveSeq(Normals(gs), now) == LiveSeq(gs, now)
  {
    if gs == [] {
      assert Normals(gs) == gs;
    } else {
      var front, last := gs[..|gs| - 1], gs[|gs| - 1];
      assert gs == front + [last];
      NormalsFilter(front, now);
      NormalsConcat(front, [last]);
      assert Normals([last]) == [Normal(last)];
      LiveOneMore(front, last, now);
      LiveOneMore(Normals(front), Normal(last), now);
      assert Normal(Normal(last)) == Normal(last);
    }
  }

  lemma FetchedLater(s: State, o: seq<Principal>, req: Request, at: Time, now: Time)
    requires at <= now
    ensures LiveSeq(OrNone(OwnersGrants(s.grants, o, req, at)), now)
         == LiveSeq(OrNone(OwnersGrants(s.grants, o, req, now)), now)
  {
    CachedStore.CachedGrantsOnlyExpire(s, o, req, Principal(KIND_USER, ""), at, now);
    CachedStore.CachedGrantsOnlyExpire(s, o, req, Principal(KIND_USER, ""), now, now);
  }

  /** The store answers in stored order, whatever the order of the owners. */
  lemma SameOwnersGrants(s: State, o: seq<Principal>, p: seq<Principal>, req: Request, now: Time)
    requires Elements(o) == Elements(p)
    ensures OwnersGrants(s.grants, o, req, now) == OwnersGrants(s.grants, p, req, now)
  {
    SameMembers(o, p);
    assert StoreModel.KeysOf(o) == StoreModel.KeysOf(p);
  }

  lemma CachedInOrder(e: Engine, f: Engine, s: State, now: Time)
    requires ServesBase(e, s, now) && ServesCached(f, s, now)
    ensures SameGrantOrder(Answers(e).store.grantsForOwners, Answers(f).store.grantsForOwners, now)
  {
    forall o, p, req: Request | Elements(o) == Elements(p)
      ensures LiveSeq(Answers(e).store.grantsForOwners(o, req), now)
         == LiveSeq(Answers(f).store.grantsForOwners(p, req), now)
    {
      assert FetchedBefore(s, p, req, now, f.backend.grantsForOwners(p, req));
      var at :| at <= now && f.backend.grantsForOwners(p, req) == ClonedGrants(OwnersGrants(s.grants, p, req, at));
      SameOwnersGrants(s, o, p, req, now);
      FetchedLater(s, p, req, at, now);
      NormalsFilter(OrNone(OwnersGrants(s.grants, p, req, at)), now);
      assert Normals([]) == [];
    }
  }

  lemma LiveIsElements(gs: seq<Grant>, now: Time)
    ensures Live(gs, now) == Elements(LiveSeq(gs, now))
  {
    var kept := Filter(gs, Unexpired(now));
    forall g | g in Live(gs, now)
      ensures g in LiveSeq(gs, now)
    {
      var h :| h in gs && !h.ExpiredAt(now) && Normal(h) == g;
      var i :| 0 <= i < |kept| && kept[i] == h;
      assert Normals(kept)[i] == g;
    }
    forall g | g in LiveSeq(gs, now)
      ensures g in Live(gs, now)
    {
      var i :| 0 <= i < |kept| && Normals(kept)[i] == g;
      assert kept[i] in kept;
    }
  }

  lemma OrderIsFiner(f: (seq<Principal>, Request) -> seq<Grant>, h: (seq<Principal>, Request) -> seq<Grant>, now: Time)
    requires SameGrantOrder(f, h, now)
    ensures SameGrants(f, h, now)
  {
    forall o, p, req: Request | Elements(o) == Elements(p)
      ensures Live(f(o, req), now) == Live(h(p, req), now)
    {
      assert LiveSeq(f(o, req), now) == LiveSeq(h(p, req), now);
      LiveIsElements(f(o, req), now);
      LiveIsElements(h(p, req), now);
    }
  }

  lemma {:induction false} SameListed(w: Service, v: Service, kind: string, ids: seq<string>)
    requires forall p :: w.store.assignmentsFor(p) == v.store.assignmentsFor(p)
    ensures ListedAll(w, kind, ids) == ListedAll(v, kind, ids)
  {
    if ids != [] {
      SameListed(w, v, kind, ids[..|ids| - 1]);
    }
  }

  lemma {:induction false} SameKeepFirst(w: Service, v: Service, raw: seq<RoleAssignment>)
    requires forall a :: Active(w, a) == Active(v, a)
    ensures KeepFirst(w, raw) == KeepFirst(v, raw)
  {
    if raw != [] {
      SameKeepFirst(w, v, raw[..|raw| - 1]);
    }
  }

  /** The registry answers by the set of owners and expands by the set of roots. */
  ghost predicate RegistryBySet(e: Engine, now: Time) {
    && SameGrantOrder(e.builtIns.grantsForOwners, e.builtIns.grantsForOwners, now)
    && SameExpansion(e.builtIns.expandRoles, e.builtIns.expandRoles)
  }

  /** The same service over the base and over the wrapper. */
  ghost predicate BehindCache(e: Engine, f: Engine, s: State, now: Time) {
    && ServesBase(e, s, now) && ServesCached(f, s, now) && RegistryBySet(e, now)
    && f == e.(backend := f.backend)
    && f.backend.groupsOf == e.backend.groupsOf && f.backend.teamsOf == e.backend.teamsOf
  }

  lemma SameRolesServed(e: Engine, f: Engine, s: State, now: Time)
    requires BehindCache(e, f, s, now)
    ensures SameRoleAnswers(Answers(e), Answers(f))
  {
    forall a, b | Elements(a) == Elements(b)
      ensures Elements(Answers(e).store.expandRoles(a)) == Elements(Answers(f).store.expandRoles(b))
    {
      assert Expands(s, a, e.backend.expandRoles(a)) && Expands(s, b, f.backend.expandRoles(b));
      SameMembers(a, b);
      assert RoleIndex.Roots(a) == RoleIndex.Roots(b);
    }
  }

  lemma SameAssignmentsServed(e: Engine, f: Engine, s: State, p: Principal)
    requires ServesRoles(e, s) && ServesRoles(f, s)
    ensures e.backend.assignmentsFor(p) == f.backend.assignmentsFor(p)
    ensures Answers(e).store.assignmentsFor(p) == Answers(f).store.assignmentsFor(p)
  {
  }

  lemma SameHeld(e: Engine, f: Engine, s: State, user: string, now: Time)
    requires BehindCache(e, f, s, now) && SameRoleAnswers(Answers(e), Answers(f))
    ensures Held(Answers(e), user) == Held(Answers(f), user)
  {
    var w, v := Answers(e), Answers(f);
    forall p {
      SameAssignmentsServed(e, f, s, p);
    }
    SameListed(w, v, KIND_GROUP, Groups(w, user));
    SameListed(w, v, KIND_TEAM, Teams(w, user));
    SameKeepFirst(w, v, RawAssignments(w, user));
  }

  /** Only the grants differ, by some that have expired. */
  lemma CachedAlike(e: Engine, f: Engine, s: State, now: Time)
    requires BehindCache(e, f, s, now)
    ensures AnswersInOrder(Answers(e), Answers(f), now)
    ensures AnswersAlike(Answers(e), Answers(f), now)
  {
    var w, v := Answers(e), Answers(f);
    SameRolesServed(e, f, s, now);
    CachedInOrder(e, f, s, now);
    OrderIsFiner(w.store.grantsForOwners, v.store.grantsForOwners, now);
    OrderIsFiner(w.builtIns.grantsForOwners, v.builtIns.grantsForOwners, now);
    forall p {
      SameAssignmentsServed(e, f, s, p);
    }
  }

  lemma GrantsAnsweredAlike(e: Engine, f: Engine, s: State, o: seq<Principal>, p: seq<Principal>, req: Request,
                            now: Time)
    requires BehindCache(e, f, s, now) && Elements(o) == Elements(p)
    ensures GrantsAnswered(e, o, req) <==> GrantsAnswered(f, p, req)
  {
    SameMembers(o, p);
    EmptyElements(o);
    EmptyElements(p);
    assert FetchedBefore(s, p, req, now, f.backend.grantsForOwners(p, req));
  }

  lemma RoleAnsweredAlike(e: Engine, f: Engine, s: State, a: RoleAssignment, req: Request, now: Time)
    requires BehindCache(e, f, s, now) && SameRoleAnswers(Answers(e), Answers(f))
    ensures RoleAnswered(e, a, req) <==> RoleAnswered(f, a, req)
  {
    var o, p := OwnersAmong(Expanded(Answers(e), a.role), false), OwnersAmong(Expanded(Answers(f), a.role), false);
    assert Expands(s, [a.role], e.backend.expandRoles([a.role]))
           && Expands(s, [a.role], f.backend.expandRoles([a.role]));
    SameExpanded(Answers(e), Answers(f), a.role);
    SameOwners(Expanded(Answers(e), a.role), Expanded(Answers(f), a.role), false);
    GrantsAnsweredAlike(e, f, s, o, p, req, now);
  }

  lemma ReadableAlike(e: Engine, f: Engine, s: State, kind: string, ids: seq<string>)
    requires ServesRoles(e, s) && ServesRoles(f, s)
    ensures Readable(e, kind, ids) <==> Readable(f, kind, ids)
  {
    forall id {
      SameAssignmentsServed(e, f, s, Principal(kind, id));
    }
  }

  lemma AssignmentsAnsweredAlike(e: Engine, f: Engine, s: State, user: string)
    requires ServesRoles(e, s) && ServesRoles(f, s)
    requires f.backend.groupsOf == e.backend.groupsOf && f.backend.teamsOf == e.backend.teamsOf
    ensures AssignmentsAnswered(e, user) <==> AssignmentsAnswered(f, user)
    ensures DirectOwners(Answers(e), user) == DirectOwners(Answers(f), user)
  {
    SameAssignmentsServed(e, f, s, Principal(KIND_USER, user));
    ReadableAlike(e, f, s, KIND_GROUP, Groups(Answers(e), user));
    ReadableAlike(e, f, s, KIND_TEAM, Teams(Answers(e), user));
  }

  /** The wrapper fails where the base does. */
  lemma CachedAnswered(e: Engine, f: Engine, s: State, req: Request, now: Time)
    requires BehindCache(e, f, s, now)
    ensures Answered(e, req) <==> Answered(f, req)
  {
    CachedAlike(e, f, s, now);
    SameHeld(e, f, s, req.user, now);
    AssignmentsAnsweredAlike(e, f, s, req.user);
    GrantsAnsweredAlike(e, f, s, DirectOwners(Answers(e), req.user), DirectOwners(Answers(f), req.user), req, now);
    forall a
      ensures RoleAnswered(e, a, req) <==> RoleAnswered(f, a, req)
    {
      RoleAnsweredAlike(e, f, s, a, req, now);
    }
  }

  /** Behind the cache every request is decided, and every listing made entry by
      entry, as on the base at the same moment. */
  lemma CacheIsTransparent(e: Engine, f: Engine, s: State, req: Request, path: Option<string>, now: Time,
                           x: map<string, Entry>, y: map<string, Entry>)
    requires BehindCache(e, f, s, now)
    ensures Grants(e, req, path, now) <==> Grants(f, req, path, now)
    ensures Answered(e, req) <==> Answered(f, req)
    ensures var w, v := Answers(e), Answers(f);
      (Lists(w, Contributions(w, Held(w, req.user), req, now), x)
       && Lists(v, Contributions(v, Held(v, req.user), req, now), y)) ==> x == y
  {
    var w, v := Answers(e), Answers(f);
    var held := Held(w, req.user);
    CachedAlike(e, f, s, now);
    SameHeld(e, f, s, req.user, now);
    CachedAnswered(e, f, s, req, now);
    SameVerdict(w, v, Elements(held), req, path, now);
    SameAnswer(w, v, held, req, now, x, y);
  }
}
