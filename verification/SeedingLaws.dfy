// What an equivalent grant is good for: it decides every request as the other
// does, so seeding is as good as writing the whole list.
module SeedingLaws {
  import opened Types
  import opened Collections
  import opened Matching
  import opened Assignments
  import opened StoreModel
  import opened Seeding
  import opened Decision
  import opened CacheLaws
  import DecisionLaws

  /** Equal owner, effect, permission, scopes, expiry and variables, and the same
      restricted fields in any order. */
  lemma EquivalentExactly(g: Grant, h: Grant)
    ensures Equivalent(g, h) <==>
              && g.ownerKind == h.ownerKind && g.ownerId == h.ownerId && g.effect == h.effect
              && g.permission == h.permission && g.teamScope == h.teamScope && g.objectScope == h.objectScope
              && g.expiresAt == h.expiresAt && g.variableSpec == h.variableSpec
              && multiset(g.restricted) == multiset(h.restricted)
  {
    assert g.(restricted := []) == h.(restricted := []) ==>
        h == g.(restricted := h.restricted);
  }

  lemma EquivalenceHolds(g: Grant, h: Grant, k: Grant)
    ensures Equivalent(g, g)
    ensures Equivalent(g, h) ==> Equivalent(h, g)
    ensures Equivalent(g, h) && Equivalent(h, k) ==> Equivalent(g, k)
  {
  }

  lemma SameFields(g: Grant, h: Grant)
    requires Equivalent(g, h)
    ensures h == g.(restricted := h.restricted)
    ensures forall f :: f in g.restricted <==> f in h.restricted
    ensures g.restricted == [] <==> h.restricted == []
  {
    EquivalentExactly(g, h);
    assert forall f :: f in g.restricted <==> f in multiset(g.restricted);
    assert forall f :: f in h.restricted <==> f in multiset(h.restricted);
    assert |multiset(g.restricted)| == |g.restricted| && |multiset(h.restricted)| == |h.restricted|;
  }

  /** Expired alike, of the same owner and effect, bound or unbindable alike, and
      applicable to the same requests and paths, bound or not. */
  lemma EquivalentsDecideAlike(g: Grant, h: Grant, a: RoleAssignment, req: Request, path: Option<string>, now: Time)
    requires Equivalent(g, h)
    ensures g.ExpiredAt(now) == h.ExpiredAt(now) && g.Owner() == h.Owner() && g.IsDeny() == h.IsDeny()
    ensures Applicable(g, req, path) == Applicable(h, req, path)
    ensures ResolveGrantBindings(g, a).Ok? == ResolveGrantBindings(h, a).Ok?
    ensures ResolveGrantBindings(g, a).Ok? ==>
              var b, d := ResolveGrantBindings(g, a).value, ResolveGrantBindings(h, a).value;
              Equivalent(b, d) && Applicable(b, req, path) == Applicable(d, req, path)
  {
    SameFields(g, h);
    AppliesAlike(g, h, req, path);
    if ResolveGrantBindings(g, a).Ok? {
      var b, d := ResolveGrantBindings(g, a).value, ResolveGrantBindings(h, a).value;
      assert d == b.(restricted := d.restricted) && b.restricted == g.restricted && d.restricted == h.restricted;
      EquivalentExactly(g, h);
      EquivalentExactly(b, d);
      AppliesAlike(b, d, req, path);
    }
  }

  lemma AppliesAlike(g: Grant, h: Grant, req: Request, path: Option<string>)
    requires Equivalent(g, h)
    ensures Applicable(g, req, path) == Applicable(h, req, path)
  {
    SameFields(g, h);
  }

  // --- stores with equivalent answers ------------------------------------------------------

  ghost predicate EachIn(s: seq<Grant>, t: seq<Grant>) {
    forall g :: g in s ==> exists h :: h in t && Equivalent(g, h)
  }

  /** The same service over a store whose grants have equivalents here and there. */
  ghost predicate Twins(w: Service, v: Service) {
    && v == w.(store := v.store)
    && v.store == w.store.(grantsForOwners := v.store.grantsForOwners)
    && forall o, req: Request {:trigger w.store.grantsForOwners(o, req)} {:trigger v.store.grantsForOwners(o, req)} ::
         EachIn(w.store.grantsForOwners(o, req), v.store.grantsForOwners(o, req))
         && EachIn(v.store.grantsForOwners(o, req), w.store.grantsForOwners(o, req))
  }

  lemma TwinsExpandAlike(w: Service, v: Service, root: RoleId)
    requires Twins(w, v)
    ensures Expanded(w, root) == Expanded(v, root)
  {
    DecisionLaws.SameFilter(Inherited(w, root), r => !Disabled(w, r), r => !Disabled(v, r));
  }

  lemma TwinIsFetched(w: Service, v: Service, roles: seq<RoleId>, req: Request, g: Grant) returns (h: Grant)
    requires Twins(w, v) && g in RoleGrants(w, roles, req)
    ensures h in RoleGrants(v, roles, req) && Equivalent(g, h)
  {
    var custom := OwnersAmong(roles, false);
    if OwnersAmong(roles, true) != [] && g in w.builtIns.grantsForOwners(OwnersAmong(roles, true), req) {
      h := g;
    } else {
      assert EachIn(w.store.grantsForOwners(custom, req), v.store.grantsForOwners(custom, req));
      h :| h in v.store.grantsForOwners(custom, req) && Equivalent(g, h);
    }
  }

  lemma TwinIsCarried(w: Service, v: Service, a: RoleAssignment, req: Request, now: Time, g: Grant) returns (h: Grant)
    requires Twins(w, v) && Carries(w, a, req, now, g)
    ensures Carries(v, a, req, now, h) && Equivalent(g, h)
  {
    TwinsExpandAlike(w, v, a.role);
    h := TwinIsFetched(w, v, Expanded(w, a.role), req, g);
    SameFields(g, h);
  }

  lemma TwinBears(w: Service, v: Service, held: set<RoleAssignment>, req: Request, now: Time, b: Grant)
    returns (d: Grant)
    requires Twins(w, v) && Bears(w, held, req, now, b)
    ensures Bears(v, held, req, now, d) && Equivalent(b, d)
  {
    if b in DirectGrants(w, req) && !b.ExpiredAt(now) {
      var owners := DirectOwners(w, req.user);
      assert DirectOwners(v, req.user) == owners;
      assert EachIn(w.store.grantsForOwners(owners, req), v.store.grantsForOwners(owners, req));
      d :| d in v.store.grantsForOwners(owners, req) && Equivalent(b, d);
      SameFields(b, d);
    } else {
      var a, g :| a in held && Carries(w, a, req, now, g) && ResolveGrantBindings(g, a) == Ok(b);
      var h := TwinIsCarried(w, v, a, req, now, g);
      EquivalentsDecideAlike(g, h, a, req, None, now);
      d := ResolveGrantBindings(h, a).value;
    }
  }

  lemma TwinParts(w: Service, v: Service, held: set<RoleAssignment>, req: Request, path: Option<string>, now: Time)
    requires Twins(w, v)
    ensures SomeUnbound(w, held, req, now) ==> SomeUnbound(v, held, req, now)
    ensures Denied(w, held, req, path, now) ==> Denied(v, held, req, path, now)
    ensures Allowed(w, held, req, path, now) ==> Allowed(v, held, req, path, now)
  {
    if SomeUnbound(w, held, req, now) {
      var a, g :| a in held && Carries(w, a, req, now, g) && ResolveGrantBindings(g, a).Err?;
      var h := TwinIsCarried(w, v, a, req, now, g);
      EquivalentsDecideAlike(g, h, a, req, path, now);
    }
    forall b | Bears(w, held, req, now, b) && Applicable(b, req, path)
      ensures exists d :: Bears(v, held, req, now, d) && Applicable(d, req, path) && d.IsDeny() == b.IsDeny()
    {
      var d := TwinBears(w, v, held, req, now, b);
      EquivalentsDecideAlike(b, d, RoleAssignment("", map[]), req, path, now);
    }
  }

  lemma TwinVerdict(w: Service, v: Service, held: set<RoleAssignment>, req: Request, path: Option<string>, now: Time)
    requires Twins(w, v)
    ensures Granted(w, held, req, path, now) <==> Granted(v, held, req, path, now)
  {
    assert Twins(v, w);
    TwinParts(w, v, held, req, path, now);
    TwinParts(v, w, held, req, path, now);
  }

  // --- after seeding -----------------------------------------------------------------------

  lemma FetchedAlike(g: Grant, h: Grant, keys: set<string>, req: Request, now: Time)
    requires Equivalent(g, h)
    ensures Fetched(g, keys, req, now) == Fetched(h, keys, req, now)
  {
    EquivalentExactly(g, h);
  }

  lemma OwnersGrantsAlike(s: seq<Grant>, t: seq<Grant>, o: seq<Principal>, req: Request, now: Time)
    requires EachIn(s, t)
    ensures EachIn(OrNone(OwnersGrants(s, o, req, now)), OrNone(OwnersGrants(t, o, req, now)))
  {
    forall g | g in OrNone(OwnersGrants(s, o, req, now))
      ensures exists h :: h in OrNone(OwnersGrants(t, o, req, now)) && Equivalent(g, h)
    {
      assert g in s;
      var h :| h in t && Equivalent(g, h);
      FetchedAlike(g, h, StoreModel.KeysOf(o), req, now);
    }
  }

  /** What seeding leaves has an equivalent for all that was wanted, and nothing
      that was not. */
  lemma SeededIsWanted(grants: seq<Grant>, wanted: seq<Grant>, now: Time, storeClock: nat -> Time)
    ensures EachIn(grants + Missing(grants, wanted, now, storeClock), grants + wanted)
    ensures EachIn(grants + wanted, grants + Missing(grants, wanted, now, storeClock))
  {
    var missing := Missing(grants, wanted, now, storeClock);
    forall g | g in grants + missing
      ensures g in grants + wanted && Equivalent(g, g)
    {
      if g !in grants {
        MissingAreWanting(grants, wanted, now, storeClock, g);
      }
    }
    forall g | g in grants + wanted
      ensures exists h :: h in grants + missing && Equivalent(g, h)
    {
      if g in grants {
        assert g in grants + missing && Equivalent(g, g);
      } else {
        var i :| 0 <= i < |wanted| && wanted[i] == g;
        MissingMembers(grants, wanted, now, storeClock, i);
        if g in missing {
          assert g in grants + missing && Equivalent(g, g);
        } else {
          var h :| h in grants && Equivalent(h, g);
          EquivalenceHolds(h, g, g);
          assert h in grants + missing;
        }
      }
    }
  }

  /** d is c with another store behind its grant queries. */
  ghost predicate OtherGrants(c: Engine, d: Engine) {
    d == c.(backend := c.backend.(grantsForOwners := d.backend.grantsForOwners))
  }

  lemma TwinEngines(c: Engine, d: Engine, s: State, grants: seq<Grant>, others: seq<Grant>, now: Time)
    requires OtherGrants(c, d) && EachIn(grants, others) && EachIn(others, grants)
    requires ServesBase(c, s.(grants := grants), now) && ServesBase(d, s.(grants := others), now)
    ensures Twins(Answers(c), Answers(d))
  {
    var w, v := Answers(c), Answers(d);
    forall o, req: Request
      ensures EachIn(w.store.grantsForOwners(o, req), v.store.grantsForOwners(o, req))
      ensures EachIn(v.store.grantsForOwners(o, req), w.store.grantsForOwners(o, req))
    {
      OwnersGrantsAlike(grants, others, o, req, now);
      OwnersGrantsAlike(others, grants, o, req, now);
    }
  }

  lemma TwinsHold(w: Service, v: Service, user: string)
    requires Twins(w, v)
    ensures Held(w, user) == Held(v, user)
  {
    SameListed(w, v, KIND_GROUP, Groups(w, user));
    SameListed(w, v, KIND_TEAM, Teams(w, user));
    SameKeepFirst(w, v, RawAssignments(w, user));
  }

  /** The same owners can be asked about. */
  lemma OwnersAnswered(c: Engine, d: Engine, s: State, grants: seq<Grant>, others: seq<Grant>, o: seq<Principal>,
                       req: Request, now: Time)
    requires ServesBase(c, s.(grants := grants), now) && ServesBase(d, s.(grants := others), now)
    ensures GrantsAnswered(c, o, req) <==> GrantsAnswered(d, o, req)
  {
  }

  lemma TwinRoleAnswered(c: Engine, d: Engine, s: State, grants: seq<Grant>, others: seq<Grant>, a: RoleAssignment,
                         req: Request, now: Time)
    requires OtherGrants(c, d) && Twins(Answers(c), Answers(d))
    requires ServesBase(c, s.(grants := grants), now) && ServesBase(d, s.(grants := others), now)
    ensures RoleAnswered(c, a, req) <==> RoleAnswered(d, a, req)
  {
    TwinsExpandAlike(Answers(c), Answers(d), a.role);
    OwnersAnswered(c, d, s, grants, others, OwnersAmong(Expanded(Answers(c), a.role), false), req, now);
  }

  lemma TwinAssignmentsAnswered(c: Engine, d: Engine, user: string)
    requires OtherGrants(c, d)
    ensures AssignmentsAnswered(c, user) <==> AssignmentsAnswered(d, user)
    ensures DirectOwners(Answers(c), user) == DirectOwners(Answers(d), user)
  {
  }

  lemma TwinsAnswered(c: Engine, d: Engine, s: State, grants: seq<Grant>, others: seq<Grant>, req: Request, now: Time)
    requires OtherGrants(c, d) && Twins(Answers(c), Answers(d))
    requires ServesBase(c, s.(grants := grants), now) && ServesBase(d, s.(grants := others), now)
    ensures Held(Answers(c), req.user) == Held(Answers(d), req.user)
    ensures Answered(c, req) <==> Answered(d, req)
  {
    TwinsHold(Answers(c), Answers(d), req.user);
    TwinAssignmentsAnswered(c, d, req.user);
    OwnersAnswered(c, d, s, grants, others, DirectOwners(Answers(c), req.user), req, now);
    forall a
      ensures RoleAnswered(c, a, req) <==> RoleAnswered(d, a, req)
    {
      TwinRoleAnswered(c, d, s, grants, others, a, req, now);
    }
  }

  /** After seeding every request is decided, at every moment, as if the whole
      list had been written. */
  lemma SeedingDecidesAsWritten(c: Engine, d: Engine, s: State, wanted: seq<Grant>, before: Time,
                                storeClock: nat -> Time,
                                req: Request, path: Option<string>, now: Time)
    requires OtherGrants(c, d)
    requires ServesBase(c, s.(grants := s.grants + Missing(s.grants, wanted, before, storeClock)), now)
    requires ServesBase(d, s.(grants := s.grants + wanted), now)
    ensures Grants(c, req, path, now) <==> Grants(d, req, path, now)
  {
    var seeded := s.grants + Missing(s.grants, wanted, before, storeClock);
    SeededIsWanted(s.grants, wanted, before, storeClock);
    TwinEngines(c, d, s, seeded, s.grants + wanted, now);
    TwinsAnswered(c, d, s, seeded, s.grants + wanted, req, now);
    TwinVerdict(Answers(c), Answers(d), Elements(Held(Answers(c), req.user)), req, path, now);
  }
}
