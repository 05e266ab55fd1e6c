// Small services on which the decision procedure does what its laws leave open:
// an order that matters, a grant that goes unseen, a disabled role that grants.
module Witnesses {
  import opened Types
  import opened Collections
  import opened Matching
  import opened AssignmentKeys
  import opened Decision
  import opened DecisionLaws

  // --- where the order matters ----------------------------------------------------------------

  const ONE_LIST := RoleAssignment("r", map["x" := Str("1,y=2")])
  const TWO_KEYS := RoleAssignment("r", map["x" := Str("1"), "y" := Str("2")])
  const WITHIN_Y := Grant(KIND_ROLE, "r", EFFECT_ALLOW, "?y", None, "p", None, [], Some(map["y" := Str("required")]))
  const IN_TEAM_2 := Request("u", "2", "", "p")

  function AssignedTo(p: Principal): seq<RoleAssignment> {
    if p == Principal(KIND_GROUP, "a") then [ONE_LIST]
    else if p == Principal(KIND_GROUP, "b") then [TWO_KEYS] else []
  }

  function GrantedTo(owners: seq<Principal>): seq<Grant> {
    if Principal(KIND_ROLE, "r") in owners then [WITHIN_Y] else []
  }

  /** A caller in these groups; a and b hold assignments with one key. */
  function InGroups(groups: seq<string>): Service {
    var store := StoreView((p: Principal) => AssignedTo(p), (_: RoleId) => Some(Role("r", "r", "", false)),
                           (ids: seq<RoleId>) => ids, (o: seq<Principal>, _: Request) => GrantedTo(o), {});
    var registry := RegistryView(map[], (ids: seq<RoleId>) => ids, (_, _) => []);
    Service(store, registry, (_: string) => groups, _ => [], "", "", "", "")
  }

  lemma GroupsAreAlike(now: Time)
    ensures AnswersAlike(InGroups(["a", "b"]), InGroups(["b", "a"]), now)
  {
    forall o: seq<Principal>, p: seq<Principal> | Elements(o) == Elements(p)
      ensures GrantedTo(o) == GrantedTo(p)
    {
      SameMembers(o, p);
    }
    SameMembers(["a", "b"], ["b", "a"]);
  }

  lemma DistinctTwo(first: string, second: string)
    requires first != second
    ensures Distinct([first, second]) == [first, second]
  {
    assert [first, second][..1] == [first] && [first][..0] == [];
    assert Distinct([first]) == [first];
  }

  lemma ListedTwo(w: Service, kind: string, first: string, second: string)
    ensures ListedAll(w, kind, [first, second])
         == w.store.assignmentsFor(Principal(kind, first)) + w.store.assignmentsFor(Principal(kind, second))
  {
    assert [first, second][..1] == [first] && [first][..0] == [];
    assert ListedAll(w, kind, [first]) == w.store.assignmentsFor(Principal(kind, first));
  }

  lemma RawOfTwo(first: string, second: string, a: RoleAssignment, b: RoleAssignment)
    requires first != second
    requires AssignedTo(Principal(KIND_GROUP, first)) == [a] && AssignedTo(Principal(KIND_GROUP, second)) == [b]
    ensures RawAssignments(InGroups([first, second]), "u") == [a, b]
  {
    var w, names := InGroups([first, second]), [first, second];
    DistinctTwo(first, second);
    ListedTwo(w, KIND_GROUP, first, second);
    assert KIND_USER[0] != KIND_GROUP[0];
    assert Groups(w, "u") == names && Teams(w, "u") == [];
    assert OwnAssignments(w, "u") == [] && SyntheticAssignments(w, "u", names) == [];
    assert [] + ([a] + [b]) + [] + [] == [a, b];
  }

  lemma FirstOfTwo(w: Service, a: RoleAssignment, b: RoleAssignment)
    requires Active(w, a) && KeyText(a) == KeyText(b)
    ensures KeepFirst(w, [a, b]) == [a]
  {
    KeepFirstGrows(w, [], a);
    assert [] + [a] == [a] && [a] + [b] == [a, b] && KeepFirst(w, []) == [];
    KeepFirstGrows(w, [a], b);
    assert a in KeepFirst(w, [a]);
  }

  lemma FirstIsHeld(first: string, second: string, a: RoleAssignment, b: RoleAssignment)
    requires first != second && a.role == "r" && KeyText(a) == KeyText(b)
    requires AssignedTo(Principal(KIND_GROUP, first)) == [a] && AssignedTo(Principal(KIND_GROUP, second)) == [b]
    ensures Elements(Held(InGroups([first, second]), "u")) == {a}
  {
    RawOfTwo(first, second, a, b);
    assert !IsBuiltIn("r");
    FirstOfTwo(InGroups([first, second]), a, b);
  }

  lemma OneOwner(r: RoleId)
    ensures OwnersAmong([r], IsBuiltIn(r)) == [Principal(KIND_ROLE, r)] && OwnersAmong([r], !IsBuiltIn(r)) == []
  {
    assert [r][..0] == [];
  }

  lemma OneEnabled(w: Service, r: RoleId)
    requires Inherited(w, r) == [r] && !Disabled(w, r)
    ensures Expanded(w, r) == [r]
  {
    FilterAppend([], r, (x: RoleId) => !Disabled(w, x));
    assert [] + [r] == [r];
  }

  lemma FetchesWithinY(groups: seq<string>)
    ensures var w := InGroups(groups);
      Expanded(w, "r") == ["r"] && RoleGrants(w, ["r"], IN_TEAM_2) == [WITHIN_Y] && DirectGrants(w, IN_TEAM_2) == []
  {
    var w := InGroups(groups);
    assert !IsBuiltIn("r");
    OneEnabled(w, "r");
    OneOwner("r");
    assert KIND_ROLE[0] != KIND_USER[0] && KIND_ROLE[0] != KIND_GROUP[0];
  }

  lemma BindsWithinY()
    ensures ResolveGrantBindings(WITHIN_Y, ONE_LIST).Err?
    ensures ResolveGrantBindings(WITHIN_Y, TWO_KEYS) == Ok(WITHIN_Y.(teamScope := "2"))
    ensures !WITHIN_Y.IsDeny() && Applicable(WITHIN_Y.(teamScope := "2"), IN_TEAM_2, None)
  {
    assert "?y"[1..] == "y" && "x"[0] != "y"[0];
    assert "y" !in ONE_LIST.bindings && "y" in TWO_KEYS.bindings;
    assert WITHIN_Y.variableSpec.value["y"] == Str("required");
    assert EFFECT_ALLOW[0] != EFFECT_DENY[0];
  }

  lemma OneListFails(groups: seq<string>, now: Time)
    ensures SomeUnbound(InGroups(groups), {ONE_LIST}, IN_TEAM_2, now)
  {
    FetchesWithinY(groups);
    BindsWithinY();
    assert Carries(InGroups(groups), ONE_LIST, IN_TEAM_2, now, WITHIN_Y);
  }

  /** One assignment that one grant is fetched for, and nothing direct. */
  lemma OnlyGrantDecides(w: Service, a: RoleAssignment, req: Request, path: Option<string>, now: Time, g: Grant,
                         bound: Grant)
    requires Expanded(w, a.role) == [a.role] && RoleGrants(w, [a.role], req) == [g] && DirectGrants(w, req) == []
    requires g.Owner() == Principal(KIND_ROLE, a.role) && !g.ExpiredAt(now) && ResolveGrantBindings(g, a) == Ok(bound)
    requires req.permission != "" && !bound.IsDeny() && Applicable(bound, req, path)
    ensures Granted(w, {a}, req, path, now)
  {
    forall h
      ensures Carries(w, a, req, now, h) <==> h == g
    {
    }
    assert Bears(w, {a}, req, now, bound);
    forall b | Bears(w, {a}, req, now, b)
      ensures b == bound
    {
    }
  }

  lemma TwoKeysGrant(groups: seq<string>, now: Time)
    ensures Granted(InGroups(groups), {TWO_KEYS}, IN_TEAM_2, None, now)
  {
    FetchesWithinY(groups);
    BindsWithinY();
    OnlyGrantDecides(InGroups(groups), TWO_KEYS, IN_TEAM_2, None, now, WITHIN_Y, WITHIN_Y.(teamScope := "2"));
  }

  /** Where two assignments share a key, the order in which the identity provider
      lists the groups decides which of them is kept, and so the verdict. */
  lemma OrderMattersWhereKeysCollide(now: Time)
    ensures var w, v := InGroups(["a", "b"]), InGroups(["b", "a"]);
      && AnswersAlike(w, v, now)
      && !Granted(w, Elements(Held(w, "u")), IN_TEAM_2, None, now)
      && Granted(v, Elements(Held(v, "u")), IN_TEAM_2, None, now)
  {
    GroupsAreAlike(now);
    CommaInValue("r");
    FirstIsHeld("a", "b", ONE_LIST, TWO_KEYS);
    FirstIsHeld("b", "a", TWO_KEYS, ONE_LIST);
    OneListFails(["a", "b"], now);
    TwoKeysGrant(["b", "a"], now);
  }

  // --- a grant that goes unseen -----------------------------------------------------------

  const ALLOWING := Grant(KIND_USER, "u", EFFECT_ALLOW, "*", None, "p", None, [], None)
  const UNBINDABLE := Grant(KIND_ROLE, "r", EFFECT_ALLOW, "t2", None, "p", None, [], Some(map["x" := Str("required")]))
  const ASKING := Request("u", "t1", "", "p")

  /** A store with both grants, one role and no inheritance. */
  function TwoGrants(grantsFor: (seq<Principal>, Request) -> seq<Grant>): Service {
    var store := StoreView(_ => [], _ => None, (ids: seq<RoleId>) => ids, grantsFor, {});
    var registry := RegistryView(map[], (ids: seq<RoleId>) => ids, (_, _) => []);
    Service(store, registry, _ => [], _ => [], "", "", "", "")
  }

  function OneOfTwo(o: seq<Principal>): Grant {
    if Principal(KIND_USER, "u") in o then ALLOWING else UNBINDABLE
  }

  /** The store that does not look at scopes, and the one that does. */
  function Careless(): Service {
    TwoGrants((o: seq<Principal>, _: Request) => [OneOfTwo(o)])
  }

  function Careful(): Service {
    TwoGrants((o: seq<Principal>, req: Request) => if PassesPreFilter(OneOfTwo(o), req) then [OneOfTwo(o)] else [])
  }

  lemma TwoGrantsMatch()
    ensures PassesPreFilter(ALLOWING, ASKING) && !PassesPreFilter(UNBINDABLE, ASKING)
    ensures Applicable(ALLOWING, ASKING, None) && !ALLOWING.IsDeny()
    ensures ResolveGrantBindings(UNBINDABLE, RoleAssignment("r", map[])).Err?
  {
    assert "t2"[1] != "t1"[1];
    assert UNBINDABLE.variableSpec.value["x"] == Str("required");
    assert EFFECT_ALLOW[0] != EFFECT_DENY[0];
  }

  lemma TwoGrantsFetched(w: Service, grantsFor: (seq<Principal>, Request) -> seq<Grant>)
    requires w == TwoGrants(grantsFor)
    ensures DirectGrants(w, ASKING) == grantsFor([Principal(KIND_USER, "u")], ASKING)
    ensures Expanded(w, "r") == ["r"]
    ensures RoleGrants(w, ["r"], ASKING) == grantsFor([Principal(KIND_ROLE, "r")], ASKING)
  {
    assert !IsBuiltIn("r");
    OneOwner("r");
    OneEnabled(w, "r");
    DirectOwnersOfTwo(w, grantsFor);
  }

  lemma DirectOwnersOfTwo(w: Service, grantsFor: (seq<Principal>, Request) -> seq<Grant>)
    requires w == TwoGrants(grantsFor)
    ensures DirectOwners(w, "u") == [Principal(KIND_USER, "u")]
  {
    assert Groups(w, "u") == [];
  }

  lemma UnfilteredFails(now: Time)
    ensures SomeUnbound(Careless(), {RoleAssignment("r", map[])}, ASKING, now)
  {
    var w := Careless();
    var a := RoleAssignment("r", map[]);
    TwoGrantsMatch();
    TwoGrantsFetched(w, w.store.grantsForOwners);
    assert KIND_ROLE[0] != KIND_USER[0];
    assert Carries(w, a, ASKING, now, UNBINDABLE);
  }

  lemma FilteredGrants(now: Time)
    ensures Granted(Careful(), {RoleAssignment("r", map[])}, ASKING, None, now)
  {
    var v := Careful();
    var held := {RoleAssignment("r", map[])};
    TwoGrantsMatch();
    TwoGrantsFetched(v, v.store.grantsForOwners);
    assert KIND_ROLE[0] != KIND_USER[0];
    assert RoleGrants(v, ["r"], ASKING) == [];
    assert ALLOWING in DirectGrants(v, ASKING);
    assert Bears(v, held, ASKING, now, ALLOWING);
    forall b | Bears(v, held, ASKING, now, b)
      ensures b == ALLOWING
    {
    }
  }

  lemma CarefulIsFiltered()
    ensures PreFiltered(Careless(), Careful()) && CleanGrants(Careless())
  {
  }

  /** The filtered store grants what the unfiltered one fails: the request is in
      another team than the grant that lacks its variable. */
  lemma PreFilterHidesUnboundGrant(now: Time)
    ensures var w, v, held := Careless(), Careful(), {RoleAssignment("r", map[])};
      && PreFiltered(w, v) && CleanGrants(w)
      && Granted(v, held, ASKING, None, now) && !Granted(w, held, ASKING, None, now)
  {
    CarefulIsFiltered();
    UnfilteredFails(now);
    FilteredGrants(now);
  }

  // --- a disabled role that grants --------------------------------------------------------------

  const OF_ROLE := Grant(KIND_ROLE, "builtin.r", EFFECT_ALLOW, "*", None, "p", None, [], None)
  const ANYONE := Request("", "", "", "p")

  /** The public role is built-in and disabled by the store, if the store says so. */
  function PublicRole(disabled: Result<set<RoleId>>): Engine {
    var backend := Backend((_: Principal) => Err, (_: RoleId) => Err, (_: seq<RoleId>) => Err,
                           (_: seq<Principal>, _: Request) => Err, disabled, (_: string) => Err, (_: string) => Err);
    var registry := RegistryView(map["builtin.r" := Role("builtin.r", "r", "", false)], (ids: seq<RoleId>) => ids,
                                 (_: seq<Principal>, _: Request) => [OF_ROLE]);
    Engine(backend, registry, "builtin.r", "", "", "")
  }

  lemma PublicIsHeld(disabled: Result<set<RoleId>>)
    ensures Held(Answers(PublicRole(disabled)), "") == [RoleAssignment("builtin.r", map[])]
  {
    var w, a := Answers(PublicRole(disabled)), RoleAssignment("builtin.r", map[]);
    assert RawAssignments(w, "") == [a];
    KeepFirstGrows(w, [], a);
    assert [] + [a] == [a] && KeepFirst(w, []) == [];
  }

  lemma BuiltInPrefixed()
    ensures IsBuiltIn("builtin.r") && OwnersAmong(["builtin.r"], true) == [Principal(KIND_ROLE, "builtin.r")]
    ensures OwnersAmong(["builtin.r"], false) == []
  {
    assert "builtin.r"[..8] == BUILTIN_PREFIX;
    OneOwner("builtin.r");
  }

  lemma PublicIsFetched(disabled: Result<set<RoleId>>)
    ensures var w := Answers(PublicRole(disabled));
      && RoleGrants(w, ["builtin.r"], ANYONE) == [OF_ROLE]
      && DirectOwners(w, "") == [] && DirectGrants(w, ANYONE) == []
      && Inherited(w, "builtin.r") == ["builtin.r"]
  {
    BuiltInPrefixed();
  }

  lemma PublicIsExpanded(disabled: Result<set<RoleId>>)
    ensures Expanded(Answers(PublicRole(disabled)), "builtin.r")
         == if disabled.Ok? && "builtin.r" in disabled.value then [] else ["builtin.r"]
  {
    PublicIsFetched(disabled);
    assert ["builtin.r"][..0] == [];
  }

  lemma UndisabledGrants(now: Time)
    ensures Grants(PublicRole(Err), ANYONE, None, now)
  {
    var e, a := PublicRole(Err), RoleAssignment("builtin.r", map[]);
    PublicIsHeld(Err);
    PublicIsFetched(Err);
    PublicIsExpanded(Err);
    BuiltInPrefixed();
    assert EFFECT_ALLOW[0] != EFFECT_DENY[0];
    assert Elements([a]) == {a};
    assert Answered(e, ANYONE);
    OnlyGrantDecides(Answers(e), a, ANYONE, None, now, OF_ROLE, OF_ROLE);
  }

  lemma DisabledDoesNot(now: Time)
    ensures !Grants(PublicRole(Ok({"builtin.r"})), ANYONE, None, now)
  {
    var e, a := PublicRole(Ok({"builtin.r"})), RoleAssignment("builtin.r", map[]);
    PublicIsHeld(Ok({"builtin.r"}));
    PublicIsFetched(Ok({"builtin.r"}));
    PublicIsExpanded(Ok({"builtin.r"}));
    assert Elements([a]) == {a};
    assert RoleGrants(Answers(e), [], ANYONE) == [];
    assert forall g :: !Carries(Answers(e), a, ANYONE, now, g);
  }

  /** When the list of disabled roles cannot be read, a disabled role grants. */
  lemma UnreadableListGrants(now: Time)
    ensures Grants(PublicRole(Err), ANYONE, None, now) && !Grants(PublicRole(Ok({"builtin.r"})), ANYONE, None, now)
  {
    UndisabledGrants(now);
    DisabledDoesNot(now);
  }
}
