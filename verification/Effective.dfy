// The listing of a user's effective permissions (service.go): denies cancel
// allows of the same key, and the listing is compared with the verdict on
// single requests.
module Effective {
  import opened Types
  import opened Collections
  import opened Matching
  import opened AssignmentKeys
  import opened Decision
  import opened DecisionLaws

  function ObjectText(g: Grant): string {
    if g.objectScope.Some? then g.objectScope.value else ""
  }

  /** permissionKey */
  function Key(g: Grant): string {
    g.teamScope + "::" + ObjectText(g) + "::" + g.permission
  }

  // --- what contributes -------------------------------------------------------------

  /** g counts for assignment a: in force, of an expanded role, bindable, and in
      the team asked for. */
  ghost predicate Counts(g: Grant, roles: seq<RoleId>, a: RoleAssignment, team: string, now: Time) {
    && (g.ownerKind == KIND_ROLE ==> g.ownerId in roles)
    && !g.ExpiredAt(now)
    && ResolveGrantBindings(g, a).Ok?
    && (team == "*" || MatchesTeamScope(ResolveGrantBindings(g, a).value.teamScope, team))
  }

  /** The bound grants among these. */
  ghost function BoundOf(grants: seq<Grant>, roles: seq<RoleId>, a: RoleAssignment, team: string,
                         now: Time): set<Grant> {
    set g | g in grants && Counts(g, roles, a, team, now) :: ResolveGrantBindings(g, a).value
  }

  ghost predicate Contributes(w: Service, held: set<RoleAssignment>, base: Request, now: Time, b: Grant) {
    || (b in DirectGrants(w, base) && !b.ExpiredAt(now))
    || exists a :: a in held
                   && b in BoundOf(RoleGrants(w, Expanded(w, a.role), base), Expanded(w, a.role), a, base.team, now)
  }

  /** Some contributing grant allows under this key and none denies under it. */
  ghost predicate Listed(w: Service, held: set<RoleAssignment>, base: Request, now: Time, key: string) {
    && (exists b :: Contributes(w, held, base, now, b) && AllowsKey(b, key))
    && forall b :: Contributes(w, held, base, now, b) && b.IsDeny() ==> Key(b) != key
  }

  // --- the accumulation ----------------------------------------------------------------

  /** EffectivePermission, with its source and what the source's definition adds. */
  datatype Entry = Entry(
    teamScope: string,
    objectScope: Option<string>,
    permission: string,
    source: Principal,
    name: string,
    description: string,
    effect: string,
    restricted: seq<string>)

  /** Service.RoleDefinition, without the disabled flag. */
  function Definition(w: Service, role: RoleId): Option<Role> {
    if role in w.builtIns.roles then Some(w.builtIns.roles[role]) else w.store.roleDefinition(role)
  }

  function EntryOf(w: Service, g: Grant): Entry {
    var definition := if g.ownerKind == KIND_ROLE then Definition(w, g.ownerId) else None;
    Entry(g.teamScope, g.objectScope, g.permission, g.Owner(),
          if definition.Some? then definition.value.name else "",
          if definition.Some? then definition.value.description else "",
          g.effect, g.restricted)
  }

  /** g is an allow under this key. */
  predicate AllowsKey(g: Grant, key: string) {
    !g.IsDeny() && Key(g) == key
  }

  /** The first allow under this key. */
  ghost predicate FirstFor(s: seq<Grant>, key: string, i: nat) {
    i < |s| && AllowsKey(s[i], key) && forall j :: 0 <= j < i ==> !AllowsKey(s[j], key)
  }

  ghost predicate DeniesKey(s: seq<Grant>, key: string) {
    exists b :: b in s && b.IsDeny() && Key(b) == key
  }

  /** What the contributions s amount to: a key is listed if something allows and
      nothing denies under it, and its entry is made of its first allow. */
  ghost predicate Lists(w: Service, s: seq<Grant>, allowed: map<string, Entry>) {
    && (forall key :: key in allowed <==> !DeniesKey(s, key) && exists b :: b in s && AllowsKey(b, key))
    && (forall key :: key in allowed ==> exists i: nat :: FirstFor(s, key, i) && allowed[key] == EntryOf(w, s[i]))
  }

  ghost predicate Accumulated(w: Service, s: seq<Grant>, denied: set<string>, allowed: map<string, Entry>) {
    (forall key :: key in denied <==> DeniesKey(s, key)) && Lists(w, s, allowed)
  }

  /** accumulateGrant: a deny is final for its key, and the first allow stays. */
  method Accumulate(w: Service, denied: set<string>, allowed: map<string, Entry>, g: Grant, ghost s: seq<Grant>)
    returns (denied': set<string>, allowed': map<string, Entry>)
    requires Accumulated(w, s, denied, allowed)
    ensures Accumulated(w, s + [g], denied', allowed')
  {
    var key := Key(g);
    denied', allowed' := denied, allowed;
    if g.IsDeny() {
      AccumulateDeny(w, s, denied, allowed, g);
      denied' := denied + {key};
      allowed' := allowed - {key};
      return;
    }
    if key in denied {
      AllowAgain(w, s, denied, allowed, g);
      return;
    }
    if key in allowed {
      AllowAgain(w, s, denied, allowed, g);
      return;
    }
    AllowNew(w, s, denied, allowed, g);
    allowed' := allowed[key := EntryOf(w, g)];
  }

  lemma MoreContributed(s: seq<Grant>, g: Grant, key: string)
    ensures DeniesKey(s + [g], key) <==> DeniesKey(s, key) || (g.IsDeny() && Key(g) == key)
    ensures (exists b :: b in s + [g] && AllowsKey(b, key))
       <==> (exists b :: b in s && AllowsKey(b, key)) || AllowsKey(g, key)
    ensures forall i: nat :: FirstFor(s, key, i) ==> FirstFor(s + [g], key, i) && (s + [g])[i] == s[i]
    ensures AllowsKey(g, key) && !(exists b :: b in s && AllowsKey(b, key)) ==> FirstFor(s + [g], key, |s|)
  {
    assert forall b :: b in s + [g] <==> b in s || b == g;
    forall i: nat | FirstFor(s, key, i)
      ensures FirstFor(s + [g], key, i)
    {
      assert forall j :: 0 <= j <= i ==> (s + [g])[j] == s[j];
    }
  }

  lemma EntryStays(w: Service, s: seq<Grant>, allowed: map<string, Entry>, g: Grant, key: string)
    requires key in allowed && exists i: nat :: FirstFor(s, key, i) && allowed[key] == EntryOf(w, s[i])
    ensures exists i: nat :: FirstFor(s + [g], key, i) && allowed[key] == EntryOf(w, (s + [g])[i])
  {
    var i: nat :| FirstFor(s, key, i) && allowed[key] == EntryOf(w, s[i]);
    MoreContributed(s, g, key);
  }

  lemma AccumulateDeny(w: Service, s: seq<Grant>, denied: set<string>, allowed: map<string, Entry>, g: Grant)
    requires Accumulated(w, s, denied, allowed) && g.IsDeny()
    ensures Accumulated(w, s + [g], denied + {Key(g)}, allowed - {Key(g)})
  {
    forall key {
      MoreContributed(s, g, key);
    }
    forall key | key in allowed
      ensures exists i: nat :: FirstFor(s + [g], key, i) && allowed[key] == EntryOf(w, (s + [g])[i])
    {
      EntryStays(w, s, allowed, g, key);
    }
  }

  lemma AllowAgain(w: Service, s: seq<Grant>, denied: set<string>, allowed: map<string, Entry>, g: Grant)
    requires Accumulated(w, s, denied, allowed) && !g.IsDeny() && (Key(g) in denied || Key(g) in allowed)
    ensures Accumulated(w, s + [g], denied, allowed)
  {
    forall key {
      MoreContributed(s, g, key);
    }
    forall key | key in allowed
      ensures exists i: nat :: FirstFor(s + [g], key, i) && allowed[key] == EntryOf(w, (s + [g])[i])
    {
      EntryStays(w, s, allowed, g, key);
    }
  }

  lemma AllowNew(w: Service, s: seq<Grant>, denied: set<string>, allowed: map<string, Entry>, g: Grant)
    requires Accumulated(w, s, denied, allowed) && !g.IsDeny() && Key(g) !in denied && Key(g) !in allowed
    ensures Accumulated(w, s + [g], denied, allowed[Key(g) := EntryOf(w, g)])
  {
    var next := allowed[Key(g) := EntryOf(w, g)];
    forall key
      ensures key in next <==> !DeniesKey(s + [g], key) && exists b :: b in s + [g] && AllowsKey(b, key)
      ensures DeniesKey(s + [g], key) <==> key in denied
    {
      MoreContributed(s, g, key);
    }
    forall key | key in next
      ensures exists i: nat :: FirstFor(s + [g], key, i) && next[key] == EntryOf(w, (s + [g])[i])
    {
      if key == Key(g) {
        NewEntry(w, s, g);
      } else {
        EntryStays(w, s, allowed, g, key);
      }
    }
  }

  lemma NewEntry(w: Service, s: seq<Grant>, g: Grant)
    requires !g.IsDeny() && !exists b :: b in s && AllowsKey(b, Key(g))
    ensures FirstFor(s + [g], Key(g), |s|) && (s + [g])[|s|] == g
  {
    MoreContributed(s, g, Key(g));
  }

  // --- the contributions in order ------------------------------------------------------------

  /** What one fetched grant adds. */
  ghost function BoundOne(g: Grant, roles: seq<RoleId>, a: RoleAssignment, team: string, now: Time): seq<Grant> {
    if Counts(g, roles, a, team, now) then [ResolveGrantBindings(g, a).value] else []
  }

  /** The bound grants among these, in order. */
  ghost function BoundSeq(grants: seq<Grant>, roles: seq<RoleId>, a: RoleAssignment, team: string,
                          now: Time): seq<Grant> {
    if grants == [] then []
    else
      var last := grants[|grants| - 1];
      BoundSeq(grants[..|grants| - 1], roles, a, team, now) + BoundOne(last, roles, a, team, now)
  }

  ghost function RoleContributions(w: Service, a: RoleAssignment, base: Request, now: Time): seq<Grant> {
    var roles := Expanded(w, a.role);
    BoundSeq(RoleGrants(w, roles, base), roles, a, base.team, now)
  }

  /** The grants of the caller and its groups, then those of each assignment. */
  ghost function Contributions(w: Service, held: seq<RoleAssignment>, base: Request, now: Time): seq<Grant> {
    if held == [] then Filter(DirectGrants(w, base), Unexpired(now))
    else Contributions(w, held[..|held| - 1], base, now) + RoleContributions(w, held[|held| - 1], base, now)
  }

  lemma BoundGrows(grants: seq<Grant>, i: nat, roles: seq<RoleId>, a: RoleAssignment, team: string, now: Time)
    requires i < |grants|
    ensures BoundSeq(grants[..i + 1], roles, a, team, now)
         == BoundSeq(grants[..i], roles, a, team, now) + BoundOne(grants[i], roles, a, team, now)
  {
    assert grants[..i + 1][..i] == grants[..i];
  }

  lemma {:induction false} BoundSeqMembers(grants: seq<Grant>, roles: seq<RoleId>, a: RoleAssignment, team: string,
                                           now: Time, b: Grant)
    ensures b in BoundSeq(grants, roles, a, team, now) <==> b in BoundOf(grants, roles, a, team, now)
  {
    if grants != [] {
      var front, last := grants[..|grants| - 1], grants[|grants| - 1];
      assert grants == front + [last];
      BoundSeqMembers(front, roles, a, team, now, b);
    }
  }

  lemma {:induction false} ContributionMembers(w: Service, held: seq<RoleAssignment>, base: Request, now: Time,
                                               b: Grant)
    ensures b in Contributions(w, held, base, now) <==> Contributes(w, Elements(held), base, now, b)
  {
    if held != [] {
      var front, last := held[..|held| - 1], held[|held| - 1];
      var roles := Expanded(w, last.role);
      assert held == front + [last];
      ContributionMembers(w, front, base, now, b);
      AppendNew(front, last);
      BoundSeqMembers(RoleGrants(w, roles, base), roles, last, base.team, now, b);
    }
  }

  // --- the procedure -------------------------------------------------------------------------

  method AccumulateDirect(w: Service, grants: seq<Grant>, now: Time)
    returns (denied: set<string>, allowed: map<string, Entry>)
    ensures Accumulated(w, Filter(grants, Unexpired(now)), denied, allowed)
  {
    denied, allowed := {}, map[];
    for i := 0 to |grants|
      invariant Accumulated(w, Filter(grants[..i], Unexpired(now)), denied, allowed)
    {
      FilterGrows(grants, i, Unexpired(now));
      denied, allowed := TakeDirect(w, grants[i], now, denied, allowed, Filter(grants[..i], Unexpired(now)));
    }
    WholePrefix(grants);
  }

  method TakeDirect(w: Service, g: Grant, now: Time, denied0: set<string>, allowed0: map<string, Entry>,
                    ghost s: seq<Grant>)
    returns (denied: set<string>, allowed: map<string, Entry>)
    requires Accumulated(w, s, denied0, allowed0)
    ensures Accumulated(w, s + (if Unexpired(now)(g) then [g] else []), denied, allowed)
  {
    denied, allowed := denied0, allowed0;
    assert s + [] == s;
    if !g.ExpiredAt(now) {
      denied, allowed := Accumulate(w, denied, allowed, g, s);
    }
  }

  method AccumulateRoleGrants(w: Service, grants: seq<Grant>, roles: seq<RoleId>, a: RoleAssignment, team: string,
                              now: Time,
                              denied0: set<string>, allowed0: map<string, Entry>, ghost done: seq<Grant>)
    returns (denied: set<string>, allowed: map<string, Entry>)
    requires Accumulated(w, done, denied0, allowed0)
    ensures Accumulated(w, done + BoundSeq(grants, roles, a, team, now), denied, allowed)
  {
    denied, allowed := denied0, allowed0;
    assert done + BoundSeq(grants[..0], roles, a, team, now) == done;
    for i := 0 to |grants|
      invariant Accumulated(w, done + BoundSeq(grants[..i], roles, a, team, now), denied, allowed)
    {
      DoneGrows(done, grants, i, roles, a, team, now);
      denied, allowed := TakeRoleGrant(w, grants[i], roles, a, team, now, denied, allowed,
                                       done + BoundSeq(grants[..i], roles, a, team, now));
    }
    WholePrefix(grants);
  }

  lemma DoneGrows(done: seq<Grant>, grants: seq<Grant>, i: nat, roles: seq<RoleId>, a: RoleAssignment, team: string,
                  now: Time)
    requires i < |grants|
    ensures done + BoundSeq(grants[..i + 1], roles, a, team, now)
         == (done + BoundSeq(grants[..i], roles, a, team, now)) + BoundOne(grants[i], roles, a, team, now)
  {
    BoundGrows(grants, i, roles, a, team, now);
  }

  method TakeRoleGrant(w: Service, g: Grant, roles: seq<RoleId>, a: RoleAssignment, team: string, now: Time,
                       denied0: set<string>, allowed0: map<string, Entry>, ghost s: seq<Grant>)
    returns (denied: set<string>, allowed: map<string, Entry>)
    requires Accumulated(w, s, denied0, allowed0)
    ensures Accumulated(w, s + BoundOne(g, roles, a, team, now), denied, allowed)
  {
    denied, allowed := denied0, allowed0;
    assert s + [] == s;
    if g.ownerKind == KIND_ROLE && g.ownerId !in roles {
      return;
    }
    if g.ExpiredAt(now) {
      return;
    }
    var resolved := ResolveGrantBindings(g, a);
    if resolved.Err? {
      return;
    }
    if team != "*" && !MatchesTeamScope(resolved.value.teamScope, team) {
      return;
    }
    denied, allowed := Accumulate(w, denied, allowed, resolved.value, s);
  }

  method AccumulateAssignment(e: Engine, a: RoleAssignment, cache: map<RoleId, seq<RoleId>>, base: Request, now: Time,
                              denied0: set<string>, allowed0: map<string, Entry>, ghost done: seq<Grant>)
    returns (answered: bool, cache': map<RoleId, seq<RoleId>>, denied: set<string>, allowed: map<string, Entry>)
    requires Truthful(e, cache) && Accumulated(Answers(e), done, denied0, allowed0)
    ensures Truthful(e, cache') && (answered <==> RoleAnswered(e, a, base))
    ensures answered ==> Accumulated(Answers(e), done + RoleContributions(Answers(e), a, base, now), denied, allowed)
  {
    denied, allowed := denied0, allowed0;
    var roles, grants;
    roles, cache' := ExpandRolesCached(e, a.role, cache);
    if roles.Err? {
      answered := false;
      return;
    }
    grants := FetchRoleGrants(e, roles.value, base);
    if grants.Err? {
      answered := false;
      return;
    }
    denied, allowed := AccumulateRoleGrants(Answers(e), grants.value, roles.value, a, base.team, now, denied, allowed,
                                            done);
    answered := true;
  }

  method AccumulateAssignments(e: Engine, assignments: seq<RoleAssignment>, base: Request, now: Time,
                               denied0: set<string>, allowed0: map<string, Entry>)
    returns (r: Result<map<string, Entry>>)
    requires Accumulated(Answers(e), Contributions(Answers(e), [], base, now), denied0, allowed0)
    ensures r.Ok? <==> forall a :: a in assignments ==> RoleAnswered(e, a, base)
    ensures r.Ok? ==> Lists(Answers(e), Contributions(Answers(e), assignments, base, now), r.value)
  {
    ghost var w := Answers(e);
    var denied, allowed := denied0, allowed0;
    var cache: map<RoleId, seq<RoleId>> := map[];
    WholePrefix(assignments);
    for i := 0 to |assignments|
      invariant Truthful(e, cache)
      invariant forall a :: a in assignments[..i] ==> RoleAnswered(e, a, base)
      invariant Accumulated(w, Contributions(w, assignments[..i], base, now), denied, allowed)
    {
      var a := assignments[i];
      assert a in assignments;
      PrefixGrows(assignments, i);
      assert assignments[..i + 1][..i] == assignments[..i];
      var answered;
      answered, cache, denied, allowed := AccumulateAssignment(e, a, cache, base, now, denied, allowed,
                                                               Contributions(w, assignments[..i], base, now));
      if !answered {
        return Err;
      }
    }
    r := Ok(allowed);
  }

  /** The entries by key; Service.EffectivePermissions hands them out in the
      order of a Go map. */
  method EffectivePermissions(e: Engine, user: string, team: string, obj: string, now: Time)
    returns (r: Result<map<string, Entry>>)
    ensures var w, base := Answers(e), Request(user, team, obj, "");
      && (r.Err? <==> user == "" || !Answered(e, base))
      && (r.Ok? ==> Lists(w, Contributions(w, Held(w, user), base, now), r.value))
  {
    if user == "" {
      return Err;
    }
    ghost var w := Answers(e);
    var caller := ResolveCaller(e, user);
    if caller.Err? {
      return Err;
    }
    var (groups, assignments) := caller.value;
    var base := Request(user, team, obj, "");
    var owners := [Principal(KIND_USER, user)] + GroupOwners(groups);
    assert owners == DirectOwners(w, user);
    var direct := e.backend.grantsForOwners(owners, base);
    if direct.Err? {
      return Err;
    }
    assert direct.value == DirectGrants(w, base);
    var denied, allowed := AccumulateDirect(Answers(e), direct.value, now);
    r := AccumulateAssignments(e, assignments, base, now, denied, allowed);
  }

  /** The teams a user is allowed something in, each once, in the order of a map. */
  method AllowedTeamsForUser(e: Engine, user: string, permission: string, now: Time) returns (r: Result<seq<string>>)
    ensures var w, base := Answers(e), Request(user, "*", "*", "");
      && (r.Err? <==> permission == "" || user == "" || !Answered(e, base))
      && (r.Ok? ==> NoDuplicates(r.value))
      && (r.Ok? ==> forall team :: team in r.value <==>
                      AllowedIn(Contributions(w, Held(w, user), base, now), permission, team))
  {
    if permission == "" {
      return Err;
    }
    var listed := EffectivePermissions(e, user, "*", "*", now);
    if listed.Err? {
      return Err;
    }
    ghost var w := Answers(e);
    ghost var s := Contributions(w, Held(w, user), Request(user, "*", "*", ""), now);
    forall key | key in listed.value
      ensures listed.value[key].effect != EFFECT_DENY
    {
      EntryAllows(w, s, listed.value, key);
    }
    var teams := TeamsOf(listed.value, permission);
    forall team
      ensures team in teams <==> AllowedIn(s, permission, team)
    {
      TeamsOfEntries(w, s, listed.value, permission, team);
    }
    r := Ok(teams);
  }

  method TeamsOf(perms: map<string, Entry>, permission: string) returns (teams: seq<string>)
    requires forall key :: key in perms ==> perms[key].effect != EFFECT_DENY
    ensures NoDuplicates(teams)
    ensures forall team :: team in teams <==> exists key :: key in perms && InTeam(perms[key], permission, team)
  {
    teams := [];
    var seen: set<string> := {};
    var pending := perms.Keys;
    while pending != {}
      invariant pending <= perms.Keys && NoDuplicates(teams) && seen == Elements(teams)
      invariant forall team :: team in teams <==>
                  exists key :: key in perms && key !in pending && InTeam(perms[key], permission, team)
    {
      var key :| key in pending;
      var p := perms[key];
      AppendNew(teams, p.teamScope);
      if p.permission == permission {
        if p.teamScope !in seen && p.effect != EFFECT_DENY {
          teams := teams + [p.teamScope];
          seen := seen + {p.teamScope};
        }
      }
      pending := pending - {key};
    }
  }

  predicate InTeam(p: Entry, permission: string, team: string) {
    p.permission == permission && p.teamScope == team
  }

  /** The first allow of some key, undenied, is for the permission in the team. */
  ghost predicate AllowedIn(s: seq<Grant>, permission: string, team: string) {
    exists key, i: nat :: FirstFor(s, key, i) && !DeniesKey(s, key) && s[i].permission == permission && s[i].teamScope
           == team
  }

  lemma EntryAllows(w: Service, s: seq<Grant>, allowed: map<string, Entry>, key: string)
    requires Lists(w, s, allowed) && key in allowed
    ensures allowed[key].effect != EFFECT_DENY
  {
    var i: nat :| FirstFor(s, key, i) && allowed[key] == EntryOf(w, s[i]);
  }

  lemma TeamsOfEntries(w: Service, s: seq<Grant>, allowed: map<string, Entry>, permission: string, team: string)
    requires Lists(w, s, allowed)
    ensures (exists key :: key in allowed && InTeam(allowed[key], permission, team)) <==> AllowedIn(s, permission, team)
  {
    forall key | key in allowed && InTeam(allowed[key], permission, team)
      ensures AllowedIn(s, permission, team)
    {
      var i: nat :| FirstFor(s, key, i) && allowed[key] == EntryOf(w, s[i]);
    }
    if AllowedIn(s, permission, team) {
      var key, i: nat :| FirstFor(s, key, i) && !DeniesKey(s, key) && s[i].permission == permission
        && s[i].teamScope == team;
      assert s[i] in s;
      var j: nat :| FirstFor(s, key, j) && allowed[key] == EntryOf(w, s[j]);
      FirstIsUnique(s, key, i, j);
    }
  }

  /** Without separators in the scopes, these are the teams of all allows of the
      permission whose key nothing denies. */
  lemma AllowedTeamsExactly(s: seq<Grant>, permission: string, team: string)
    requires forall b :: b in s ==> ColonFree(b)
    ensures AllowedIn(s, permission, team) <==>
              exists b :: b in s && b.effect != "deny" && b.permission == permission && b.teamScope == team
                          && !exists d :: d in s && d.effect == "deny" && d.teamScope == team
                                          && ObjectText(d) == ObjectText(b) && d.permission == permission
  {
    forall b, d | b in s && d in s
      ensures Key(b) == Key(d) <==>
                b.teamScope == d.teamScope && ObjectText(b) == ObjectText(d) && b.permission == d.permission
    {
      KeysTellScopes(b, d);
    }
    if AllowedIn(s, permission, team) {
      var key, i: nat :| FirstFor(s, key, i) && !DeniesKey(s, key) && s[i].permission == permission
        && s[i].teamScope == team;
      assert s[i] in s;
    }
    forall b | b in s && b.effect != "deny" && b.permission == permission && b.teamScope == team
               && !exists d :: d in s && d.effect == "deny" && d.teamScope == team
                               && ObjectText(d) == ObjectText(b) && d.permission == permission
      ensures AllowedIn(s, permission, team)
    {
      var i := SomeFirst(s, b, Key(b));
      assert s[i] in s;
    }
  }

  lemma SomeFirst(s: seq<Grant>, b: Grant, key: string) returns (i: nat)
    requires b in s && AllowsKey(b, key)
    ensures FirstFor(s, key, i)
  {
    i := 0;
    while !AllowsKey(s[i], key)
      decreases |s| - i
      invariant i < |s| && forall j :: 0 <= j < i ==> !AllowsKey(s[j], key)
      invariant exists j :: i <= j < |s| && s[j] == b
    {
      i := i + 1;
    }
  }

  /** An entry, without its making: it joins back to its key, never denies, and
      shows the owner, the effect and the restricted fields of one contributing
      allow of that key, with the name and description its owner's role has. */
  lemma EntriesAreAllows(w: Service, s: seq<Grant>, allowed: map<string, Entry>, key: string)
    requires Lists(w, s, allowed) && key in allowed
    ensures var p := allowed[key];
      && key == p.teamScope + "::" + (if p.objectScope.Some? then p.objectScope.value else "") + "::" + p.permission
      && p.effect != "deny"
      && exists b :: b in s && FromAllow(w, p, b)
  {
    var i: nat :| FirstFor(s, key, i) && allowed[key] == EntryOf(w, s[i]);
    assert s[i] in s && FromAllow(w, allowed[key], s[i]);
  }

  predicate FromAllow(w: Service, p: Entry, b: Grant) {
    && p.teamScope == b.teamScope && p.objectScope == b.objectScope && p.permission == b.permission
    && p.source == Principal(b.ownerKind, b.ownerId) && p.effect == b.effect && p.restricted == b.restricted
    && (b.ownerKind == "role" && b.ownerId in w.builtIns.roles ==>
          p.name == w.builtIns.roles[b.ownerId].name && p.description == w.builtIns.roles[b.ownerId].description)
    && (b.ownerKind == "role" && b.ownerId !in w.builtIns.roles && w.store.roleDefinition(b.ownerId).Some? ==>
          p.name == w.store.roleDefinition(b.ownerId).value.name
          && p.description == w.store.roleDefinition(b.ownerId).value.description)
    && (b.ownerKind != "role" ==> p.name == "" && p.description == "")
  }

  // --- what is listed ---------------------------------------------------------------------------

  /** The contributions determine the answer. */
  lemma ListingIsUnique(w: Service, s: seq<Grant>, x: map<string, Entry>, y: map<string, Entry>)
    requires Lists(w, s, x) && Lists(w, s, y)
    ensures x == y
  {
    assert forall key :: key in x <==> key in y;
    forall key | key in x
      ensures x[key] == y[key]
    {
      var i: nat :| FirstFor(s, key, i) && x[key] == EntryOf(w, s[i]);
      var j: nat :| FirstFor(s, key, j) && y[key] == EntryOf(w, s[j]);
      FirstIsUnique(s, key, i, j);
    }
  }

  lemma FirstIsUnique(s: seq<Grant>, key: string, i: nat, j: nat)
    requires FirstFor(s, key, i) && FirstFor(s, key, j)
    ensures i == j
  {
  }

  /** Which keys are listed does not depend on any order. */
  lemma ListedInAnyOrder(w: Service, held: seq<RoleAssignment>, base: Request, now: Time, allowed: map<string, Entry>,
                         key: string)
    requires Lists(w, Contributions(w, held, base, now), allowed)
    ensures key in allowed <==> Listed(w, Elements(held), base, now, key)
  {
    forall b {
      ContributionMembers(w, held, base, now, b);
    }
  }

  // --- the listing and the verdict --------------------------------------------------------

  /** No separator inside a scope. */
  predicate ColonFree(g: Grant) {
    ':' !in g.teamScope && ':' !in ObjectText(g)
  }

  /** Nor an empty object scope. */
  predicate PlainScopes(g: Grant) {
    ColonFree(g) && g.objectScope != Some("")
  }

  /** A part without a colon ends at the first "::". */
  lemma FirstPart(x: string, rest: string, y: string, more: string)
    requires ':' !in x && ':' !in y
    ensures x + "::" + rest == y + "::" + more <==> x == y && rest == more
  {
    assert x + "::" + rest == x + [':'] + (":" + rest) && y + "::" + more == y + [':'] + (":" + more);
    if x + "::" + rest == y + "::" + more {
      FirstSeparator(':', x, ":" + rest, y, ":" + more);
      assert (":" + rest)[1..] == rest && (":" + more)[1..] == more;
    }
  }

  lemma KeyParts(g: Grant)
    ensures Key(g) == g.teamScope + "::" + (ObjectText(g) + "::" + g.permission)
  {
  }

  lemma KeysTellScopes(g: Grant, h: Grant)
    requires ColonFree(g) && ColonFree(h)
    ensures Key(g) == Key(h) <==>
              g.teamScope == h.teamScope && ObjectText(g) == ObjectText(h) && g.permission == h.permission
  {
    KeyParts(g);
    KeyParts(h);
    FirstPart(g.teamScope, ObjectText(g) + "::" + g.permission, h.teamScope, ObjectText(h) + "::" + h.permission);
    FirstPart(ObjectText(g), g.permission, ObjectText(h), h.permission);
  }

  /** An empty scope and none have one key, though one matches a single object
      and the other all. */
  lemma EmptyAndNoObjectShareKeys(g: Grant)
    requires g.objectScope == None
    ensures Key(g.(objectScope := Some(""))) == Key(g)
  {
  }

  /** A query for one permission answers what the query for all of them does,
      less the other permissions. */
  ghost predicate SelectsByPermission(f: (seq<Principal>, Request) -> seq<Grant>) {
    forall o, req: Request, g {:trigger g in f(o, req)} :: req.permission != "" ==>
      (g in f(o, req) <==> g.permission == req.permission && g in f(o, req.(permission := "")))
  }

  lemma ContributesFromCarried(w: Service, held: set<RoleAssignment>, base: Request, now: Time,
                               a: RoleAssignment, g: Grant, b: Grant)
    requires a in held && Carries(w, a, base, now, g) && ResolveGrantBindings(g, a) == Ok(b)
    requires base.team == "*" || MatchesTeamScope(b.teamScope, base.team)
    ensures Contributes(w, held, base, now, b)
  {
    var roles := Expanded(w, a.role);
    assert Counts(g, roles, a, base.team, now);
    assert b in BoundOf(RoleGrants(w, roles, base), roles, a, base.team, now);
  }

  /** Of a listing for the request's user, team and object, what concerns its
      permission is what the request is decided by, if it matches. */
  lemma ContributionsBear(w: Service, held: set<RoleAssignment>, req: Request, now: Time, b: Grant)
    requires SelectsByPermission(w.store.grantsForOwners) && SelectsByPermission(w.builtIns.grantsForOwners)
    requires req.permission != "" && b.permission == req.permission
    ensures Contributes(w, held, req.(permission := ""), now, b) ==> Bears(w, held, req, now, b)
    ensures Bears(w, held, req, now, b) && GrantMatchesRequest(b, req)
       ==> Contributes(w, held, req.(permission := ""), now, b)
  {
    var base := req.(permission := "");
    assert DirectOwners(w, base.user) == DirectOwners(w, req.user);
    if Bears(w, held, req, now, b) && GrantMatchesRequest(b, req) && !(b in DirectGrants(w, req) && !b.ExpiredAt(now)) {
      var a, g :| a in held && Carries(w, a, req, now, g) && ResolveGrantBindings(g, a) == Ok(b);
      CarriedForPermission(w, a, req, now, g);
      ContributesFromCarried(w, held, base, now, a, g, b);
    }
    if Contributes(w, held, base, now, b) && !(b in DirectGrants(w, base) && !b.ExpiredAt(now)) {
      var a :| a in held
               && b in BoundOf(RoleGrants(w, Expanded(w, a.role), base), Expanded(w, a.role), a, base.team, now);
      var g :| g in RoleGrants(w, Expanded(w, a.role), base) && Counts(g, Expanded(w, a.role), a, base.team, now)
        && b == ResolveGrantBindings(g, a).value;
      ResolvingKeepsTheRest(g, a);
      CarriedForPermission(w, a, req, now, g);
    }
  }

  lemma CarriedForPermission(w: Service, a: RoleAssignment, req: Request, now: Time, g: Grant)
    requires SelectsByPermission(w.store.grantsForOwners) && SelectsByPermission(w.builtIns.grantsForOwners)
    requires req.permission != ""
    ensures Carries(w, a, req, now, g)
       <==> Carries(w, a, req.(permission := ""), now, g) && g.permission == req.permission
  {
  }

  /** A granted request has a matching allow, and each matching allow is in the
      user's listing unless a deny of single fields, which a whole-object check
      passes over, has its key: the listing cancels by it. */
  lemma GrantedIsListed(w: Service, held: set<RoleAssignment>, req: Request, now: Time, b: Grant)
    requires SelectsByPermission(w.store.grantsForOwners) && SelectsByPermission(w.builtIns.grantsForOwners)
    requires forall d :: Contributes(w, held, req.(permission := ""), now, d) ==> PlainScopes(d)
    requires Granted(w, held, req, None, now)
    requires Bears(w, held, req, now, b) && !b.IsDeny() && Applicable(b, req, None)
    ensures Listed(w, held, req.(permission := ""), now, Key(b)) <==>
              !exists d :: FieldDeny(w, held, req, now, d) && Key(d) == Key(b)
  {
    var base := req.(permission := "");
    ContributionsBear(w, held, req, now, b);
    forall d | Contributes(w, held, base, now, d) && d.IsDeny() && Key(d) == Key(b)
      ensures FieldDeny(w, held, req, now, d)
    {
      KeysTellScopes(b, d);
      ContributionsBear(w, held, req, now, d);
    }
    forall d | FieldDeny(w, held, req, now, d) && Key(d) == Key(b)
      ensures Contributes(w, held, base, now, d)
    {
      ContributionsBear(w, held, req, now, d);
    }
  }

  /** A deny of single fields that concerns the request. */
  ghost predicate FieldDeny(w: Service, held: set<RoleAssignment>, req: Request, now: Time, d: Grant) {
    Bears(w, held, req, now, d) && d.IsDeny() && d.restricted != [] && GrantMatchesRequest(d, req)
  }

  // --- stores that answer alike -----------------------------------------------------------

  lemma ContributionCarriesOver(w: Service, v: Service, held: set<RoleAssignment>, base: Request, now: Time, b: Grant)
    returns (c: Grant)
    requires AnswersAlike(w, v, now) && Contributes(w, held, base, now, b)
    ensures Contributes(v, held, base, now, c) && Normal(c) == Normal(b)
  {
    if b in DirectGrants(w, base) && !b.ExpiredAt(now) {
      SameDirectGrants(w, v, base, now);
      assert Normal(b) in Live(DirectGrants(w, base), now);
      c :| c in DirectGrants(v, base) && !c.ExpiredAt(now) && Normal(c) == Normal(b);
    } else {
      var a :| a in held
               && b in BoundOf(RoleGrants(w, Expanded(w, a.role), base), Expanded(w, a.role), a, base.team, now);
      var g :| g in RoleGrants(w, Expanded(w, a.role), base) && Counts(g, Expanded(w, a.role), a, base.team, now)
        && b == ResolveGrantBindings(g, a).value;
      var h := CarriedOver(w, v, a, base, now, g);
      NormalDecidesAlike(g, a, base, None, now);
      NormalDecidesAlike(h, a, base, None, now);
      c := ResolveGrantBindings(h, a).value;
      assert Normal(c) == Normal(b);
      assert c.teamScope == Normal(c).teamScope == b.teamScope;
      ContributesFromCarried(v, held, base, now, a, h, c);
    }
  }

  lemma ListedOver(w: Service, v: Service, held: set<RoleAssignment>, base: Request, now: Time, key: string)
    requires AnswersAlike(w, v, now)
    ensures Listed(w, held, base, now, key) ==> Listed(v, held, base, now, key)
  {
    if Listed(w, held, base, now, key) {
      AllowedOver(w, v, held, base, now, key);
      AlikeIsSymmetric(w, v, now);
      forall d | Contributes(v, held, base, now, d) && d.IsDeny()
        ensures Key(d) != key
      {
        var e := ContributionCarriesOver(v, w, held, base, now, d);
        SameKey(d, e);
      }
    }
  }

  lemma AllowedOver(w: Service, v: Service, held: set<RoleAssignment>, base: Request, now: Time, key: string)
    requires AnswersAlike(w, v, now)
    ensures (exists b :: Contributes(w, held, base, now, b) && !b.IsDeny() && Key(b) == key)
        ==> exists c :: Contributes(v, held, base, now, c) && !c.IsDeny() && Key(c) == key
  {
    if exists b :: Contributes(w, held, base, now, b) && !b.IsDeny() && Key(b) == key {
      var b :| Contributes(w, held, base, now, b) && !b.IsDeny() && Key(b) == key;
      var c := ContributionCarriesOver(w, v, held, base, now, b);
      SameKey(b, c);
    }
  }

  lemma SameKey(b: Grant, c: Grant)
    requires Normal(b) == Normal(c)
    ensures Key(b) == Key(c) && b.IsDeny() == c.IsDeny()
  {
    assert Normal(b).teamScope == b.teamScope && Normal(c).teamScope == c.teamScope;
    assert Normal(b).objectScope == b.objectScope && Normal(c).objectScope == c.objectScope;
    assert Normal(b).permission == b.permission && Normal(c).permission == c.permission;
    assert Normal(b).effect == b.effect && Normal(c).effect == c.effect;
  }

  /** Which keys are listed is the same for stores that answer alike. */
  lemma SameListing(w: Service, v: Service, held: set<RoleAssignment>, base: Request, now: Time, key: string)
    requires AnswersAlike(w, v, now)
    ensures Listed(w, held, base, now, key) <==> Listed(v, held, base, now, key)
  {
    AlikeIsSymmetric(w, v, now);
    ListedOver(w, v, held, base, now, key);
    ListedOver(v, w, held, base, now, key);
  }

  // --- stores that answer alike in the same order ---------------------------------------------

  /** The grants still in force, in order. */
  function LiveSeq(grants: seq<Grant>, now: Time): seq<Grant> {
    Normals(Filter(grants, Unexpired(now)))
  }

  ghost predicate SameGrantOrder(f: (seq<Principal>, Request) -> seq<Grant>,
                                 h: (seq<Principal>, Request) -> seq<Grant>, now: Time) {
    forall o, p, req: Request {:trigger f(o, req), h(p, req)} ::
      Elements(o) == Elements(p) ==> LiveSeq(f(o, req), now) == LiveSeq(h(p, req), now)
  }

  /** Grants come in the same order, whatever the order of the owners asked for;
      roles may be expanded in any order. */
  ghost predicate AnswersInOrder(w: Service, v: Service, now: Time) {
    && SameRoleAnswers(w, v)
    && SameGrantOrder(w.store.grantsForOwners, v.store.grantsForOwners, now)
    && SameGrantOrder(w.builtIns.grantsForOwners, v.builtIns.grantsForOwners, now)
    && (forall u :: w.groupsOf(u) == v.groupsOf(u))
  }

  lemma NormalsConcat(s: seq<Grant>, t: seq<Grant>)
    ensures Normals(s + t) == Normals(s) + Normals(t)
  {
  }

  lemma LiveOneMore(grants: seq<Grant>, g: Grant, now: Time)
    ensures LiveSeq(grants + [g], now) == LiveSeq(grants, now) + if g.ExpiredAt(now) then [] else [Normal(g)]
  {
    var live := Filter(grants, Unexpired(now));
    FilterAppend(grants, g, Unexpired(now));
    if g.ExpiredAt(now) {
      assert Filter(grants + [g], Unexpired(now)) == live;
    } else {
      assert Filter(grants + [g], Unexpired(now)) == live + [g];
      NormalsConcat(live, [g]);
      assert Normals([g]) == [Normal(g)];
    }
  }

  lemma {:induction false} LiveConcat(s: seq<Grant>, t: seq<Grant>, now: Time)
    ensures LiveSeq(s + t, now) == LiveSeq(s, now) + LiveSeq(t, now)
  {
    if t == [] {
      assert s + t == s && LiveSeq(t, now) == [];
    } else {
      var front, last := t[..|t| - 1], t[|t| - 1];
      assert t == front + [last] && s + t == (s + front) + [last];
      LiveConcat(s, front, now);
      LiveOneMore(s + front, last, now);
      LiveOneMore(front, last, now);
    }
  }

  lemma BoundOneNormal(g: Grant, roles: seq<RoleId>, others: seq<RoleId>, a: RoleAssignment, team: string, now: Time)
    requires forall r :: r in roles <==> r in others
    ensures Normals(BoundOne(g, roles, a, team, now)) == BoundOne(Normal(g), others, a, team, now)
    ensures g.ExpiredAt(now) ==> BoundOne(g, roles, a, team, now) == []
  {
    NormalDecidesAlike(g, a, Request("", "", "", ""), None, now);
    if ResolveGrantBindings(g, a).Ok? {
      var b := ResolveGrantBindings(g, a).value;
      assert Normal(b).teamScope == b.teamScope;
    }
  }

  /** What the fetched grants bind to depends on those in force only. */
  lemma {:induction false} BoundOfLive(grants: seq<Grant>, roles: seq<RoleId>, others: seq<RoleId>, a: RoleAssignment,
                                       team: string, now: Time)
    requires forall r :: r in roles <==> r in others
    ensures Normals(BoundSeq(grants, roles, a, team, now)) == BoundSeq(LiveSeq(grants, now), others, a, team, now)
  {
    if grants == [] {
      assert LiveSeq([], now) == [];
    } else {
      var front, last := grants[..|grants| - 1], grants[|grants| - 1];
      assert grants == front + [last];
      BoundOfLive(front, roles, others, a, team, now);
      BoundOfLiveOneMore(front, last, roles, others, a, team, now);
    }
  }

  lemma BoundOfLiveOneMore(front: seq<Grant>, last: Grant, roles: seq<RoleId>, others: seq<RoleId>, a: RoleAssignment,
                           team: string, now: Time)
    requires forall r :: r in roles <==> r in others
    requires Normals(BoundSeq(front, roles, a, team, now)) == BoundSeq(LiveSeq(front, now), others, a, team, now)
    ensures Normals(BoundSeq(front + [last], roles, a, team, now))
         == BoundSeq(LiveSeq(front + [last], now), others, a, team, now)
  {
    BoundSeqAppend(front, last, roles, a, team, now);
    NormalsConcat(BoundSeq(front, roles, a, team, now), BoundOne(last, roles, a, team, now));
    BoundOneNormal(last, roles, others, a, team, now);
    LiveOneMore(front, last, now);
    BoundSeqAppend(LiveSeq(front, now), Normal(last), others, a, team, now);
  }

  lemma BoundSeqAppend(grants: seq<Grant>, g: Grant, roles: seq<RoleId>, a: RoleAssignment, team: string, now: Time)
    ensures BoundSeq(grants + [g], roles, a, team, now)
         == BoundSeq(grants, roles, a, team, now) + BoundOne(g, roles, a, team, now)
    ensures BoundSeq(grants + [], roles, a, team, now) == BoundSeq(grants, roles, a, team, now)
  {
    assert (grants + [g])[..|grants|] == grants && grants + [] == grants;
  }

  lemma SameLiveRoleGrants(w: Service, v: Service, root: RoleId, req: Request, now: Time)
    requires AnswersInOrder(w, v, now)
    ensures LiveSeq(RoleGrants(w, Expanded(w, root), req), now) == LiveSeq(RoleGrants(v, Expanded(v, root), req), now)
  {
    var s, t := Expanded(w, root), Expanded(v, root);
    SameExpanded(w, v, root);
    SameOwners(s, t, true);
    SameOwners(s, t, false);
    var b, c, d, e := OwnersAmong(s, true), OwnersAmong(t, true), OwnersAmong(s, false), OwnersAmong(t, false);
    LiveConcat(if b != [] then w.builtIns.grantsForOwners(b, req) else [],
               if d != [] then w.store.grantsForOwners(d, req) else [], now);
    LiveConcat(if c != [] then v.builtIns.grantsForOwners(c, req) else [],
               if e != [] then v.store.grantsForOwners(e, req) else [], now);
    assert LiveSeq(w.builtIns.grantsForOwners(b, req), now) == LiveSeq(v.builtIns.grantsForOwners(c, req), now);
    assert LiveSeq(w.store.grantsForOwners(d, req), now) == LiveSeq(v.store.grantsForOwners(e, req), now);
  }

  lemma SameRoleContributions(w: Service, v: Service, a: RoleAssignment, base: Request, now: Time)
    requires AnswersInOrder(w, v, now)
    ensures Normals(RoleContributions(w, a, base, now)) == Normals(RoleContributions(v, a, base, now))
  {
    var s, t := Expanded(w, a.role), Expanded(v, a.role);
    SameExpanded(w, v, a.role);
    SameMembers(s, t);
    SameLiveRoleGrants(w, v, a.role, base, now);
    BoundOfLive(RoleGrants(w, s, base), s, t, a, base.team, now);
    BoundOfLive(RoleGrants(v, t, base), t, t, a, base.team, now);
  }

  lemma {:induction false} SameContributions(w: Service, v: Service, held: seq<RoleAssignment>, base: Request,
                                             now: Time)
    requires AnswersInOrder(w, v, now)
    ensures Normals(Contributions(w, held, base, now)) == Normals(Contributions(v, held, base, now))
  {
    if held == [] {
      assert DirectOwners(w, base.user) == DirectOwners(v, base.user);
    } else {
      var front, last := held[..|held| - 1], held[|held| - 1];
      SameContributions(w, v, front, base, now);
      SameRoleContributions(w, v, last, base, now);
      NormalsConcat(Contributions(w, front, base, now), RoleContributions(w, last, base, now));
      NormalsConcat(Contributions(v, front, base, now), RoleContributions(v, last, base, now));
    }
  }

  lemma SameEntry(w: Service, v: Service, g: Grant, h: Grant)
    requires SameRoleAnswers(w, v) && Normal(g) == Normal(h)
    ensures Key(g) == Key(h) && g.IsDeny() == h.IsDeny() && EntryOf(w, g) == EntryOf(v, h)
  {
    SameKey(g, h);
    assert Normal(g).ownerKind == g.ownerKind && Normal(h).ownerKind == h.ownerKind;
    assert Normal(g).ownerId == g.ownerId && Normal(h).ownerId == h.ownerId;
    assert Normal(g).restricted == g.restricted && Normal(h).restricted == h.restricted;
    assert Normal(g).teamScope == g.teamScope && Normal(h).teamScope == h.teamScope;
    assert Normal(g).objectScope == g.objectScope && Normal(h).objectScope == h.objectScope;
    assert Normal(g).permission == g.permission && Normal(h).permission == h.permission;
    assert Normal(g).effect == g.effect && Normal(h).effect == h.effect;
  }

  /** The same keys, effects and entries, one by one. */
  ghost predicate OneByOne(w: Service, v: Service, s: seq<Grant>, t: seq<Grant>) {
    |s| == |t| && forall i :: 0 <= i < |s| ==>
      Key(s[i]) == Key(t[i]) && s[i].IsDeny() == t[i].IsDeny() && EntryOf(w, s[i]) == EntryOf(v, t[i])
  }

  lemma NormalsOneByOne(w: Service, v: Service, s: seq<Grant>, t: seq<Grant>)
    requires SameRoleAnswers(w, v) && Normals(s) == Normals(t)
    ensures OneByOne(w, v, s, t) && OneByOne(v, w, t, s)
  {
    assert |s| == |Normals(s)| == |Normals(t)| == |t|;
    forall i | 0 <= i < |s|
      ensures Key(s[i]) == Key(t[i]) && s[i].IsDeny() == t[i].IsDeny() && EntryOf(w, s[i]) == EntryOf(v, t[i])
    {
      assert Normals(s)[i] == Normals(t)[i];
      SameEntry(w, v, s[i], t[i]);
    }
  }

  lemma SomeAlike(w: Service, v: Service, s: seq<Grant>, t: seq<Grant>, key: string)
    requires OneByOne(w, v, s, t)
    ensures DeniesKey(s, key) ==> DeniesKey(t, key)
    ensures (exists b :: b in s && AllowsKey(b, key)) ==> exists b :: b in t && AllowsKey(b, key)
  {
    if DeniesKey(s, key) {
      var i :| 0 <= i < |s| && s[i].IsDeny() && Key(s[i]) == key;
      assert t[i] in t;
    }
    if exists b :: b in s && AllowsKey(b, key) {
      var i :| 0 <= i < |s| && AllowsKey(s[i], key);
      assert t[i] in t && AllowsKey(t[i], key);
    }
  }

  lemma FirstAlike(w: Service, v: Service, s: seq<Grant>, t: seq<Grant>, key: string, i: nat)
    requires OneByOne(w, v, s, t) && FirstFor(s, key, i)
    ensures FirstFor(t, key, i) && EntryOf(w, s[i]) == EntryOf(v, t[i])
  {
  }

  lemma ListedTheSame(w: Service, v: Service, s: seq<Grant>, t: seq<Grant>, allowed: map<string, Entry>)
    requires OneByOne(w, v, s, t) && OneByOne(v, w, t, s) && Lists(w, s, allowed)
    ensures Lists(v, t, allowed)
  {
    forall key
      ensures DeniesKey(s, key) <==> DeniesKey(t, key)
      ensures (exists b :: b in s && AllowsKey(b, key)) <==> exists b :: b in t && AllowsKey(b, key)
    {
      SomeAlike(w, v, s, t, key);
      SomeAlike(v, w, t, s, key);
    }
    forall key | key in allowed
      ensures exists i: nat :: FirstFor(t, key, i) && allowed[key] == EntryOf(v, t[i])
    {
      var i: nat :| FirstFor(s, key, i) && allowed[key] == EntryOf(w, s[i]);
      FirstAlike(w, v, s, t, key, i);
    }
  }

  /** Stores that answer alike in the same order give the same answer, entry by
      entry. */
  lemma SameAnswer(w: Service, v: Service, held: seq<RoleAssignment>, base: Request, now: Time,
                   x: map<string, Entry>, y: map<string, Entry>)
    requires AnswersInOrder(w, v, now)
    ensures var s, t := Contributions(w, held, base, now), Contributions(v, held, base, now);
      Lists(w, s, x) && Lists(v, t, y) ==> x == y
  {
    var s, t := Contributions(w, held, base, now), Contributions(v, held, base, now);
    if Lists(w, s, x) && Lists(v, t, y) {
      SameContributions(w, v, held, base, now);
      NormalsOneByOne(w, v, s, t);
      ListedTheSame(w, v, s, t, x);
      ListingIsUnique(v, t, x, y);
    }
  }
}
