// The read-through cache in front of a store (cachedstore/store.go): answers
// are kept for a time to live and every successful write flushes them all.
module CachedStore {
  import opened Types
  import opened Collections
  import opened Assignments
  import opened StoreModel
  import opened DecisionLaws
  import RoleIndex
  import Pagination
  import GrantScan

  /** The cached operations with their arguments. */
  datatype Key =
    | RoleDefinitions
    | RoleDefinition(id: RoleId)
    | AssignmentsForPrincipal(p: Principal)
    | AssignmentsForRole(id: RoleId)
    | GrantsForPrincipal(p: Principal)
    | ExpandRoles(ids: seq<RoleId>)
    | GrantsForOwners(owners: seq<Principal>, req: Request)
    | PrincipalsWithGrant(permission: string)
    | ListGrants(q: Pagination.Query)

  /** Answers whose order a store may choose are sets. */
  datatype Answer =
    | Roles(roles: set<Role>)
    | OneRole(role: Role)
    | Held(held: seq<RoleAssignment>)
    | Hits(hits: set<AssignmentHit>)
    | Grants(grants: seq<Grant>)
    | Ids(ids: set<RoleId>)
    | Holders(holders: set<Principal>)
    | Listed(page: Pagination.Answer)

  ghost function Ask(s: State, key: Key, now: Time): Result<Answer> {
    match key
    case RoleDefinitions => Ok(Roles(set id | id in s.roles :: s.roles[id]))
    case RoleDefinition(id) => if id in s.roles then Ok(OneRole(s.roles[id])) else Err
    case AssignmentsForPrincipal(p) => if ValidPrincipal(p) then Ok(Held(Listing(s.table, p))) else Err
    case AssignmentsForRole(id) => Ok(Hits(HitsOf(s.table, id)))
    case GrantsForPrincipal(p) => AsAnswer(PrincipalsGrants(s.grants, p, now))
    case ExpandRoles(ids) => Ok(Ids(RoleIndex.Expansion(s.index.rows, RoleIndex.Roots(ids))))
    case GrantsForOwners(owners, req) => AsAnswer(OwnersGrants(s.grants, owners, req, now))
    case PrincipalsWithGrant(permission) =>
      if permission == "" then Err
      else Ok(Holders(set g | g in s.grants && GrantScan.Has(s.grants, permission, now, g.Owner(), false)
                                && !GrantScan.Has(s.grants, permission, now, g.Owner(), true) :: g.Owner()))
    case ListGrants(q) =>
      Ok(Listed(Pagination.PageOf(Filter(s.grants, g => Pagination.Selected(g, q)), q.limit, q.cursor)))
  }

  function AsAnswer(r: Result<seq<Grant>>): Result<Answer> {
    match r { case Ok(gs) => Ok(Grants(gs)) case Err => Err }
  }

  function Cloned(a: Answer): Answer {
    match a
    case Grants(gs) => Grants(Normals(gs))
    case Listed(Page(gs, next, total)) => Listed(Pagination.Page(Normals(gs), next, total))
    case _ => a
  }

  ghost function Answered(s: State, key: Key, at: Time): Result<Answer> {
    match Ask(s, key, at) { case Ok(a) => Ok(Cloned(a)) case Err => Err }
  }

  /** r is what the base answered, cloned, at a moment not after `now`. */
  ghost predicate MadeAt(s: State, key: Key, at: Time, r: Result<Answer>, now: Time) {
    at <= now && r == Answered(s, key, at)
  }

  datatype Entry = Entry(value: Answer, expires: Time)

  ghost predicate AllMade(s: State, cache: map<Key, Entry>, ttl: Time, now: Time) {
    forall k :: k in cache ==> MadeAt(s, k, cache[k].expires - ttl, Ok(cache[k].value), now)
  }

  lemma KeepsAllMade(s: State, cache: map<Key, Entry>, ttl: Time, key: Key, value: Answer, now: Time)
    requires AllMade(s, cache, ttl, now) && Answered(s, key, now) == Ok(value)
    ensures AllMade(s, cache[key := Entry(value, now + ttl)], ttl, now)
  {
  }

  lemma AgesAllMade(s: State, cache: map<Key, Entry>, ttl: Time, before: Time, now: Time)
    requires AllMade(s, cache, ttl, before) && before <= now
    ensures AllMade(s, cache, ttl, now)
  {
    forall k | k in cache
      ensures MadeAt(s, k, cache[k].expires - ttl, Ok(cache[k].value), now)
    {
      assert MadeAt(s, k, cache[k].expires - ttl, Ok(cache[k].value), before);
    }
  }

  predicate Fresh(cache: map<Key, Entry>, key: Key, now: Time) {
    key in cache && now <= cache[key].expires
  }

  /** Failures are not kept. */
  function Filled(cache: map<Key, Entry>, key: Key, r: Result<Answer>, expires: Time): map<Key, Entry> {
    if r.Ok? then cache[key := Entry(r.value, expires)] else cache
  }

  class Store {
    var base: State
    var cache: map<Key, Entry>
    const ttl: Time

    /** The latest moment seen. */
    ghost var clock: Time

    /** Every entry is what the base, as it is now, answered when it was made. */
    ghost predicate Valid()
      reads this
    {
      ttl > 0 && AllMade(base, cache, ttl, clock)
    }

    constructor (base: State, ttl: Time, now: Time)
      ensures Valid() && this.base == base && clock == now
      ensures this.ttl == if ttl <= 0 then 60_000_000_000 else ttl
    {
      this.base := base;
      this.cache := map[];
      this.ttl := if ttl <= 0 then 60_000_000_000 else ttl;
      this.clock := now;
    }

    /** A read: the base's answer of a moment at most the time to live ago. The
        base's answer itself is the parameter `live`. */
    method Read(key: Key, live: Result<Answer>, now: Time) returns (r: Result<Answer>)
      requires Valid() && clock <= now && live == Ask(base, key, now)
      modifies this
      ensures Valid() && base == old(base) && clock == now
      ensures exists at :: now - ttl <= at && MadeAt(base, key, at, r, now)
      ensures if key in old(cache) && now <= old(cache)[key].expires
              then r == Ok(old(cache)[key].value) && cache == old(cache)
              else r == Answered(base, key, now)
                   && cache == if r.Ok? then old(cache)[key := Entry(r.value, now + ttl)] else old(cache)
    {
      AgeAll(now);
      if Fresh(cache, key, now) {
        r := Ok(cache[key].value);
        assert MadeAt(base, key, cache[key].expires - ttl, r, now);
        return;
      }
      r := Fill(key, live, now);
      assert MadeAt(base, key, now, r, now);
    }

    method Fill(key: Key, live: Result<Answer>, now: Time) returns (r: Result<Answer>)
      requires Valid() && clock == now && live == Ask(base, key, now)
      modifies this`cache
      ensures Valid() && r == Answered(base, key, now)
      ensures cache == Filled(old(cache), key, r, now + ttl)
    {
      if live.Err? {
        return Err;
      }
      r := Ok(Cloned(live.value));
      KeepsAllMade(base, cache, ttl, key, r.value, now);
      cache := cache[key := Entry(r.value, now + ttl)];
    }

    ghost method AgeAll(now: Time)
      requires Valid() && clock <= now
      modifies this`clock
      ensures Valid() && clock == now
    {
      AgesAllMade(base, cache, ttl, clock, now);
      clock := now;
    }

    /** Never cached. */
    method DisabledBuiltInRoles() returns (ids: set<RoleId>)
      ensures ids == base.disabled
    {
      ids := base.disabled;
    }

    /** Any write: delegated, and on success followed by a flush. */
    method Write(w: StoreModel.Write) returns (r: Result<()>)
      requires Valid()
      modifies this
      ensures Valid() && clock == old(clock)
      ensures r.Err? <==> Refused(old(base), w)
      ensures base == Written(old(base), w)
      ensures cache == if r.Err? then old(cache) else map[]
    {
      if Refused(base, w) {
        return Err;
      }
      base := Written(base, w);
      InvalidateAll();
      r := Ok(());
    }

    method InvalidateAll()
      modifies this`cache
      ensures cache == map[]
    {
      cache := map[];
    }
  }

  // --- cached answers and live ones ----------------------------------------------------

  predicate TimeFree(key: Key) {
    !key.GrantsForPrincipal? && !key.GrantsForOwners? && !key.PrincipalsWithGrant?
  }

  /** Of what an earlier read fetched, exactly the grants still in force are what
      a read would fetch now: a cached answer carries only grants that expired
      since, in addition. */
  lemma CachedGrantsOnlyExpire(s: State, owners: seq<Principal>, req: Request, p: Principal, at: Time, now: Time)
    requires at <= now
    ensures AllValid(owners) ==>
              Filter(OwnersGrants(s.grants, owners, req, at).value, Unexpired(now))
              == OwnersGrants(s.grants, owners, req, now).value
    ensures ValidPrincipal(p) ==>
              Filter(PrincipalsGrants(s.grants, p, at).value, Unexpired(now))
              == PrincipalsGrants(s.grants, p, now).value
  {
    FilterTwice(s.grants, (g: Grant) => Fetched(g, StoreModel.KeysOf(owners), req, at), Unexpired(now),
                (g: Grant) => Fetched(g, StoreModel.KeysOf(owners), req, now));
    FilterTwice(s.grants, (g: Grant) => g.Owner() == p && !g.ExpiredAt(at), Unexpired(now),
                (g: Grant) => g.Owner() == p && !g.ExpiredAt(now));
  }

  /** All other cached answers are what the base would answer now. */
  lemma CachedAnswersAreLive(s: State, key: Key, at: Time, now: Time)
    requires TimeFree(key)
    ensures Ask(s, key, at) == Ask(s, key, now)
  {
  }
}
