// The one-pass scan for principals holding a permission, deny winning over
// allow, and its sorted answer (bootstrap_store.go).
module GrantScan {
  import opened Types
  import opened Text
  import opened Collections
  import opened Sorting
  import opened Assignments

  datatype PrincipalHit = PrincipalHit(kind: string, id: string, teamScope: string,
                                       objectScope: Option<string>, permission: string)
  {
    function Holder(): Principal { Principal(kind, id) }
  }

  function HitOf(g: Grant): PrincipalHit {
    PrincipalHit(g.ownerKind, g.ownerId, g.teamScope, g.objectScope, g.permission)
  }

  predicate InForce(g: Grant, permission: string, now: Time) {
    g.permission == permission && !g.ExpiredAt(now)
  }

  /** The grants the scan looks at for one key. */
  ghost predicate Speaks(g: Grant, permission: string, now: Time, key: string, deny: bool) {
    InForce(g, permission, now) && PrincipalKey(g.Owner()) == key && g.IsDeny() == deny
  }

  ghost predicate Says(grants: seq<Grant>, permission: string, now: Time, key: string, deny: bool) {
    exists g :: g in grants && Speaks(g, permission, now, key, deny)
  }

  /** hit comes from the first allow of its key. */
  ghost predicate FirstAllow(grants: seq<Grant>, permission: string, now: Time, key: string, hit: PrincipalHit) {
    exists i :: 0 <= i < |grants| && Speaks(grants[i], permission, now, key, false) && hit == HitOf(grants[i])
      && forall j :: 0 <= j < i ==> !Speaks(grants[j], permission, now, key, false)
  }

  /** What the two maps hold after these grants. */
  ghost predicate Scanned(grants: seq<Grant>, permission: string, now: Time,
                          denied: set<string>, allowed: map<string, PrincipalHit>) {
    && (forall k :: k in denied <==> Says(grants, permission, now, k, true))
    && (forall k :: k in allowed <==> Says(grants, permission, now, k, false) && k !in denied)
    && (forall k :: k in allowed ==> FirstAllow(grants, permission, now, k, allowed[k]))
  }

  lemma SaysGrows(grants: seq<Grant>, g: Grant, permission: string, now: Time, key: string, deny: bool)
    ensures Says(grants + [g], permission, now, key, deny)
       <==> Says(grants, permission, now, key, deny) || Speaks(g, permission, now, key, deny)
  {
    if Says(grants, permission, now, key, deny) {
      var h :| h in grants && Speaks(h, permission, now, key, deny);
      assert h in grants + [g];
    }
    if Speaks(g, permission, now, key, deny) {
      assert g in grants + [g];
    }
  }

  lemma FirstAllowStays(grants: seq<Grant>, g: Grant, permission: string, now: Time, key: string, hit: PrincipalHit)
    requires FirstAllow(grants, permission, now, key, hit)
    ensures FirstAllow(grants + [g], permission, now, key, hit)
  {
    var i :| 0 <= i < |grants| && Speaks(grants[i], permission, now, key, false) && hit == HitOf(grants[i])
             && forall j :: 0 <= j < i ==> !Speaks(grants[j], permission, now, key, false);
    var all := grants + [g];
    assert all[i] == grants[i] && forall j :: 0 <= j < i ==> all[j] == grants[j];
  }

  lemma FirstAllowAppears(grants: seq<Grant>, g: Grant, permission: string, now: Time, key: string)
    requires !Says(grants, permission, now, key, false) && Speaks(g, permission, now, key, false)
    ensures FirstAllow(grants + [g], permission, now, key, HitOf(g))
  {
    var all := grants + [g];
    assert all[|grants|] == g;
    assert forall j :: 0 <= j < |grants| ==> all[j] == grants[j] && grants[j] in grants;
  }

  /** One turn of the loop on the two maps. */
  function Turn(g: Grant, permission: string, now: Time, denied: set<string>, allowed: map<string, PrincipalHit>)
    : (set<string>, map<string, PrincipalHit>)
  {
    var key := PrincipalKey(g.Owner());
    if !InForce(g, permission, now) then (denied, allowed)
    else if g.IsDeny() then (denied + {key}, allowed - {key})
    else if key in denied || key in allowed then (denied, allowed)
    else (denied, allowed[key := HitOf(g)])
  }

  lemma TurnScans(grants: seq<Grant>, g: Grant, permission: string, now: Time,
                  denied: set<string>, allowed: map<string, PrincipalHit>)
    requires Scanned(grants, permission, now, denied, allowed)
    ensures var (d, a) := Turn(g, permission, now, denied, allowed);
      Scanned(grants + [g], permission, now, d, a)
  {
    var (d, a) := Turn(g, permission, now, denied, allowed);
    forall k
      ensures k in d <==> Says(grants + [g], permission, now, k, true)
      ensures k in a <==> Says(grants + [g], permission, now, k, false) && k !in d
    {
      SaysGrows(grants, g, permission, now, k, true);
      SaysGrows(grants, g, permission, now, k, false);
    }
    forall k | k in a
      ensures FirstAllow(grants + [g], permission, now, k, a[k])
    {
      if k in allowed {
        FirstAllowStays(grants, g, permission, now, k, allowed[k]);
      } else {
        FirstAllowAppears(grants, g, permission, now, k);
      }
    }
  }

  predicate HitLess(x: PrincipalHit, y: PrincipalHit) {
    if x.kind != y.kind then Less(x.kind, y.kind) else Less(x.id, y.id)
  }

  /** Each hit before the next by kind, then ID: so each principal once. */
  ghost predicate StrictlyByHolder(hits: seq<PrincipalHit>) {
    forall i, j :: 0 <= i < j < |hits| ==>
      if hits[i].kind != hits[j].kind then Less(hits[i].kind, hits[j].kind) else Less(hits[i].id, hits[j].id)
  }

  lemma HitsAreTotal(hits: set<PrincipalHit>)
    requires forall x, y :: x in hits && y in hits && x.Holder() == y.Holder() ==> x == y
    ensures TotalOn(hits, HitLess)
  {
    forall x, y, z | x in hits && y in hits && z in hits && HitLess(x, y) && HitLess(y, z)
      ensures HitLess(x, z)
    {
      if x.kind == y.kind == z.kind {
        LessTrans(x.id, y.id, z.id);
      } else if x.kind != y.kind && y.kind != z.kind {
        LessTrans(x.kind, y.kind, z.kind);
        LessTotal(x.kind, y.kind);
      }
    }
    forall x, y | x in hits && y in hits
      ensures x != y ==> HitLess(x, y) || HitLess(y, x)
      ensures !(HitLess(x, y) && HitLess(y, x))
    {
      assert x.Holder() == y.Holder() <==> x.kind == y.kind && x.id == y.id;
      LessTotal(x.kind, y.kind);
      LessTotal(x.id, y.id);
    }
  }

  method PrincipalsWithGrant(grants: seq<Grant>, permission: string, now: Time)
    returns (r: Result<seq<PrincipalHit>>)
    ensures r.Err? <==> permission == ""
    ensures r.Ok? ==> StrictlyByHolder(r.value)
    ensures r.Ok? ==> IsAnswer(grants, permission, now, r.value)
  {
    if permission == "" {
      return Err;
    }
    var denied: set<string> := {};
    var allowed: map<string, PrincipalHit> := map[];
    for i := 0 to |grants|
      invariant Scanned(grants[..i], permission, now, denied, allowed)
    {
      var g := grants[i];
      TurnScans(grants[..i], g, permission, now, denied, allowed);
      PrefixGrows(grants, i);
      if g.permission != permission || g.ExpiredAt(now) {
        continue;
      }
      var key := PrincipalKey(g.Owner());
      if g.IsDeny() {
        denied := denied + {key};
        allowed := allowed - {key};
        continue;
      }
      if key in denied {
        continue;
      }
      if key in allowed {
        continue;
      }
      allowed := allowed[key := HitOf(g)];
    }
    WholePrefix(grants);
    ScannedHits(grants, permission, now, denied, allowed);
    var hits := ValuesOf(allowed);
    HitsAreTotal(Elements(hits));
    var sorted := SortBy(hits, HitLess);
    SortedDistinct(hits, sorted, HitLess);
    SameBag(sorted, hits);
    assert forall h :: h in sorted <==> h in Elements(hits);
    r := Ok(sorted);
  }

  /** `for _, hit := range allowed`, in any order. */
  method ValuesOf(allowed: map<string, PrincipalHit>) returns (hits: seq<PrincipalHit>)
    requires forall k :: k in allowed ==> PrincipalKey(allowed[k].Holder()) == k
    ensures NoDuplicates(hits)
    ensures forall h :: h in hits <==> PrincipalKey(h.Holder()) in allowed && allowed[PrincipalKey(h.Holder())] == h
  {
    hits := [];
    var pending := allowed.Keys;
    while pending != {}
      invariant pending <= allowed.Keys && NoDuplicates(hits)
      invariant forall h :: h in hits <==>
                  var k := PrincipalKey(h.Holder()); k in allowed && k !in pending && allowed[k] == h
    {
      var k :| k in pending;
      AppendNew(hits, allowed[k]);
      hits := hits + [allowed[k]];
      pending := pending - {k};
    }
  }

  lemma ScannedHits(grants: seq<Grant>, permission: string, now: Time,
                    denied: set<string>, allowed: map<string, PrincipalHit>)
    requires Scanned(grants, permission, now, denied, allowed)
    ensures forall k :: k in allowed ==> PrincipalKey(allowed[k].Holder()) == k
    ensures forall hit: PrincipalHit :: var k := PrincipalKey(hit.Holder());
              (k in allowed && allowed[k] == hit) <==>
              !Says(grants, permission, now, k, true) && FirstAllow(grants, permission, now, k, hit)
  {
    forall k | k in allowed
      ensures PrincipalKey(allowed[k].Holder()) == k
    {
      var i :| 0 <= i < |grants| && Speaks(grants[i], permission, now, k, false) && allowed[k] == HitOf(grants[i]);
    }
    forall hit: PrincipalHit, k | k == PrincipalKey(hit.Holder())
      ensures (k in allowed && allowed[k] == hit) <==>
              !Says(grants, permission, now, k, true) && FirstAllow(grants, permission, now, k, hit)
    {
      if FirstAllow(grants, permission, now, k, hit) {
        FirstAllowSays(grants, permission, now, k, hit);
        if k in allowed {
          FirstAllowIsUnique(grants, permission, now, k, hit, allowed[k]);
        }
      }
    }
  }

  lemma FirstAllowSays(grants: seq<Grant>, permission: string, now: Time, k: string, hit: PrincipalHit)
    requires FirstAllow(grants, permission, now, k, hit)
    ensures Says(grants, permission, now, k, false)
  {
    var i :| 0 <= i < |grants| && Speaks(grants[i], permission, now, k, false);
    assert grants[i] in grants;
  }

  lemma FirstAllowIsUnique(grants: seq<Grant>, permission: string, now: Time, k: string, x: PrincipalHit,
                           y: PrincipalHit)
    requires FirstAllow(grants, permission, now, k, x) && FirstAllow(grants, permission, now, k, y)
    ensures x == y
  {
    var i :| 0 <= i < |grants| && Speaks(grants[i], permission, now, k, false) && x == HitOf(grants[i])
             && forall j :: 0 <= j < i ==> !Speaks(grants[j], permission, now, k, false);
    var j :| 0 <= j < |grants| && Speaks(grants[j], permission, now, k, false) && y == HitOf(grants[j])
             && forall l :: 0 <= l < j ==> !Speaks(grants[l], permission, now, k, false);
    assert i == j;
  }

  // --- in terms of principals ---------------------------------------------------------

  ghost predicate Has(grants: seq<Grant>, permission: string, now: Time, p: Principal, deny: bool) {
    exists g :: g in grants && g.permission == permission && (g.expiresAt.Some? ==> now < g.expiresAt.value)
                && g.ownerKind == p.kind && g.ownerId == p.id && (g.effect == "deny" <==> deny)
  }

  ghost predicate Names(hits: seq<PrincipalHit>, p: Principal) {
    exists h :: h in hits && h.Holder() == p
  }

  lemma {:induction false} SomeFirstAllow(grants: seq<Grant>, permission: string, now: Time, k: string)
    requires Says(grants, permission, now, k, false)
    ensures exists hit :: FirstAllow(grants, permission, now, k, hit)
  {
    var front, last := grants[..|grants| - 1], grants[|grants| - 1];
    assert grants == front + [last];
    SaysGrows(front, last, permission, now, k, false);
    if Says(front, permission, now, k, false) {
      SomeFirstAllow(front, permission, now, k);
      var hit :| FirstAllow(front, permission, now, k, hit);
      FirstAllowStays(front, last, permission, now, k, hit);
    } else {
      FirstAllowAppears(front, last, permission, now, k);
    }
  }

  /** What the scan's answer consists of. */
  ghost predicate IsAnswer(grants: seq<Grant>, permission: string, now: Time, hits: seq<PrincipalHit>) {
    forall hit :: hit in hits <==>
      !Says(grants, permission, now, PrincipalKey(hit.Holder()), true)
      && FirstAllow(grants, permission, now, PrincipalKey(hit.Holder()), hit)
  }

  /** p is to be named: it has an unexpired allow and no unexpired deny. */
  ghost predicate Entitled(grants: seq<Grant>, permission: string, now: Time, p: Principal) {
    Has(grants, permission, now, p, false) && !Has(grants, permission, now, p, true)
  }

  /** Every grant in force under p's key is p's own. */
  ghost predicate OwnKey(grants: seq<Grant>, permission: string, now: Time, p: Principal) {
    forall g :: g in grants && InForce(g, permission, now) && PrincipalKey(g.Owner()) == PrincipalKey(p)
           ==> g.Owner() == p
  }

  /** Nobody who is to be named shares a key. */
  ghost predicate KeysSuffice(grants: seq<Grant>, permission: string, now: Time) {
    forall p :: Entitled(grants, permission, now, p) ==> OwnKey(grants, permission, now, p)
  }

  lemma NamedIsEntitled(grants: seq<Grant>, permission: string, now: Time, hits: seq<PrincipalHit>, p: Principal)
    requires IsAnswer(grants, permission, now, hits) && Names(hits, p)
    ensures Entitled(grants, permission, now, p) && !Says(grants, permission, now, PrincipalKey(p), true)
  {
    var h :| h in hits && h.Holder() == p;
    var i :| 0 <= i < |grants| && Speaks(grants[i], permission, now, PrincipalKey(p), false) && h == HitOf(grants[i]);
    assert grants[i] in grants && grants[i].Owner() == p;
  }

  lemma EntitledIsNamed(grants: seq<Grant>, permission: string, now: Time, hits: seq<PrincipalHit>, p: Principal)
    requires IsAnswer(grants, permission, now, hits)
    requires Entitled(grants, permission, now, p) && OwnKey(grants, permission, now, p)
    ensures Names(hits, p)
  {
    var k := PrincipalKey(p);
    var g :| g in grants && InForce(g, permission, now) && g.Owner() == p && !g.IsDeny();
    assert Speaks(g, permission, now, k, false);
    SomeFirstAllow(grants, permission, now, k);
    var hit :| FirstAllow(grants, permission, now, k, hit);
    var i :| 0 <= i < |grants| && Speaks(grants[i], permission, now, k, false) && hit == HitOf(grants[i]);
    assert grants[i] in grants;
    assert hit.Holder() == p;
  }

  /** A hit shows the owner, the scopes and the permission of one allow in force,
      the first of its key. */
  lemma HitShowsFirstAllow(grants: seq<Grant>, permission: string, now: Time, hits: seq<PrincipalHit>,
                           hit: PrincipalHit)
    requires IsAnswer(grants, permission, now, hits) && hit in hits
    ensures exists i :: 0 <= i < |grants| && Shows(grants[i], hit, permission, now)
              && forall j :: 0 <= j < i && SameKeyInForce(grants[j], grants[i], permission, now) ==>
                               grants[j].effect == "deny"
  {
    var k := PrincipalKey(hit.Holder());
    var i :| 0 <= i < |grants| && Speaks(grants[i], permission, now, k, false) && hit == HitOf(grants[i])
      && forall j :: 0 <= j < i ==> !Speaks(grants[j], permission, now, k, false);
    assert Shows(grants[i], hit, permission, now);
    forall j | 0 <= j < i && SameKeyInForce(grants[j], grants[i], permission, now)
      ensures grants[j].effect == "deny"
    {
      assert !Speaks(grants[j], permission, now, k, false);
    }
  }

  predicate SameKeyInForce(g: Grant, h: Grant, permission: string, now: Time) {
    && PrincipalKey(g.Owner()) == PrincipalKey(h.Owner())
    && g.permission == permission && (g.expiresAt.Some? ==> now < g.expiresAt.value)
  }

  predicate Shows(g: Grant, hit: PrincipalHit, permission: string, now: Time) {
    && hit.kind == g.ownerKind && hit.id == g.ownerId && hit.teamScope == g.teamScope
    && hit.objectScope == g.objectScope && hit.permission == g.permission == permission
    && g.effect != "deny" && (g.expiresAt.Some? ==> now < g.expiresAt.value)
  }

  /** Two owners under one key: an answer that names the one misses the other. */
  lemma NamedOwnsKey(grants: seq<Grant>, permission: string, now: Time, hits: seq<PrincipalHit>, p: Principal, g: Grant)
    requires IsAnswer(grants, permission, now, hits) && Names(hits, p)
    requires g in grants && InForce(g, permission, now) && PrincipalKey(g.Owner()) == PrincipalKey(p)
    ensures Entitled(grants, permission, now, g.Owner())
    ensures Names(hits, g.Owner()) ==> g.Owner() == p
  {
    var k, q := PrincipalKey(p), g.Owner();
    NamedIsEntitled(grants, permission, now, hits, p);
    assert !g.IsDeny() by {
      assert g.IsDeny() ==> Speaks(g, permission, now, k, true);
    }
    forall d | d in grants && InForce(d, permission, now) && d.Owner() == q
      ensures !d.IsDeny()
    {
      assert d.IsDeny() ==> Speaks(d, permission, now, k, true);
    }
    if Names(hits, q) {
      var x :| x in hits && x.Holder() == p;
      var y :| y in hits && y.Holder() == q;
      FirstAllowIsUnique(grants, permission, now, k, x, y);
    }
  }

  /** The answer names exactly those with an unexpired allow and no unexpired
      deny if and only if nobody of them shares a key; owner kinds are not
      validated, and only invalid ones can share. */
  lemma ScanIsRightExactly(grants: seq<Grant>, permission: string, now: Time, hits: seq<PrincipalHit>)
    requires IsAnswer(grants, permission, now, hits)
    ensures (forall p :: Names(hits, p) <==> Entitled(grants, permission, now, p))
       <==> KeysSuffice(grants, permission, now)
  {
    if forall p :: Names(hits, p) <==> Entitled(grants, permission, now, p) {
      forall p, g | Entitled(grants, permission, now, p) && g in grants && InForce(g, permission, now)
                    && PrincipalKey(g.Owner()) == PrincipalKey(p)
        ensures g.Owner() == p
      {
        NamedOwnsKey(grants, permission, now, hits, p, g);
      }
    }
    if KeysSuffice(grants, permission, now) {
      forall p
        ensures Names(hits, p) <==> Entitled(grants, permission, now, p)
      {
        if Names(hits, p) {
          NamedIsEntitled(grants, permission, now, hits, p);
        }
        if Entitled(grants, permission, now, p) {
          EntitledIsNamed(grants, permission, now, hits, p);
        }
      }
    }
  }

  lemma ValidKindsSuffice(grants: seq<Grant>, permission: string, now: Time)
    requires forall g :: g in grants ==> ValidKind(g.ownerKind)
    ensures KeysSuffice(grants, permission, now)
  {
    forall p, g | Entitled(grants, permission, now, p) && g in grants && InForce(g, permission, now)
                  && PrincipalKey(g.Owner()) == PrincipalKey(p)
      ensures g.Owner() == p
    {
      var a :| a in grants && InForce(a, permission, now) && a.Owner() == p && !a.IsDeny();
      KeysAreInjective(g.Owner(), p);
    }
  }

  /** With valid owner kinds the answer names exactly the principals with an
      unexpired allow and no unexpired deny for the permission: what it names
      does not depend on the order of the grants. */
  lemma ScanIsDenyWins(grants: seq<Grant>, permission: string, now: Time, hits: seq<PrincipalHit>, p: Principal)
    requires forall g :: g in grants ==> ValidKind(g.ownerKind)
    requires IsAnswer(grants, permission, now, hits)
    ensures Names(hits, p) <==>
              Has(grants, permission, now, p, false) && !Has(grants, permission, now, p, true)
  {
    ValidKindsSuffice(grants, permission, now);
    ScanIsRightExactly(grants, permission, now, hits);
    assert Entitled(grants, permission, now, p)
           <==> Has(grants, permission, now, p, false) && !Has(grants, permission, now, p, true);
  }

  /** Invalid kinds may print to one key: then one principal's deny hides another. */
  lemma InvalidKindsShareKeys(allow: Grant, deny: Grant, now: Time)
    requires allow.Owner() == Principal("a", "b:c") && deny.Owner() == Principal("a:b", "c")
    requires !allow.IsDeny() && deny.IsDeny() && allow.permission == deny.permission
    requires !allow.ExpiredAt(now) && !deny.ExpiredAt(now)
    ensures allow.Owner() != deny.Owner()
    ensures Says([allow, deny], allow.permission, now, PrincipalKey(allow.Owner()), true)
    ensures !Has([allow, deny], allow.permission, now, allow.Owner(), true)
  {
    assert PrincipalKey(allow.Owner()) == "a:b:c" == PrincipalKey(deny.Owner());
    assert deny in [allow, deny];
    assert allow.Owner().kind != deny.Owner().kind by {
      assert |"a"| == 1 && |"a:b"| == 3;
    }
  }
}
