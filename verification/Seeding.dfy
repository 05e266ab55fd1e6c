// Idempotent seeding: grants are written only when no equivalent one is in
// force (service.go).
module Seeding {
  import opened Types
  import opened Text
  import opened Collections
  import opened Sorting
  import opened StoreModel
  import opened BootstrapStore

  /** The same strings, repetitions counted, in any order. */
  predicate SameStringSet(left: seq<string>, right: seq<string>) {
    multiset(left) == multiset(right)
  }

  /** As the source decides it: by comparing sorted copies. */
  method CompareStringSets(left: seq<string>, right: seq<string>) returns (same: bool)
    ensures same <==> SameStringSet(left, right)
  {
    if |left| != |right| {
      assert |multiset(left)| == |left| && |multiset(right)| == |right|;
      return false;
    }
    StringsAreTotal(Elements(left));
    StringsAreTotal(Elements(right));
    var l := SortBy(left, Less);
    var r := SortBy(right, Less);
    SameBag(l, left);
    SameBag(r, right);
    for i := 0 to |l|
      invariant l[..i] == r[..i]
    {
      if l[i] != r[i] {
        if SameStringSet(left, right) {
          SortedBagIsUnique(l, r);
        }
        return false;
      }
      PrefixGrows(l, i);
      PrefixGrows(r, i);
    }
    WholePrefix(l);
    WholePrefix(r);
    same := true;
  }

  /** grantsEquivalent: equal but for the order of the restricted fields. A nil
      and an empty VariableSpec differ. */
  predicate Equivalent(left: Grant, right: Grant) {
    left.(restricted := []) == right.(restricted := []) && SameStringSet(left.restricted, right.restricted)
  }

  /** The store has an equivalent of g in force. */
  ghost predicate Present(grants: seq<Grant>, g: Grant, now: Time) {
    exists h :: h in grants && !h.ExpiredAt(now) && Equivalent(h, g)
  }

  predicate Acceptable(g: Grant) {
    GrantAccepted(g) && ValidPrincipal(g.Owner())
  }

  /** What the call decides to write, the i-th store query being answered at
      time storeClock(i). */
  ghost function Missing(grants: seq<Grant>, wanted: seq<Grant>, now: Time, storeClock: nat -> Time): seq<Grant> {
    if wanted == [] then []
    else
      var i := |wanted| - 1;
      Missing(grants, wanted[..i], now, storeClock)
      + if FoundAt(grants, wanted[i], now, storeClock(i)) then [] else [wanted[i]]
  }

  ghost predicate FoundAt(grants: seq<Grant>, g: Grant, now: Time, storeNow: Time) {
    exists h :: h in grants && !h.ExpiredAt(storeNow) && !h.ExpiredAt(now) && Equivalent(h, g)
  }

  method EnsureGrantsForOwners(store: Store, wanted: seq<Grant>, now: Time, storeClock: nat -> Time)
    returns (r: Result<()>)
    requires store.Valid()
    modifies store`grants
    ensures store.Valid()
    ensures r.Ok? <==> forall g :: g in wanted ==>
              && g.ownerId != "" && g.permission != "" && g.teamScope != ""
              && g.ownerKind in {"user", "group", "team", "role"}
    ensures r.Err? ==> store.grants == old(store.grants)
    ensures r.Ok? ==> store.grants == old(store.grants) + Missing(old(store.grants), wanted, now, storeClock)
  {
    if |wanted| == 0 {
      return Ok(());
    }
    var missing: seq<Grant> := [];
    for i := 0 to |wanted|
      invariant store.grants == old(store.grants)
      invariant missing == Missing(store.grants, wanted[..i], now, storeClock)
      invariant forall g :: g in wanted[..i] ==> Acceptable(g)
      invariant forall g :: g in missing ==> GrantAccepted(g)
    {
      var g := wanted[i];
      PrefixGrows(wanted, i);
      assert wanted[..i + 1][..i] == wanted[..i] && g in wanted;
      if g.ownerId == "" || g.permission == "" || g.teamScope == "" {
        return Err;
      }
      if !ValidPrincipal(g.Owner()) {
        return Err;
      }
      var existing := store.GrantsForPrincipal(g.Owner(), storeClock(i));
      var exists' := HasEquivalent(existing.value, g, now);
      assert exists' <==> FoundAt(store.grants, g, now, storeClock(i));
      if !exists' {
        missing := missing + [g];
      }
    }
    WholePrefix(wanted);
    r := CreateAll(store, missing);
  }

  method HasEquivalent(existing: seq<Grant>, g: Grant, now: Time) returns (found: bool)
    ensures found <==> Present(existing, g, now)
  {
    for i := 0 to |existing|
      invariant forall h :: h in existing[..i] && !h.ExpiredAt(now) ==> !Equivalent(h, g)
    {
      PrefixGrows(existing, i);
      var current := existing[i];
      if current.ExpiredAt(now) {
        continue;
      }
      if current.(restricted := []) == g.(restricted := []) {
        var same := CompareStringSets(current.restricted, g.restricted);
        if same {
          assert Equivalent(current, g);
          return true;
        }
      }
    }
    WholePrefix(existing);
    found := false;
  }

  /** Service.CreateGrants checks all before the bulk write starts. */
  method CreateAll(store: Store, more: seq<Grant>) returns (r: Result<()>)
    requires store.Valid()
    modifies store`grants
    ensures store.Valid()
    ensures r.Ok? <==> forall g :: g in more ==> GrantAccepted(g)
    ensures store.grants == if r.Ok? then old(store.grants) + more else old(store.grants)
  {
    for i := 0 to |more|
      invariant store.grants == old(store.grants) && forall g :: g in more[..i] ==> GrantAccepted(g)
    {
      PrefixGrows(more, i);
      assert more[i] in more;
      if !GrantAccepted(more[i]) {
        return Err;
      }
    }
    WholePrefix(more);
    r := store.CreateGrants(more);
  }

  // --- what seeding achieves --------------------------------------------------------

  lemma {:induction false} MissingMembers(grants: seq<Grant>, wanted: seq<Grant>, now: Time, storeClock: nat -> Time,
                                          i: nat)
    requires i < |wanted|
    ensures wanted[i] in Missing(grants, wanted, now, storeClock) || FoundAt(grants, wanted[i], now, storeClock(i))
  {
    var n := |wanted| - 1;
    if i < n {
      MissingMembers(grants, wanted[..n], now, storeClock, i);
    }
  }

  /** Afterwards every wanted grant not yet expired has an equivalent in force. */
  lemma SeedingEstablishes(grants: seq<Grant>, wanted: seq<Grant>, now: Time, storeClock: nat -> Time,
                           g: Grant, later: Time)
    requires g in wanted && !g.ExpiredAt(later)
    ensures Present(grants + Missing(grants, wanted, now, storeClock), g, later)
  {
    var i :| 0 <= i < |wanted| && wanted[i] == g;
    MissingMembers(grants, wanted, now, storeClock, i);
    if FoundAt(grants, g, now, storeClock(i)) {
      var h :| h in grants && !h.ExpiredAt(storeClock(i)) && !h.ExpiredAt(now) && Equivalent(h, g);
      assert h.expiresAt == g.expiresAt;
      assert h in grants + Missing(grants, wanted, now, storeClock);
    } else {
      assert Equivalent(g, g);
      assert g in grants + Missing(grants, wanted, now, storeClock);
    }
  }

  lemma {:induction false} NothingMissing(grants: seq<Grant>, wanted: seq<Grant>, now: Time, storeClock: nat -> Time)
    requires forall i :: 0 <= i < |wanted| ==> FoundAt(grants, wanted[i], now, storeClock(i))
    ensures Missing(grants, wanted, now, storeClock) == []
  {
    if wanted != [] {
      NothingMissing(grants, wanted[..|wanted| - 1], now, storeClock);
    }
  }

  /** Repeating the call adds nothing while the wanted grants are in force. */
  lemma SeedingIsIdempotent(grants: seq<Grant>, wanted: seq<Grant>, now: Time, storeClock: nat -> Time,
                            again: Time, storeAgain: nat -> Time)
    requires forall i :: 0 <= i < |wanted| ==> !wanted[i].ExpiredAt(again) && !wanted[i].ExpiredAt(storeAgain(i))
    ensures Missing(grants + Missing(grants, wanted, now, storeClock), wanted, again, storeAgain) == []
  {
    var after := grants + Missing(grants, wanted, now, storeClock);
    forall i | 0 <= i < |wanted|
      ensures FoundAt(after, wanted[i], again, storeAgain(i))
    {
      SeedingEstablishes(grants, wanted, now, storeClock, wanted[i], again);
      var h :| h in after && !h.ExpiredAt(again) && Equivalent(h, wanted[i]);
      assert h.expiresAt == wanted[i].expiresAt;
    }
    NothingMissing(after, wanted, again, storeAgain);
  }

  // --- what is written twice ---------------------------------------------------------------

  ghost predicate Repeats(grants: seq<Grant>) {
    exists i, j :: 0 <= i < j < |grants| && Equivalent(grants[i], grants[j])
  }

  /** wanted[i] was not in force when the call asked for it. */
  ghost predicate Wanting(grants: seq<Grant>, wanted: seq<Grant>, now: Time, storeClock: nat -> Time, i: nat) {
    i < |wanted| && !FoundAt(grants, wanted[i], now, storeClock(i))
  }

  ghost predicate ListedTwice(grants: seq<Grant>, wanted: seq<Grant>, now: Time, storeClock: nat -> Time) {
    exists i: nat, j: nat ::
      i < j && Wanting(grants, wanted, now, storeClock, i) && Wanting(grants, wanted, now, storeClock, j)
      && Equivalent(wanted[i], wanted[j])
  }

  lemma RepeatsGrows(s: seq<Grant>, g: Grant)
    ensures Repeats(s + [g]) <==> Repeats(s) || exists h :: h in s && Equivalent(h, g)
  {
    if Repeats(s) {
      var i, j :| 0 <= i < j < |s| && Equivalent(s[i], s[j]);
      assert (s + [g])[i] == s[i] && (s + [g])[j] == s[j];
    }
    if exists h :: h in s && Equivalent(h, g) {
      var i :| 0 <= i < |s| && Equivalent(s[i], g);
      assert (s + [g])[i] == s[i] && (s + [g])[|s|] == g;
    }
  }

  lemma FrontIsWanting(grants: seq<Grant>, wanted: seq<Grant>, now: Time, storeClock: nat -> Time, n: nat, i: nat)
    requires n <= |wanted|
    ensures Wanting(grants, wanted[..n], now, storeClock, i) <==> i < n && Wanting(grants, wanted, now, storeClock, i)
  {
  }

  /** g is a missing entry. */
  ghost predicate IsWanting(grants: seq<Grant>, wanted: seq<Grant>, now: Time, storeClock: nat -> Time, g: Grant) {
    exists i: nat :: Wanting(grants, wanted, now, storeClock, i) && wanted[i] == g
  }

  lemma IsWantingGrows(grants: seq<Grant>, wanted: seq<Grant>, now: Time, storeClock: nat -> Time, n: nat, g: Grant)
    requires n + 1 == |wanted|
    ensures IsWanting(grants, wanted, now, storeClock, g) <==>
              || IsWanting(grants, wanted[..n], now, storeClock, g)
              || (Wanting(grants, wanted, now, storeClock, n) && wanted[n] == g)
  {
    forall i: nat {
      FrontIsWanting(grants, wanted, now, storeClock, n, i);
    }
    assert forall i: nat :: i < n ==> wanted[..n][i] == wanted[i];
  }

  lemma {:induction false} MissingAreWanting(grants: seq<Grant>, wanted: seq<Grant>, now: Time, storeClock: nat -> Time,
                                             g: Grant)
    ensures g in Missing(grants, wanted, now, storeClock) <==> IsWanting(grants, wanted, now, storeClock, g)
  {
    if wanted != [] {
      var n := |wanted| - 1;
      MissingAreWanting(grants, wanted[..n], now, storeClock, g);
      IsWantingGrows(grants, wanted, now, storeClock, n, g);
    }
  }

  /** An entry equivalent to g is missing. */
  ghost predicate AnyWanting(grants: seq<Grant>, wanted: seq<Grant>, now: Time, storeClock: nat -> Time, g: Grant) {
    exists i: nat :: Wanting(grants, wanted, now, storeClock, i) && Equivalent(wanted[i], g)
  }

  lemma MissingIsWanting(grants: seq<Grant>, wanted: seq<Grant>, now: Time, storeClock: nat -> Time, g: Grant)
    ensures (exists h :: h in Missing(grants, wanted, now, storeClock) && Equivalent(h, g))
       <==> AnyWanting(grants, wanted, now, storeClock, g)
  {
    forall h {
      MissingAreWanting(grants, wanted, now, storeClock, h);
    }
    if AnyWanting(grants, wanted, now, storeClock, g) {
      var i: nat :| Wanting(grants, wanted, now, storeClock, i) && Equivalent(wanted[i], g);
      assert wanted[i] in Missing(grants, wanted, now, storeClock);
    }
  }

  lemma ListedTwiceGrows(grants: seq<Grant>, wanted: seq<Grant>, now: Time, storeClock: nat -> Time, n: nat)
    requires n + 1 == |wanted|
    ensures ListedTwice(grants, wanted, now, storeClock) <==>
              || ListedTwice(grants, wanted[..n], now, storeClock)
              || (Wanting(grants, wanted, now, storeClock, n)
                  && AnyWanting(grants, wanted[..n], now, storeClock, wanted[n]))
  {
    forall i: nat {
      FrontIsWanting(grants, wanted, now, storeClock, n, i);
    }
    assert forall i: nat :: i < n ==> wanted[..n][i] == wanted[i];
  }

  /** One call does not look at its own earlier entries: it writes two equivalent
      grants if and only if two equivalent entries of the list are both missing. */
  lemma {:induction false} RepetitionIsWrittenExactly(grants: seq<Grant>, wanted: seq<Grant>, now: Time,
                                                      storeClock: nat -> Time)
    ensures Repeats(Missing(grants, wanted, now, storeClock)) <==> ListedTwice(grants, wanted, now, storeClock)
  {
    if wanted != [] {
      var n := |wanted| - 1;
      var before := Missing(grants, wanted[..n], now, storeClock);
      RepetitionIsWrittenExactly(grants, wanted[..n], now, storeClock);
      ListedTwiceGrows(grants, wanted, now, storeClock, n);
      MissingIsWanting(grants, wanted[..n], now, storeClock, wanted[n]);
      RepeatsGrows(before, wanted[n]);
      assert before + [] == before;
    }
  }

  /** Such a list: a grant not in force, twice. */
  lemma RepeatedEntryIsWrittenTwice(g: Grant, now: Time, storeClock: nat -> Time)
    ensures Missing([], [g, g], now, storeClock) == [g, g]
  {
    assert [g, g][..1] == [g] && [g][..0] == [];
    assert !FoundAt([], g, now, storeClock(0)) && !FoundAt([], g, now, storeClock(1));
    assert Missing([], [g], now, storeClock) == [g];
  }
}
