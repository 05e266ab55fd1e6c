// The two layers a role is expanded through, the store's inheritance and the
// built-in registry's, and when together they reach what the two sets of
// edges reach.
module RoleExpansion {
  import opened Types
  import opened Text
  import opened Collections
  import opened RoleGraph
  import opened RoleIndex
  import opened Decision

  /** The store and the registry answer expansions from these closure indexes. */
  ghost predicate ExpandsBy(w: Service, custom: Index, builtIn: Index) {
    && (forall ids :: Elements(w.store.expandRoles(ids)) == Expansion(custom.rows, Roots(ids)))
    && (forall ids :: Elements(w.builtIns.expandRoles(ids)) == Expansion(builtIn.rows, Roots(ids)))
  }

  /** Registry edges join built-in roles; Service.AddRoleInheritance sends every
      other edge to the store. IDs are trimmed. */
  ghost predicate Routed(s: Graph, b: Graph) {
    && (forall e :: e in b ==> IsBuiltIn(e.0) && IsBuiltIn(e.1))
    && (forall e :: e in s ==> !(IsBuiltIn(e.0) && IsBuiltIn(e.1)))
    && (forall e :: e in s + b ==> Normalised(e.0) && Normalised(e.1))
  }

  predicate Normalised(r: RoleId) {
    r != "" && Trimmed(r)
  }

  lemma OneRoot(id: RoleId)
    ensures Roots([id]) == if TrimSpace(id) == "" then {} else {TrimSpace(id)}
    ensures Normalised(id) ==> Roots([id]) == {id}
  {
    assert forall x :: x in [id] <==> x == id;
    if Normalised(id) {
      TrimmedIsFixed(id);
    }
  }

  /** Normalised roles reach normalised roles, so nothing is lost when the
      registry trims what the store answered. */
  lemma ReachesNormalised(g: Graph, a: RoleId, b: RoleId)
    requires forall e :: e in g ==> Normalised(e.0) && Normalised(e.1)
    requires Normalised(a) && Reaches(g, a, b)
    ensures Normalised(b)
  {
    ReachesStaysInside(g, (iset x | Normalised(x)), a, b);
  }

  lemma ReachesBuiltIn(b: Graph, a: RoleId, r: RoleId)
    requires forall e :: e in b ==> IsBuiltIn(e.1)
    requires IsBuiltIn(a) && Reaches(b, a, r)
    ensures IsBuiltIn(r)
  {
    ReachesStaysInside(b, (iset x | IsBuiltIn(x)), a, r);
  }

  /** What the two layers list for one root. */
  lemma InheritedIsTwoStage(w: Service, custom: Index, builtIn: Index, s: Graph, b: Graph, root: RoleId, r: RoleId)
    requires ExpandsBy(w, custom, builtIn) && Tracks(custom, s) && Tracks(builtIn, b) && Routed(s, b)
    requires Normalised(root)
    ensures IsBuiltIn(root) ==> (r in Inherited(w, root) <==> Reaches(b, root, r))
    ensures !IsBuiltIn(root) ==> (r in Inherited(w, root) <==> Via(s, b, root, r))
  {
    OneRoot(root);
    assert r in Inherited(w, root) <==> r in Elements(Inherited(w, root));
    if IsBuiltIn(root) {
      ExpansionIsReachability(builtIn, b, {root}, r);
    } else {
      var first := w.store.expandRoles([root]);
      forall m
        ensures m in first <==> Reaches(s, root, m)
      {
        assert m in first <==> m in Elements(first);
        ExpansionIsReachability(custom, s, {root}, m);
      }
      forall m
        ensures m in Roots(first) <==> Reaches(s, root, m)
      {
        forall x | x in first
          ensures TrimSpace(x) == x && x != ""
        {
          ReachesNormalised(s, root, x);
          TrimmedIsFixed(x);
        }
      }
      ExpansionIsReachability(builtIn, b, Roots(first), r);
    }
  }

  /** A store path followed by a registry path. */
  ghost predicate Via(s: Graph, b: Graph, root: RoleId, r: RoleId) {
    exists m :: Reaches(s, root, m) && Reaches(b, m, r)
  }

  /** Without store edges out of built-in roles, a path through both layers is a
      store path followed by a registry path. */
  lemma UnionSplits(s: Graph, b: Graph, root: RoleId, r: RoleId)
    requires Routed(s, b) && forall e :: e in s ==> !IsBuiltIn(e.0)
    ensures Reaches(s + b, root, r) <==> Via(s, b, root, r)
    ensures IsBuiltIn(root) ==> (Reaches(s + b, root, r) <==> Reaches(b, root, r))
  {
    forall m | Reaches(s, root, m) && Reaches(b, m, r)
      ensures Reaches(s + b, root, r)
    {
      ReachesMono(s, s + b, root, m);
      ReachesMono(b, s + b, m, r);
      ReachesTrans(s + b, root, m, r);
    }
    if Reaches(s + b, root, r) {
      var inside := iset x: RoleId | Via(s, b, root, x);
      ReachesSelf(s, root);
      ReachesSelf(b, root);
      forall e | e in s + b && e.0 in inside
        ensures e.1 in inside
      {
        var m :| Reaches(s, root, m) && Reaches(b, m, e.0);
        if e in b {
          ReachesEdge(b, e.0, e.1);
          ReachesTrans(b, m, e.0, e.1);
        } else {
          ReachesInto(b, m, e.0);
          ReachesEdge(s, e.0, e.1);
          ReachesTrans(s, root, e.0, e.1);
          ReachesSelf(b, e.1);
        }
      }
      ReachesStaysInside(s + b, inside, root, r);
      if IsBuiltIn(root) {
        var m :| Reaches(s, root, m) && Reaches(b, m, r);
        ReachesStaysInside(s, iset{root}, root, m);
      }
    }
    if IsBuiltIn(root) && Reaches(b, root, r) {
      ReachesMono(b, s + b, root, r);
    }
  }

  /** A role that is not built-in is not entered by registry edges. */
  lemma ReachesInto(b: Graph, m: RoleId, r: RoleId)
    requires forall e :: e in b ==> IsBuiltIn(e.1)
    requires Reaches(b, m, r) && !IsBuiltIn(r)
    ensures m == r
  {
    ReachesStaysInside(b, (iset x | x == m || IsBuiltIn(x)), m, r);
  }

  /** Every root is expanded to what both sets of edges reach. */
  ghost predicate ExpandsFully(w: Service, s: Graph, b: Graph) {
    forall root, r :: Normalised(root) ==> (r in Inherited(w, root) <==> Reaches(s + b, root, r))
  }

  /** Exactly when the store holds no edge out of a built-in role. Such an edge
      is accepted (its child need only be a custom role), and then a built-in
      root misses the child. */
  lemma ExpandsFullyExactly(w: Service, custom: Index, builtIn: Index, s: Graph, b: Graph)
    requires ExpandsBy(w, custom, builtIn) && Tracks(custom, s) && Tracks(builtIn, b) && Routed(s, b)
    ensures ExpandsFully(w, s, b) <==> forall e :: e in s ==> !IsBuiltIn(e.0)
  {
    if forall e :: e in s ==> !IsBuiltIn(e.0) {
      forall root, r | Normalised(root)
        ensures r in Inherited(w, root) <==> Reaches(s + b, root, r)
      {
        InheritedIsTwoStage(w, custom, builtIn, s, b, root, r);
        UnionSplits(s, b, root, r);
      }
    } else {
      var e :| e in s && IsBuiltIn(e.0);
      InheritedIsTwoStage(w, custom, builtIn, s, b, e.0, e.1);
      if Reaches(b, e.0, e.1) {
        ReachesBuiltIn(b, e.0, e.1);
      }
      ReachesEdge(s + b, e.0, e.1);
    }
  }

  /** With disabled roles taken out: those roles only, not what they inherit. */
  lemma ExpandedIsReachableMinusDisabled(w: Service, custom: Index, builtIn: Index, s: Graph, b: Graph,
                                         root: RoleId, r: RoleId)
    requires ExpandsBy(w, custom, builtIn) && Tracks(custom, s) && Tracks(builtIn, b) && Routed(s, b)
    requires Normalised(root) && forall e :: e in s ==> !IsBuiltIn(e.0)
    ensures r in Expanded(w, root) <==> Reaches(s + b, root, r) && !Disabled(w, r)
  {
    ExpandsFullyExactly(w, custom, builtIn, s, b);
  }

  // --- Service.ExpandRoles ----------------------------------------------------------

  /** Custom roots through the store, then everything through the registry. */
  function InheritedByAll(w: Service, ids: seq<RoleId>): seq<RoleId> {
    var custom := Filter(ids, id => !IsBuiltIn(id));
    w.builtIns.expandRoles((if custom == [] then [] else w.store.expandRoles(custom))
                           + Filter(ids, id => IsBuiltIn(id)))
  }

  method SplitByPrefix(ids: seq<RoleId>) returns (custom: seq<RoleId>, builtIn: seq<RoleId>)
    ensures custom == Filter(ids, id => !IsBuiltIn(id)) && builtIn == Filter(ids, id => IsBuiltIn(id))
  {
    builtIn, custom := [], [];
    ghost var yes, no := (id: RoleId) => IsBuiltIn(id), (id: RoleId) => !IsBuiltIn(id);
    for i := 0 to |ids|
      invariant custom == Filter(ids[..i], no) && builtIn == Filter(ids[..i], yes)
    {
      FilterGrows(ids, i, yes);
      FilterGrows(ids, i, no);
      if IsBuiltIn(ids[i]) {
        builtIn := builtIn + [ids[i]];
      } else {
        custom := custom + [ids[i]];
      }
    }
    WholePrefix(ids);
  }

  method ExpandRoles(e: Engine, ids: seq<RoleId>) returns (r: Result<seq<RoleId>>)
    ensures var custom := Filter(ids, id => !IsBuiltIn(id));
      r.Ok? <==> custom == [] || e.backend.expandRoles(custom).Ok?
    ensures r.Ok? ==> NoDuplicates(r.value)
    ensures r.Ok? ==>
              forall x :: x in r.value <==> x in InheritedByAll(Answers(e), ids) && !Disabled(Answers(e), x)
  {
    var custom, builtIn := SplitByPrefix(ids);
    var expanded: seq<RoleId> := [];
    if |custom| > 0 {
      var fromStore := e.backend.expandRoles(custom);
      if fromStore.Err? {
        return Err;
      }
      expanded := fromStore.value;
    }
    if |builtIn| > 0 {
      expanded := expanded + builtIn;
    }
    assert expanded == (if custom == [] then [] else Answers(e).store.expandRoles(custom)) + builtIn;
    expanded := e.builtIns.expandRoles(expanded);
    var result := EachEnabled(Answers(e), expanded);
    r := Ok(result);
  }

  method EachEnabled(w: Service, expanded: seq<RoleId>) returns (result: seq<RoleId>)
    ensures NoDuplicates(result)
    ensures forall r :: r in result <==> r in expanded && !Disabled(w, r)
  {
    var seen: set<RoleId> := {};
    result := [];
    for i := 0 to |expanded|
      invariant NoDuplicates(result) && seen == Elements(expanded[..i])
      invariant forall r :: r in result <==> r in expanded[..i] && !Disabled(w, r)
    {
      PrefixGrows(expanded, i);
      if expanded[i] in seen {
        continue;
      }
      seen := seen + {expanded[i]};
      if Disabled(w, expanded[i]) {
        continue;
      }
      AppendNew(result, expanded[i]);
      result := result + [expanded[i]];
    }
    WholePrefix(expanded);
  }

  /** r is in the expansion of one of the roots. */
  ghost predicate FromOne(f: seq<RoleId> -> seq<RoleId>, roots: seq<RoleId>, r: RoleId) {
    exists id :: id in roots && r in f([id])
  }

  /** A closure index expands a list root by root. */
  lemma ExpandsRootByRoot(f: seq<RoleId> -> seq<RoleId>, rows: map<RoleId, set<RoleId>>, roots: seq<RoleId>, r: RoleId)
    requires forall ids :: Elements(f(ids)) == Expansion(rows, Roots(ids))
    ensures r in f(roots) <==> FromOne(f, roots, r)
  {
    forall ids: seq<RoleId>
      ensures r in f(ids) <==> r in Expansion(rows, Roots(ids))
    {
      assert r in f(ids) <==> r in Elements(f(ids));
    }
    forall id | id in roots
      ensures Roots([id]) <= Roots(roots)
    {
      OneRoot(id);
    }
    if r in Expansion(rows, Roots(roots)) {
      var a :| a in Roots(roots) && (r == a || (a in rows && r in rows[a]));
      var id :| id in roots && TrimSpace(id) == a;
      OneRoot(id);
    }
  }

  /** Expanding a list at once gives the union of expanding its members. */
  lemma ListExpansionIsUnion(w: Service, x: Index, y: Index, ids: seq<RoleId>, r: RoleId)
    requires ExpandsBy(w, x, y)
    ensures (r in InheritedByAll(w, ids) && !Disabled(w, r)) <==> exists id :: id in ids && r in Expanded(w, id)
  {
    var custom, builtIn := Filter(ids, id => !IsBuiltIn(id)), Filter(ids, id => IsBuiltIn(id));
    var first := if custom == [] then [] else w.store.expandRoles(custom);
    var f := w.builtIns.expandRoles;
    ExpandsRootByRoot(f, y.rows, first + builtIn, r);
    forall id | id in ids && r in Inherited(w, id)
      ensures FromOne(f, first + builtIn, r)
    {
      if !IsBuiltIn(id) {
        ExpandsRootByRoot(f, y.rows, w.store.expandRoles([id]), r);
        var c :| c in w.store.expandRoles([id]) && r in f([c]);
        ExpandsRootByRoot(w.store.expandRoles, x.rows, custom, c);
        assert c in first + builtIn;
      }
    }
    if FromOne(f, first + builtIn, r) {
      var c :| c in first + builtIn && r in f([c]);
      if c in builtIn {
        assert r in Inherited(w, c);
      } else {
        ExpandsRootByRoot(w.store.expandRoles, x.rows, custom, c);
        var id :| id in custom && c in w.store.expandRoles([id]);
        ExpandsRootByRoot(f, y.rows, w.store.expandRoles([id]), r);
        assert r in Inherited(w, id);
      }
    }
  }
}
