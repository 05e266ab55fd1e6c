// The role-inheritance index that the bootstrap store, the in-memory store and
// the built-in registry keep beside the direct edges: one row per known role
// with all its descendants, updated edge by edge and never recomputed.
module RoleIndex {
  import opened Types
  import opened RoleGraph
  import opened Text
  import opened Collections

  /** The index as a value: the recorded edges and the closure rows. */
  datatype Index = Index(edges: Graph, rows: map<RoleId, set<RoleId>>)

  const EMPTY := Index({}, map[])

  datatype Op =
    | Touch(role: RoleId)                    // CreateRole, RegisterRole
    | Link(parent: RoleId, child: RoleId)    // AddRoleInheritance
    | Drop(role: RoleId)                     // DeleteRole

  predicate LinkRefused(parent: RoleId, child: RoleId) {
    parent == "" || child == "" || parent == child
  }

  function WithSelf(rows: map<RoleId, set<RoleId>>, r: RoleId): map<RoleId, set<RoleId>> {
    if r in rows then rows else rows[r := {r}]
  }

  function LinkedRows(rows: map<RoleId, set<RoleId>>, parent: RoleId, child: RoleId): map<RoleId, set<RoleId>>
    requires child in rows
  {
    map a | a in rows :: if a == parent || parent in rows[a] then rows[a] + rows[child] else rows[a]
  }

  function Step(ix: Index, op: Op): Index {
    match op
    case Touch(r) =>
      ix.(rows := ix.rows[r := (if r in ix.rows then ix.rows[r] else {}) + {r}])
    case Link(p, c) =>
      if LinkRefused(p, c) || (p, c) in ix.edges then ix
      else Index(ix.edges + {(p, c)}, LinkedRows(WithSelf(WithSelf(ix.rows, p), c), p, c))
    case Drop(r) =>
      Index(set e | e in ix.edges && e.0 != r && e.1 != r,
            map a | a in ix.rows && a != r :: ix.rows[a] - {r})
  }

  function Run(ops: seq<Op>): Index {
    if ops == [] then EMPTY else Step(Run(ops[..|ops| - 1]), ops[|ops| - 1])
  }

  /** The edges behind a run: those recorded, with every dropped role bypassed. */
  ghost function GhostStep(g: Graph, op: Op): Graph {
    match op
    case Touch(_) => g
    case Link(p, c) => if LinkRefused(p, c) then g else g + {(p, c)}
    case Drop(r) => Bypass(g, r)
  }

  ghost function GhostRun(ops: seq<Op>): Graph {
    if ops == [] then {} else GhostStep(GhostRun(ops[..|ops| - 1]), ops[|ops| - 1])
  }

  /** Every row is exactly what its role reaches in g, and g's roles have rows. */
  ghost predicate Tracks(ix: Index, g: Graph) {
    && ix.edges <= g
    && (forall e :: e in g ==> e.0 in ix.rows && e.1 in ix.rows)
    && (forall a :: a in ix.rows ==> forall b :: b in ix.rows[a] <==> Reaches(g, a, b))
  }

  lemma LeavesNoRow(ix: Index, g: Graph, r: RoleId, b: RoleId)
    requires Tracks(ix, g) && r !in ix.rows && Reaches(g, r, b)
    ensures b == r
  {
    ReachesStaysInside(g, iset{r}, r, b);
  }

  /** A role without a row reaches only itself, so giving it one tracks nothing new. */
  lemma TouchTracks(ix: Index, g: Graph, r: RoleId)
    requires Tracks(ix, g)
    ensures Tracks(ix.(rows := WithSelf(ix.rows, r)), g)
    ensures Step(ix, Touch(r)) == ix.(rows := WithSelf(ix.rows, r))
  {
    ReachesSelf(g, r);
    if r in ix.rows {
      assert ix.rows[r] + {r} == ix.rows[r];
      assert ix.rows[r := ix.rows[r]] == ix.rows;
    } else {
      assert {} + {r} == {r};
      forall b | Reaches(g, r, b)
        ensures b == r
      {
        LeavesNoRow(ix, g, r, b);
      }
    }
  }

  lemma LinkTracks(ix: Index, g: Graph, p: RoleId, c: RoleId)
    requires Tracks(ix, g) && p in ix.rows && c in ix.rows
    ensures Tracks(Index(ix.edges + {(p, c)}, LinkedRows(ix.rows, p, c)), g + {(p, c)})
  {
    var h := g + {(p, c)};
    var rows := LinkedRows(ix.rows, p, c);
    ReachesSelf(g, p);
    forall a, b | a in rows
      ensures b in rows[a] <==> Reaches(h, a, b)
    {
      AddedEdgeReach(g, p, c, a, b);
    }
  }

  lemma DropTracks(ix: Index, g: Graph, r: RoleId)
    requires Tracks(ix, g)
    ensures Tracks(Step(ix, Drop(r)), Bypass(g, r))
  {
    var after := Step(ix, Drop(r));
    var h := Bypass(g, r);
    forall a, b | a in after.rows
      ensures b in after.rows[a] <==> Reaches(h, a, b)
    {
      if b != r {
        BypassReach(g, r, a, b);
      } else if Reaches(h, a, r) {
        ReachesStaysInside(h, (iset x | x in after.rows), a, r);
      }
    }
  }

  lemma StepTracks(ix: Index, g: Graph, op: Op)
    requires Tracks(ix, g)
    ensures Tracks(Step(ix, op), GhostStep(g, op))
  {
    match op
    case Touch(r) => TouchTracks(ix, g, r);
    case Link(p, c) =>
      if (p, c) in ix.edges {
        assert g + {(p, c)} == g;
      } else if !LinkRefused(p, c) {
        TouchTracks(ix, g, p);
        var ix1 := ix.(rows := WithSelf(ix.rows, p));
        TouchTracks(ix1, g, c);
        LinkTracks(ix1.(rows := WithSelf(ix1.rows, c)), g, p, c);
      }
    case Drop(r) => DropTracks(ix, g, r);
  }

  /** Every run, deletions included: the rows are reachability in the graph
      where each deleted role was bypassed. */
  lemma {:induction false} RunTracks(ops: seq<Op>)
    ensures Tracks(Run(ops), GhostRun(ops))
  {
    if ops != [] {
      RunTracks(ops[..|ops| - 1]);
      StepTracks(Run(ops[..|ops| - 1]), GhostRun(ops[..|ops| - 1]), ops[|ops| - 1]);
    }
  }

  lemma RecordedStep(ix: Index, op: Op)
    requires !op.Drop?
    ensures GhostStep(ix.edges, op) == Step(ix, op).edges
  {
    if op.Link? && (op.parent, op.child) in ix.edges {
      assert ix.edges + {(op.parent, op.child)} == ix.edges;
    }
  }

  /** Without deletions the graph behind the rows is the recorded edges. */
  lemma {:induction false} RecordedIsGhost(ops: seq<Op>)
    requires forall op :: op in ops ==> !op.Drop?
    ensures GhostRun(ops) == Run(ops).edges
  {
    if ops != [] {
      var before, op := ops[..|ops| - 1], ops[|ops| - 1];
      assert op in ops && forall o :: o in before ==> o in ops;
      RecordedIsGhost(before);
      RecordedStep(Run(before), op);
    }
  }

  /** Recorded is exactly what was linked, but for empty IDs and self-loops. */
  lemma {:induction false} RecordedExactly(ops: seq<Op>, p: RoleId, c: RoleId)
    requires forall op :: op in ops ==> !op.Drop?
    ensures (p, c) in Run(ops).edges <==> Link(p, c) in ops && p != "" && c != "" && p != c
  {
    if ops != [] {
      var before, op := ops[..|ops| - 1], ops[|ops| - 1];
      assert ops == before + [op];
      RecordedExactly(before, p, c);
    }
  }

  /** The fast index is plain reachability over the recorded edges, whatever
      the order of the calls and whatever cycles they close. */
  lemma ClosureIsReachability(ops: seq<Op>)
    requires forall op :: op in ops ==> !op.Drop?
    ensures forall a, b :: a in Run(ops).rows ==>
              (b in Run(ops).rows[a] <==> Reaches(Run(ops).edges, a, b))
    ensures forall a, b :: a !in Run(ops).rows && Reaches(Run(ops).edges, a, b) ==> a == b
  {
    RunTracks(ops);
    RecordedIsGhost(ops);
    forall a, b | a !in Run(ops).rows && Reaches(Run(ops).edges, a, b)
      ensures a == b
    {
      LeavesNoRow(Run(ops), GhostRun(ops), a, b);
    }
  }

  /** What deletions leave standing. */
  lemma ClosureStaysConsistent(ops: seq<Op>)
    ensures var ix := Run(ops);
      && (forall a :: a in ix.rows ==> a in ix.rows[a])
      && (forall a, b :: a in ix.rows && b in ix.rows[a] ==> b in ix.rows && ix.rows[b] <= ix.rows[a])
      && (forall e :: e in ix.edges ==> e.0 in ix.rows && e.1 in ix.rows[e.0])
  {
    RunTracks(ops);
    var ix, g := Run(ops), GhostRun(ops);
    forall a | a in ix.rows
      ensures a in ix.rows[a]
    {
      ReachesSelf(g, a);
    }
    forall a, b | a in ix.rows && b in ix.rows[a]
      ensures b in ix.rows && ix.rows[b] <= ix.rows[a]
    {
      ReachesStaysInside(g, (iset x | x in ix.rows), a, b);
      forall x | x in ix.rows[b]
        ensures x in ix.rows[a]
      {
        ReachesTrans(g, a, b, x);
      }
    }
    forall e | e in ix.edges
      ensures e.0 in ix.rows && e.1 in ix.rows[e.0]
    {
      ReachesEdge(g, e.0, e.1);
    }
  }

  /** Where the graph behind the rows is reached by recorded edges alone, and
      only there, the rows are reachability over the recorded edges. */
  lemma RecordedSuffices(ix: Index, g: Graph)
    requires Tracks(ix, g)
    ensures Tracks(ix, ix.edges) <==> forall e :: e in g ==> Reaches(ix.edges, e.0, e.1)
  {
    if Tracks(ix, ix.edges) {
      forall e | e in g
        ensures Reaches(ix.edges, e.0, e.1)
      {
        ReachesEdge(g, e.0, e.1);
        assert e.1 in ix.rows[e.0];
      }
    }
    if forall e :: e in g ==> Reaches(ix.edges, e.0, e.1) {
      forall a, b | a in ix.rows
        ensures b in ix.rows[a] <==> Reaches(ix.edges, a, b)
      {
        if Reaches(g, a, b) {
          ReachesSimulated(g, ix.edges, a, b);
        }
        if Reaches(ix.edges, a, b) {
          ReachesMono(ix.edges, g, a, b);
        }
      }
    }
  }

  /** After every run, deletions included, the rows are reachability over the
      recorded edges if and only if those still lead along every bypass. */
  lemma RunIsRecordedReachability(ops: seq<Op>)
    ensures Tracks(Run(ops), Run(ops).edges) <==>
              forall e :: e in GhostRun(ops) ==> Reaches(Run(ops).edges, e.0, e.1)
  {
    RunTracks(ops);
    RecordedSuffices(Run(ops), GhostRun(ops));
  }

  /** Each parent of r reaches each child of r by edges that do not touch r. */
  ghost predicate ReachesAround(edges: Graph, r: RoleId) {
    forall p, c :: (p, r) in edges && (r, c) in edges && p != r && c != r
      ==> Reaches((set e | e in edges && e.0 != r && e.1 != r), p, c)
  }

  /** A deletion keeps the rows equal to recorded reachability if and only if
      each parent of the role reaches each of its children some other way. */
  lemma DropKeepsReachability(ix: Index, r: RoleId)
    requires Tracks(ix, ix.edges)
    ensures var after := Step(ix, Drop(r));
      Tracks(after, after.edges) <==> ReachesAround(ix.edges, r)
  {
    var after := Step(ix, Drop(r));
    var h := Bypass(ix.edges, r);
    DropTracks(ix, ix.edges, r);
    RecordedSuffices(after, h);
    forall e | e in after.edges
      ensures Reaches(after.edges, e.0, e.1)
    {
      ReachesEdge(after.edges, e.0, e.1);
    }
    if forall e :: e in h ==> Reaches(after.edges, e.0, e.1) {
      forall p, c | (p, r) in ix.edges && (r, c) in ix.edges && p != r && c != r
        ensures Reaches(after.edges, p, c)
      {
        assert (p, c) in h;
      }
    }
  }

  /** Deletion restricts the rows and does not recompute them: after
      a -> r -> b and the deletion of r, a still has b, with no recorded edge. */
  lemma DeletedRoleStaysBypassed(a: RoleId, r: RoleId, b: RoleId)
    requires a != r && r != b && a != b && a != "" && r != "" && b != ""
    ensures var ix := Run([Link(a, r), Link(r, b), Drop(r)]);
      ix.edges == {} && a in ix.rows && b in ix.rows[a]
  {
    var ops := [Link(a, r), Link(r, b), Drop(r)];
    assert ops[..2] == [Link(a, r), Link(r, b)];
    assert ops[..2][..1] == [Link(a, r)];
    assert ops[..2][..1][..0] == [];
    var ix1 := Step(EMPTY, Link(a, r));
    assert Run(ops[..2][..1]) == ix1;
    assert ix1.rows.Keys == {a, r} && ix1.rows[a] == {a, r} && ix1.rows[r] == {r};
    var ix2 := Step(ix1, Link(r, b));
    assert Run(ops[..2]) == ix2;
    assert b in ix2.rows[a];
  }

  // ---------------------------------------------------------------------------

  /** ExpandRoles trims its arguments and passes over blank ones. */
  ghost function Roots(ids: seq<string>): set<RoleId> {
    set id | id in ids && TrimSpace(id) != "" :: TrimSpace(id)
  }

  /** The role IDs that ExpandRoles answers with for the given roots. */
  ghost function Expansion(rows: map<RoleId, set<RoleId>>, roots: set<RoleId>): set<RoleId> {
    roots + set a, b | a in roots && a in rows && b in rows[a] :: b
  }

  lemma ExpansionGrows(rows: map<RoleId, set<RoleId>>, roots: set<RoleId>, r: RoleId)
    ensures Expansion(rows, roots + {r})
         == Expansion(rows, roots) + {r} + (if r in rows then rows[r] else {})
  {
  }


  /** Expansion through the rows is reachability from the roots. */
  lemma ExpansionIsReachability(ix: Index, g: Graph, roots: set<RoleId>, b: RoleId)
    requires Tracks(ix, g)
    ensures b in Expansion(ix.rows, roots) <==> exists a :: a in roots && Reaches(g, a, b)
  {
    if b in roots {
      ReachesSelf(g, b);
    }
    forall a | a in roots && a !in ix.rows && Reaches(g, a, b)
      ensures b == a
    {
      LeavesNoRow(ix, g, a, b);
    }
  }

  // ---------------------------------------------------------------------------

  /** A Go map[string]bool used as a set: shared by reference, changed in place. */
  class RoleSet {
    var elems: set<RoleId>

    constructor (initial: set<RoleId>)
      ensures elems == initial
    {
      elems := initial;
    }
  }

  class ClosureIndex {
    var inheritance: map<RoleId, set<RoleId>>
    var closure: map<RoleId, RoleSet>

    /** No two rows share their set. */
    ghost predicate Valid()
      reads this`closure
    {
      forall a, b :: a in closure && b in closure && a != b ==> closure[a] != closure[b]
    }

    ghost function Repr(): set<object>
      reads this
    {
      {this} + (set a | a in closure :: closure[a])
    }

    ghost function Edges(): Graph
      reads this`inheritance
    {
      set p, c | p in inheritance && c in inheritance[p] :: (p, c)
    }

    ghost function Rows(): map<RoleId, set<RoleId>>
      reads this`closure, set a | a in closure :: closure[a]
    {
      map a | a in closure :: closure[a].elems
    }

    ghost function State(): Index
      reads Repr()
    {
      Index(Edges(), Rows())
    }

    constructor ()
      ensures Valid() && State() == EMPTY && fresh(Repr())
    {
      inheritance := map[];
      closure := map[];
    }

    /** The self entry that CreateRole and RegisterRole make sure of. */
    method TouchRole(r: RoleId)
      requires Valid()
      modifies Repr()
      ensures Valid() && fresh(Repr() - old(Repr()))
      ensures State() == Step(old(State()), Touch(r))
    {
      if r !in closure {
        var row := new RoleSet({});
        closure := closure[r := row];
      }
      closure[r].elems := closure[r].elems + {r};
      assert Rows() == Step(old(State()), Touch(r)).rows;
    }

    /** DeleteRole's part: the row, the outgoing edges, and every mention. */
    method DropRole(r: RoleId)
      requires Valid()
      modifies Repr()
      ensures Valid() && Repr() <= old(Repr())
      ensures State() == Step(old(State()), Drop(r))
    {
      DropFromRows(r);
      DropFromEdges(r);
    }

    method DropFromRows(r: RoleId)
      requires Valid()
      modifies Repr()
      ensures Valid() && Repr() <= old(Repr()) && inheritance == old(inheritance)
      ensures Rows() == Step(old(State()), Drop(r)).rows
    {
      closure := closure - {r};
      var pending := closure.Keys;
      while pending != {}
        invariant pending <= closure.Keys
        invariant closure == old(closure) - {r} && inheritance == old(inheritance)
        invariant forall a :: a in pending ==> closure[a].elems == old(closure[a].elems)
        invariant forall a :: a in closure.Keys - pending ==> closure[a].elems == old(closure[a].elems) - {r}
      {
        var ancestor :| ancestor in pending;
        closure[ancestor].elems := closure[ancestor].elems - {r};
        pending := pending - {ancestor};
      }
    }

    method DropFromEdges(r: RoleId)
      modifies this`inheritance
      ensures Edges() == set e | e in old(Edges()) && e.0 != r && e.1 != r
    {
      inheritance := inheritance - {r};
      var parents := inheritance.Keys;
      while parents != {}
        invariant parents <= inheritance.Keys == old(inheritance).Keys - {r}
        invariant forall p :: p in parents ==> inheritance[p] == old(inheritance)[p]
        invariant forall p :: p in inheritance.Keys - parents ==> inheritance[p] == old(inheritance)[p] - {r}
      {
        var parent :| parent in parents;
        inheritance := inheritance[parent := inheritance[parent] - {r}];
        parents := parents - {parent};
      }
    }

    /** AddRoleInheritance. The descendants are read from the child's live row
        while the ancestors' rows, possibly that same one, are written. */
    method LinkRoles(parent: RoleId, child: RoleId) returns (r: Result<()>)
      requires Valid()
      modifies Repr()
      ensures Valid() && fresh(Repr() - old(Repr()))
      ensures r.Err? <==> LinkRefused(parent, child)
      ensures State() == Step(old(State()), Link(parent, child))
    {
      if LinkRefused(parent, child) {
        return Err;
      }
      var added := RecordEdge(parent, child);
      if !added {
        return Ok(());
      }
      OpenRows(parent, child);
      JoinRows(parent, child);
      r := Ok(());
    }

    method OpenRows(parent: RoleId, child: RoleId)
      requires Valid()
      modifies this`closure
      ensures Valid() && fresh(Repr() - old(Repr()))
      ensures parent in closure && child in closure
      ensures Rows() == WithSelf(WithSelf(old(Rows()), parent), child)
    {
      EnsureRow(parent);
      EnsureRow(child);
    }

    method JoinRows(parent: RoleId, child: RoleId)
      requires Valid() && parent in closure && child in closure
      modifies Repr() - {this}
      ensures closure == old(closure)
      ensures Rows() == LinkedRows(old(Rows()), parent, child)
    {
      var ancestors := AncestorsOf(parent);
      SpreadDescendants(ancestors, child);
    }

    method RecordEdge(parent: RoleId, child: RoleId) returns (added: bool)
      modifies this`inheritance
      ensures added <==> (parent, child) !in old(Edges())
      ensures Edges() == old(Edges()) + {(parent, child)}
    {
      if parent !in inheritance {
        inheritance := inheritance[parent := {}];
      }
      added := child !in inheritance[parent];
      if added {
        inheritance := inheritance[parent := inheritance[parent] + {child}];
      }
    }

    method SpreadDescendants(ancestors: seq<RoleId>, child: RoleId)
      requires Valid() && child in closure && forall a :: a in ancestors ==> a in closure
      modifies Repr() - {this}
      ensures closure == old(closure)
      ensures Rows() == map a | a in old(Rows()) ::
                          if a in ancestors then old(Rows())[a] + old(Rows())[child] else old(Rows())[a]
    {
      var newDescendants := closure[child];
      ghost var start := Rows();
      for i := 0 to |ancestors|
        invariant closure == old(closure)
        invariant newDescendants.elems == start[child]
        invariant forall a :: a in closure ==>
                    closure[a].elems == if a in ancestors[..i] then start[a] + start[child] else start[a]
      {
        assert ancestors[..i + 1] == ancestors[..i] + [ancestors[i]];
        Absorb(closure[ancestors[i]], newDescendants);
      }
      assert ancestors[..|ancestors|] == ancestors;
    }

    /** `if closure[r] == nil { closure[r] = map{r: true} }` */
    method EnsureRow(r: RoleId)
      requires Valid()
      modifies this`closure
      ensures Valid() && fresh(Repr() - old(Repr()))
      ensures closure.Keys == old(closure).Keys + {r}
      ensures Rows() == WithSelf(old(Rows()), r)
    {
      if r !in closure {
        var row := new RoleSet({r});
        closure := closure[r := row];
      }
    }

    method AncestorsOf(parent: RoleId) returns (ancestors: seq<RoleId>)
      requires Valid() && parent in closure
      ensures forall a :: a in ancestors <==> a in closure && (a == parent || parent in closure[a].elems)
    {
      ancestors := [parent];
      var pending := closure.Keys;
      while pending != {}
        invariant pending <= closure.Keys
        invariant forall a :: a in ancestors <==>
                    a == parent || (a in closure.Keys - pending && parent in closure[a].elems)
      {
        var a :| a in pending;
        if parent in closure[a].elems && a != parent {
          ancestors := ancestors + [a];
        }
        pending := pending - {a};
      }
    }

    /** ExpandRoles: in any map order, the roots and their rows, each once. */
    method ExpandRoles(ids: seq<string>) returns (result: seq<RoleId>)
      requires Valid()
      ensures NoDuplicates(result)
      ensures Elements(result) == Expansion(Rows(), Roots(ids))
    {
      result := [];
      var seen: set<RoleId> := {};
      ghost var rows := Rows();
      for i := 0 to |ids|
        invariant NoDuplicates(result) && seen == Elements(result) == Expansion(rows, Roots(ids[..i]))
      {
        var trimmed := TrimSpace(ids[i]);
        RootsGrow(rows, ids, i);
        if trimmed == "" {
          continue;
        }
        result, seen := MentionRow(result, seen, trimmed);
      }
      WholePrefix(ids);
    }

    /** A root and its row, what was not seen yet. */
    method MentionRow(result0: seq<RoleId>, seen0: set<RoleId>, root: RoleId)
      returns (result: seq<RoleId>, seen: set<RoleId>)
      requires Valid() && NoDuplicates(result0) && seen0 == Elements(result0)
      ensures NoDuplicates(result) && seen == Elements(result)
      ensures seen == seen0 + ({root} + if root in Rows() then Rows()[root] else {})
    {
      result, seen := Mention(result0, seen0, {root});
      result, seen := Mention(result, seen, if root in closure then closure[root].elems else {});
    }
  }

  /** Append those of `more`, in any order, that were not seen yet. */
  method Mention(result0: seq<RoleId>, seen0: set<RoleId>, more: set<RoleId>)
    returns (result: seq<RoleId>, seen: set<RoleId>)
    requires NoDuplicates(result0) && seen0 == Elements(result0)
    ensures NoDuplicates(result) && seen == Elements(result) == seen0 + more
  {
    result, seen := result0, seen0;
    var pending := more;
    while pending != {}
      invariant pending <= more && NoDuplicates(result)
      invariant seen == Elements(result) == seen0 + (more - pending)
    {
      var r :| r in pending;
      if r !in seen {
        AppendNew(result, r);
        seen := seen + {r};
        result := result + [r];
      }
      pending := pending - {r};
    }
  }

  lemma RootsGrow(rows: map<RoleId, set<RoleId>>, ids: seq<string>, i: nat)
    requires i < |ids|
    ensures var t := TrimSpace(ids[i]);
      Expansion(rows, Roots(ids[..i + 1]))
      == Expansion(rows, Roots(ids[..i]))
         + (if t == "" then {} else {t} + if t in rows then rows[t] else {})
  {
    PrefixGrows(ids, i);
    var t := TrimSpace(ids[i]);
    if t == "" {
      assert Roots(ids[..i + 1]) == Roots(ids[..i]);
    } else {
      assert Roots(ids[..i + 1]) == Roots(ids[..i]) + {t};
      ExpansionGrows(rows, Roots(ids[..i]), t);
    }
  }

  /** `for desc := range source { target[desc] = true }`. The range is over the
      live set, which the body may itself be writing. */
  method Absorb(target: RoleSet, source: RoleSet)
    modifies target
    ensures target.elems == old(target.elems) + old(source.elems)
    ensures source != target ==> source.elems == old(source.elems)
  {
    var visited: set<RoleId> := {};
    while source.elems - visited != {}
      invariant source.elems == old(source.elems)
      invariant visited <= source.elems
      invariant target.elems == old(target.elems) + visited
      decreases source.elems - visited
    {
      var desc :| desc in source.elems - visited;
      target.elems := target.elems + {desc};
      visited := visited + {desc};
    }
  }
}
