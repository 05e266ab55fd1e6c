// The JSON store keeps only direct edges and expands roles by a worklist: the
// simple form that the closure-based stores have to agree with.
module Worklist {
  import opened Types
  import opened Text
  import opened Collections
  import opened RoleGraph
  import opened RoleIndex

  type Children = map<RoleId, seq<RoleId>>

  ghost function EdgesOf(m: Children): Graph {
    set p, c | p in m && c in m[p] :: (p, c)
  }

  function ChildrenOf(m: Children, r: RoleId): seq<RoleId> {
    if r in m then m[r] else []
  }

  ghost predicate ReachedFrom(g: Graph, seeds: seq<RoleId>, b: RoleId) {
    exists a :: a in seeds && Reaches(g, a, b)
  }

  /** Every role that can appear at all: the bound that makes the walk finite. */
  ghost function Universe(seeds: seq<RoleId>, inheritance: Children, legacy: Children): set<RoleId> {
    Elements(seeds)
    + (set p, c | p in inheritance && c in inheritance[p] :: c)
    + (set p, c | p in legacy && c in legacy[p] :: c)
  }

  ghost predicate AllIn(queue: seq<RoleId>, all: set<RoleId>) {
    forall x :: x in queue ==> x in all
  }

  lemma QueueInUniverse(seeds: seq<RoleId>, inheritance: Children, legacy: Children,
                        queue: seq<RoleId>, children: seq<RoleId>)
    requires queue != [] && AllIn(queue, Universe(seeds, inheritance, legacy))
    requires forall x :: x in children ==> (queue[0], x) in EdgesOf(inheritance) + EdgesOf(legacy)
    ensures AllIn(queue[1..] + children, Universe(seeds, inheritance, legacy))
  {
    forall x | x in children
      ensures x in Universe(seeds, inheritance, legacy)
    {
      assert (queue[0], x) in EdgesOf(inheritance) + EdgesOf(legacy);
    }
  }

  /** The walk so far: the seen roles are the output, each once; everything seen
      or queued is reachable; every edge out of a seen role is accounted for. */
  ghost predicate Walked(g: Graph, seeds: seq<RoleId>, seen: set<RoleId>, queue: seq<RoleId>, output: seq<RoleId>) {
    && NoDuplicates(output) && seen == Elements(output)
    && (forall x :: x in seen || x in queue ==> ReachedFrom(g, seeds, x))
    && (forall a :: a in seeds ==> a in seen || a in queue)
    && (forall e :: e in g && e.0 in seen ==> e.1 in seen || e.1 in queue)
  }

  lemma WalkStarts(g: Graph, seeds: seq<RoleId>)
    ensures Walked(g, seeds, {}, seeds, [])
  {
    forall a | a in seeds
      ensures ReachedFrom(g, seeds, a)
    {
      ReachesSelf(g, a);
    }
  }

  lemma WalkSkips(g: Graph, seeds: seq<RoleId>, seen: set<RoleId>, queue: seq<RoleId>, output: seq<RoleId>)
    requires Walked(g, seeds, seen, queue, output) && queue != [] && queue[0] in seen
    ensures Walked(g, seeds, seen, queue[1..], output)
  {
    PopFront(queue);
    assert forall x :: x in queue <==> x in Elements(queue);
    assert forall x :: x in queue[1..] <==> x in Elements(queue[1..]);
  }

  lemma WalkVisits(g: Graph, seeds: seq<RoleId>, seen: set<RoleId>, queue: seq<RoleId>, output: seq<RoleId>,
                   children: seq<RoleId>)
    requires Walked(g, seeds, seen, queue, output) && queue != [] && queue[0] !in seen
    requires forall x :: x in children <==> (queue[0], x) in g && x !in seen + {queue[0]}
    ensures Walked(g, seeds, seen + {queue[0]}, queue[1..] + children, output + [queue[0]])
  {
    var current := queue[0];
    AppendNew(output, current);
    forall x | x in children
      ensures ReachedFrom(g, seeds, x)
    {
      var a :| a in seeds && Reaches(g, a, current);
      ReachesEdge(g, current, x);
      ReachesTrans(g, a, current, x);
    }
    PopFront(queue);
    assert forall x :: x in queue <==> x in Elements(queue);
    assert forall x :: x in queue[1..] <==> x in Elements(queue[1..]);
  }

  lemma WalkFinishes(g: Graph, seeds: seq<RoleId>, seen: set<RoleId>, output: seq<RoleId>, b: RoleId)
    requires Walked(g, seeds, seen, [], output)
    ensures b in output <==> ReachedFrom(g, seeds, b)
  {
    if ReachedFrom(g, seeds, b) {
      var a :| a in seeds && Reaches(g, a, b);
      ReachesStaysInside(g, (iset x | x in seen), a, b);
    }
  }

  /** The walk so far, within what can appear at all. */
  ghost predicate Walking(seeds: seq<RoleId>, inheritance: Children, legacy: Children, seen: set<RoleId>,
                          queue: seq<RoleId>, output: seq<RoleId>) {
    && Walked(EdgesOf(inheritance) + EdgesOf(legacy), seeds, seen, queue, output)
    && AllIn(queue, Universe(seeds, inheritance, legacy))
  }

  lemma KeepsWalking(seeds: seq<RoleId>, inheritance: Children, legacy: Children, seen: set<RoleId>,
                     queue: seq<RoleId>, output: seq<RoleId>)
    requires Walking(seeds, inheritance, legacy, seen, queue, output) && queue != [] && queue[0] in seen
    ensures Walking(seeds, inheritance, legacy, seen, queue[1..], output)
  {
    WalkSkips(EdgesOf(inheritance) + EdgesOf(legacy), seeds, seen, queue, output);
    QueueInUniverse(seeds, inheritance, legacy, queue, []);
    assert queue[1..] + [] == queue[1..];
  }

  lemma WalksOn(seeds: seq<RoleId>, inheritance: Children, legacy: Children, seen: set<RoleId>,
                queue: seq<RoleId>, output: seq<RoleId>, children: seq<RoleId>)
    requires Walking(seeds, inheritance, legacy, seen, queue, output) && queue != [] && queue[0] !in seen
    requires forall x :: x in children <==>
               (queue[0], x) in EdgesOf(inheritance) + EdgesOf(legacy) && x !in seen + {queue[0]}
    ensures Walking(seeds, inheritance, legacy, seen + {queue[0]}, queue[1..] + children, output + [queue[0]])
    ensures Universe(seeds, inheritance, legacy) - (seen + {queue[0]}) < Universe(seeds, inheritance, legacy) - seen
  {
    WalkVisits(EdgesOf(inheritance) + EdgesOf(legacy), seeds, seen, queue, output, children);
    QueueInUniverse(seeds, inheritance, legacy, queue, children);
    assert queue[0] in Universe(seeds, inheritance, legacy) - seen;
  }

  /** Breadth-first expansion over the inheritance and legacy edges: terminates
      on cycles, and lists each reachable role once. */
  method TransitiveExpand(seeds: seq<RoleId>, inheritance: Children, legacy: Children)
    returns (expanded: seq<RoleId>)
    ensures NoDuplicates(expanded)
    ensures forall b :: b in expanded <==> ReachedFrom(EdgesOf(inheritance) + EdgesOf(legacy), seeds, b)
  {
    var seen: set<RoleId> := {};
    var queue := seeds;
    expanded := [];
    WalkStarts(EdgesOf(inheritance) + EdgesOf(legacy), seeds);
    while queue != []
      invariant Walking(seeds, inheritance, legacy, seen, queue, expanded)
      decreases Universe(seeds, inheritance, legacy) - seen, |queue|
    {
      var current := queue[0];
      if current in seen {
        KeepsWalking(seeds, inheritance, legacy, seen, queue, expanded);
        queue := queue[1..];
        continue;
      }
      var children := UnseenChildren(inheritance, legacy, current, seen + {current});
      WalksOn(seeds, inheritance, legacy, seen, queue, expanded, children);
      seen := seen + {current};
      expanded := expanded + [current];
      queue := queue[1..] + children;
    }
    forall b {
      WalkFinishes(EdgesOf(inheritance) + EdgesOf(legacy), seeds, seen, expanded, b);
    }
  }

  /** The children not seen yet: those of the inheritance map, then the legacy ones. */
  method UnseenChildren(inheritance: Children, legacy: Children, current: RoleId, seen: set<RoleId>)
    returns (children: seq<RoleId>)
    ensures forall x :: x in children <==> (current, x) in EdgesOf(inheritance) + EdgesOf(legacy) && x !in seen
  {
    var direct := ChildrenOf(inheritance, current);
    var inherited := ChildrenOf(legacy, current);
    children := [];
    for i := 0 to |direct|
      invariant forall x :: x in children <==> x in direct[..i] && x !in seen
    {
      if direct[i] !in seen {
        children := children + [direct[i]];
      }
    }
    ghost var first := children;
    for i := 0 to |inherited|
      invariant forall x :: x in children <==> x in first || (x in inherited[..i] && x !in seen)
    {
      if inherited[i] !in seen {
        children := children + [inherited[i]];
      }
    }
  }

  /** The store's part of AddRoleInheritance, before it saves. */
  function AddChild(m: Children, parent: RoleId, child: RoleId): Children {
    if LinkRefused(parent, child) || child in ChildrenOf(m, parent) then m
    else m[parent := ChildrenOf(m, parent) + [child]]
  }

  class EdgeStore {
    var inheritance: Children

    method AddRoleInheritance(parent: RoleId, child: RoleId) returns (r: Result<()>)
      modifies this
      ensures r.Err? <==> LinkRefused(parent, child)
      ensures inheritance == AddChild(old(inheritance), parent, child)
    {
      if parent == "" {
        return Err;
      }
      if child == "" {
        return Err;
      }
      if parent == child {
        return Err;
      }
      var existing := ChildrenOf(inheritance, parent);
      for i := 0 to |existing|
        invariant child !in existing[..i]
      {
        if existing[i] == child {
          return Ok(());
        }
      }
      inheritance := inheritance[parent := existing + [child]];
      r := Ok(());
    }
  }

  function AddAll(links: seq<(RoleId, RoleId)>): Children {
    if links == [] then map[]
    else AddChild(AddAll(links[..|links| - 1]), links[|links| - 1].0, links[|links| - 1].1)
  }

  function AsOps(links: seq<(RoleId, RoleId)>): (ops: seq<Op>)
    ensures |ops| == |links| && forall i :: 0 <= i < |ops| ==> ops[i] == Link(links[i].0, links[i].1)
  {
    seq(|links|, i requires 0 <= i < |links| => Link(links[i].0, links[i].1))
  }

  lemma AddChildEdges(m: Children, parent: RoleId, child: RoleId)
    ensures EdgesOf(AddChild(m, parent, child))
         == EdgesOf(m) + if LinkRefused(parent, child) then {} else {(parent, child)}
  {
    var after := AddChild(m, parent, child);
    forall e | e in EdgesOf(m)
      ensures e in EdgesOf(after)
    {
      assert e.1 in ChildrenOf(after, e.0);
    }
  }

  lemma {:induction false} SameEdges(links: seq<(RoleId, RoleId)>)
    ensures EdgesOf(AddAll(links)) == Run(AsOps(links)).edges
  {
    if links != [] {
      var before := links[..|links| - 1];
      var last := links[|links| - 1];
      SameEdges(before);
      assert AsOps(links)[..|links| - 1] == AsOps(before);
      AddChildEdges(AddAll(before), last.0, last.1);
    }
  }

  /** The same AddRoleInheritance calls make the worklist and the closure answer
      alike, for trimmed, non-empty role IDs. */
  lemma WorklistAgreesWithClosure(links: seq<(RoleId, RoleId)>, ids: seq<RoleId>, b: RoleId)
    requires forall id :: id in ids ==> id != "" && Trimmed(id)
    ensures ReachedFrom(EdgesOf(AddAll(links)), ids, b)
       <==> b in Expansion(Run(AsOps(links)).rows, Roots(ids))
  {
    var ops := AsOps(links);
    SameEdges(links);
    RunTracks(ops);
    RecordedIsGhost(ops);
    forall id | id in ids
      ensures TrimSpace(id) == id
    {
      TrimmedIsFixed(id);
    }
    assert Roots(ids) == Elements(ids);
    ExpansionIsReachability(Run(ops), GhostRun(ops), Roots(ids), b);
  }
}
