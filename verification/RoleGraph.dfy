// Reachability over role-inheritance edges: the simple notion that every
// incrementally maintained closure has to match.
module RoleGraph {
  import opened Types

  type Graph = set<(RoleId, RoleId)>

  ghost predicate IsPath(g: Graph, p: seq<RoleId>) {
    && p != []
    && forall i :: 0 <= i < |p| - 1 ==> (p[i], p[i + 1]) in g
  }

  /** b can be reached from a by zero or more edges of g. */
  ghost predicate Reaches(g: Graph, a: RoleId, b: RoleId) {
    exists p :: IsPath(g, p) && p[0] == a && p[|p| - 1] == b
  }

  ghost predicate ClosedUnder(g: Graph, s: iset<RoleId>) {
    forall e :: e in g && e.0 in s ==> e.1 in s
  }

  lemma ReachesSelf(g: Graph, a: RoleId)
    ensures Reaches(g, a, a)
  {
    assert IsPath(g, [a]);
  }

  lemma ReachesEdge(g: Graph, a: RoleId, b: RoleId)
    requires (a, b) in g
    ensures Reaches(g, a, b)
  {
    var p := [a, b];
    assert IsPath(g, p);
  }

  lemma ReachesTrans(g: Graph, a: RoleId, b: RoleId, c: RoleId)
    requires Reaches(g, a, b) && Reaches(g, b, c)
    ensures Reaches(g, a, c)
  {
    var p :| IsPath(g, p) && p[0] == a && p[|p| - 1] == b;
    var q :| IsPath(g, q) && q[0] == b && q[|q| - 1] == c;
    var r := p + q[1..];
    forall i | 0 <= i < |r| - 1
      ensures (r[i], r[i + 1]) in g
    {
      if i < |p| - 1 {
        assert r[i] == p[i] && r[i + 1] == p[i + 1];
      } else {
        var j := i - (|p| - 1);
        assert r[i] == q[j] && r[i + 1] == q[j + 1];
      }
    }
    assert IsPath(g, r) && r[0] == a && r[|r| - 1] == c;
  }

  lemma ReachesMono(g: Graph, h: Graph, a: RoleId, b: RoleId)
    requires g <= h && Reaches(g, a, b)
    ensures Reaches(h, a, b)
  {
    var p :| IsPath(g, p) && p[0] == a && p[|p| - 1] == b;
    assert IsPath(h, p);
  }

  /** Reachability is the least set holding the start and closed under the edges. */
  lemma {:induction false} ReachesStaysInside(g: Graph, s: iset<RoleId>, a: RoleId, b: RoleId)
    requires a in s && ClosedUnder(g, s) && Reaches(g, a, b)
    ensures b in s
  {
    var p :| IsPath(g, p) && p[0] == a && p[|p| - 1] == b;
    var i := 0;
    while i < |p| - 1
      invariant 0 <= i <= |p| - 1 && p[i] in s
    {
      assert (p[i], p[i + 1]) in g;
      i := i + 1;
    }
  }

  /** An edge simulated by a path of another graph adds nothing to it. */
  lemma ReachesSimulated(g: Graph, h: Graph, a: RoleId, b: RoleId)
    requires Reaches(g, a, b)
    requires forall e :: e in g ==> Reaches(h, e.0, e.1)
    ensures Reaches(h, a, b)
  {
    var s := iset x | Reaches(h, a, x);
    ReachesSelf(h, a);
    forall e | e in g && e.0 in s
      ensures e.1 in s
    {
      ReachesTrans(h, a, e.0, e.1);
    }
    ReachesStaysInside(g, s, a, b);
  }

  /** What one more edge makes reachable, exactly. */
  lemma AddedEdgeReach(g: Graph, p: RoleId, c: RoleId, a: RoleId, b: RoleId)
    ensures Reaches(g + {(p, c)}, a, b)
       <==> Reaches(g, a, b) || (Reaches(g, a, p) && Reaches(g, c, b))
  {
    var h := g + {(p, c)};
    if Reaches(g, a, b) {
      ReachesMono(g, h, a, b);
    }
    if Reaches(g, a, p) && Reaches(g, c, b) {
      ReachesMono(g, h, a, p);
      ReachesEdge(h, p, c);
      ReachesMono(g, h, c, b);
      ReachesTrans(h, a, p, c);
      ReachesTrans(h, a, c, b);
    }
    if Reaches(h, a, b) {
      var s := iset x | Reaches(g, a, x) || (Reaches(g, a, p) && Reaches(g, c, x));
      ReachesSelf(g, a);
      ReachesSelf(g, c);
      forall e | e in h && e.0 in s
        ensures e.1 in s
      {
        if e in g {
          ReachesEdge(g, e.0, e.1);
          if Reaches(g, a, e.0) {
            ReachesTrans(g, a, e.0, e.1);
          } else {
            ReachesTrans(g, c, e.0, e.1);
          }
        }
      }
      ReachesStaysInside(h, s, a, b);
    }
  }

  /** The graph without r, every parent of r joined to every child of r. */
  ghost function Bypass(g: Graph, r: RoleId): Graph {
    (set e | e in g && e.0 != r && e.1 != r)
    + (set e, f | e in g && f in g && e.1 == r && f.0 == r && e.0 != r && f.1 != r :: (e.0, f.1))
  }

  /** Taking a role out this way changes nothing between the other roles. */
  lemma BypassReach(g: Graph, r: RoleId, a: RoleId, b: RoleId)
    requires a != r && b != r
    ensures Reaches(Bypass(g, r), a, b) <==> Reaches(g, a, b)
  {
    var h := Bypass(g, r);
    if Reaches(h, a, b) {
      forall e | e in h
        ensures Reaches(g, e.0, e.1)
      {
        if e in g {
          ReachesEdge(g, e.0, e.1);
        } else {
          ReachesEdge(g, e.0, r);
          ReachesEdge(g, r, e.1);
          ReachesTrans(g, e.0, r, e.1);
        }
      }
      ReachesSimulated(h, g, a, b);
    }
    if Reaches(g, a, b) {
      var s := iset x | (x != r && Reaches(h, a, x))
                     || (x == r && exists y :: y != r && Reaches(h, a, y) && (y, r) in g);
      ReachesSelf(h, a);
      forall e | e in g && e.0 in s
        ensures e.1 in s
      {
        if e.1 != r {
          var from := e.0;
          if e.0 == r {
            var y :| y != r && Reaches(h, a, y) && (y, r) in g;
            from := y;
          }
          assert (from, e.1) in h;
          ReachesEdge(h, from, e.1);
          ReachesTrans(h, a, from, e.1);
        }
      }
      ReachesStaysInside(g, s, a, b);
    }
  }
}
