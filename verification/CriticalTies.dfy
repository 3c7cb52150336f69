/** Which of several longest paths is reported: the one with the greater identifiers, read from its end. */
module CriticalTies {
  import opened Ids
  import opened CriticalPath

  /** Read from the end the two are the same, or path has the greater identifier where they first differ. */
  predicate Preferred(path: seq<Id>, p: seq<Id>)
  {
    if path == [] || p == [] then path == p
    else
      var v, w := path[|path| - 1], p[|p| - 1];
      Below(w, v) || (v == w && Preferred(path[..|path| - 1], p[..|p| - 1]))
  }

  lemma PreferredWithEnd(path: seq<Id>, p: seq<Id>, v: Id)
    requires Preferred(path, p)
    ensures Preferred(path + [v], p + [v])
  {
    assert (path + [v])[..|path|] == path && (p + [v])[..|p|] == p;
  }

  lemma {:induction false} PreferredToItself(path: seq<Id>)
    ensures Preferred(path, path)
  {
    if path != [] {
      PreferredToItself(path[..|path| - 1]);
    }
  }

  lemma NotAlone(g: Graph, p: seq<Id>, v: Id, u: Id)
    requires IsRootedPath(g, p) && p[|p| - 1] == v && u in Predecessors(g, v)
    ensures |p| > 1
  {
  }

  lemma AloneAtRoot(g: Graph, p: seq<Id>, v: Id)
    requires IsRootedPath(g, p) && p[|p| - 1] == v && Predecessors(g, v) == {}
    ensures p == [v]
  {
    if |p| > 1 {
      EdgeEnds(g, p[|p| - 2], p[|p| - 2 + 1]);
    }
  }

  /** A longest path to v that is not v alone comes over a predecessor of greatest value. */
  lemma ComesOverBest(g: Graph, best: map<Id, real>, predecessor: map<Id, Option<Id>>, v: Id, u: Id, p: seq<Id>)
    requires Recurrence(g, best, predecessor) && v in predecessor && predecessor[v] == Some(u) && Realizes(g, best, p, v)
    ensures |p| > 1 && Realizes(g, best, p[..|p| - 1], p[|p| - 2])
    ensures p[|p| - 2] == u || Below(p[|p| - 2], u)
  {
    FromPredecessor(g, best, predecessor, v, u);
    EdgeEnds(g, u, v);
    assert Step(g, best, predecessor, v);
    var init := p[..|p| - 1];
    NotAlone(g, p, v, u);
    var w := init[|init| - 1];
    assert (p[|init| - 1], p[|init| - 1 + 1]) in g.edges;
    EdgeEnds(g, w, v);
    RootedBound(g, best, predecessor, init);
  }

  /** Among the longest paths to a task the one traced back is preferred. */
  lemma {:induction false} TracedIsPreferred(g: Graph, best: map<Id, real>, predecessor: map<Id, Option<Id>>, c: seq<Id>, p: seq<Id>)
    requires Recurrence(g, best, predecessor) && IsChain(predecessor, c) && Realizes(g, best, p, c[0])
    ensures Preferred(Reverse(c), p)
  {
    var v, rest := c[0], c[1..];
    if rest == [] {
      assert Step(g, best, predecessor, v);
      AloneAtRoot(g, p, v);
      assert Reverse(c) == [v];
      PreferredToItself(p);
    } else {
      assert predecessor[c[0]] == Some(c[0 + 1]);
      ComesOverBest(g, best, predecessor, v, rest[0], p);
      ChainIsPath(g, best, predecessor, rest);
      if p[|p| - 2] == rest[0] {
        TracedIsPreferred(g, best, predecessor, rest, p[..|p| - 1]);
      }
      PreferredWithEnd(Reverse(rest), p[..|p| - 1], v);
      assert p == p[..|p| - 1] + [v];
    }
  }

  /** Of all rooted paths as long as the reported one, the reported one is preferred. */
  lemma ReportIsPreferred(g: Graph, path: seq<Id>, duration: real, p: seq<Id>)
    requires IsReport(g, path, duration) && IsRootedPath(g, p) && Sum(g, p) == duration
    ensures Preferred(path, p)
  {
    var best, predecessor, c :| Reports(g, best, predecessor, c, path, duration);
    var e := p[|p| - 1];
    RootedBound(g, best, predecessor, p);
    ChainIsPath(g, best, predecessor, c);
    assert e in Nodes(g);
    if e == c[0] {
      TracedIsPreferred(g, best, predecessor, c, p);
    } else {
      assert Worse(best, e, c[0]);
    }
  }
}
