/**
 * When the critical path is the longest of all dependency paths although some tasks may have negative
 * durations: exactly when every task can be reached from a root past tasks that cannot.
 */
module NegativeDurations {
  import opened Ids
  import opened CriticalPath

  predicate SameShape(g: Graph, h: Graph)
  {
    g.edges == h.edges && g.durations.Keys == h.durations.Keys
  }

  predicate NegativeOnlyIn(g: Graph, negative: set<Id>)
  {
    forall v :: v in g.durations && v !in negative ==> g.durations[v] >= 0.0
  }

  /** A path from a root whose tasks before the last cannot be negative. */
  ghost predicate LeadsIn(g: Graph, negative: set<Id>, p: seq<Id>, v: Id)
  {
    && IsRootedPath(g, p) && p[|p| - 1] == v
    && forall i :: 0 <= i < |p| - 1 ==> p[i] !in negative
  }

  ghost predicate HasLeadIn(g: Graph, negative: set<Id>, v: Id)
  {
    exists p :: LeadsIn(g, negative, p, v)
  }

  ghost predicate AllHaveLeadIns(g: Graph, negative: set<Id>)
  {
    forall v :: v in Nodes(g) ==> HasLeadIn(g, negative, v)
  }

  /** No dependency path is longer than what is reported. */
  ghost predicate ReportIsLongest(g: Graph)
  {
    forall path, duration, p :: IsReport(g, path, duration) && IsPath(g, p) ==> Sum(g, p) <= duration
  }

  // ----- sums

  lemma {:induction false} SumConcat(g: Graph, p: seq<Id>, q: seq<Id>)
    ensures Sum(g, p + q) == Sum(g, p) + Sum(g, q)
  {
    if q == [] {
      assert p + q == p;
    } else {
      var n := |q| - 1;
      assert (p + q)[..|p| + n] == p + q[..n];
      SumConcat(g, p, q[..n]);
    }
  }

  lemma {:induction false} NonnegativeSum(g: Graph, p: seq<Id>)
    requires forall i :: 0 <= i < |p| ==> Weight(g, p[i]) >= 0.0
    ensures Sum(g, p) >= 0.0
  {
    if p != [] {
      NonnegativeSum(g, p[..|p| - 1]);
    }
  }

  lemma {:induction false} NonpositiveSum(g: Graph, p: seq<Id>)
    requires forall i :: 0 <= i < |p| ==> Weight(g, p[i]) <= 0.0
    ensures Sum(g, p) <= 0.0
    ensures forall i :: 0 <= i < |p| ==> Sum(g, p) <= Weight(g, p[i])
  {
    if p != [] {
      NonpositiveSum(g, p[..|p| - 1]);
    }
  }

  // ----- a report bounds and attains the rooted paths

  lemma ReportBoundsRootedPaths(g: Graph, path: seq<Id>, duration: real, p: seq<Id>)
    requires IsReport(g, path, duration) && IsRootedPath(g, p)
    ensures Sum(g, p) <= duration
  {
    var best, predecessor, c :| Reports(g, best, predecessor, c, path, duration);
    RootedBound(g, best, predecessor, p);
    BestBounds(g, best, c[0], p);
  }

  lemma ReportIsRooted(g: Graph, path: seq<Id>, duration: real)
    requires IsReport(g, path, duration)
    ensures IsRootedPath(g, path) && Sum(g, path) == duration
  {
    var best, predecessor, c :| Reports(g, best, predecessor, c, path, duration);
    ChainIsPath(g, best, predecessor, c);
  }

  // ----- with lead-ins

  lemma LeadInExtends(g: Graph, negative: set<Id>, lead: seq<Id>, p: seq<Id>)
    requires IsPath(g, p) && LeadsIn(g, negative, lead, p[0]) && NegativeOnlyIn(g, negative)
    ensures IsRootedPath(g, lead[..|lead| - 1] + p) && Sum(g, lead[..|lead| - 1] + p) >= Sum(g, p)
  {
    var before := lead[..|lead| - 1];
    var all := before + p;
    forall i | 0 <= i < |all| - 1 ensures (all[i], all[i + 1]) in g.edges {
      if i < |before| {
        assert all[i] == lead[i] && all[i + 1] == lead[i + 1];
      } else {
        assert all[i] == p[i - |before|] && all[i + 1] == p[i + 1 - |before|];
      }
    }
    assert all[0] == lead[0];
    NonnegativeSum(g, before);
    SumConcat(g, before, p);
  }

  /** The caller's check: with a lead-in to every task the report is the longest path. */
  lemma LeadInsSuffice(g: Graph, negative: set<Id>)
    requires NegativeOnlyIn(g, negative) && AllHaveLeadIns(g, negative)
    ensures ReportIsLongest(g)
  {
    forall path, duration, p | IsReport(g, path, duration) && IsPath(g, p) ensures Sum(g, p) <= duration {
      assert HasLeadIn(g, negative, p[0]);
      var lead :| LeadsIn(g, negative, lead, p[0]);
      LeadInExtends(g, negative, lead, p);
      ReportBoundsRootedPaths(g, path, duration, lead[..|lead| - 1] + p);
    }
  }

  // ----- without one

  /** One at the task, minus one at the others that may be negative, nothing elsewhere. */
  function Weighted(g: Graph, negative: set<Id>, v: Id): Graph
  {
    Graph(map t | t in g.durations :: if t == v then 1.0 else if t in negative then -1.0 else 0.0, g.edges)
  }

  lemma SameNodes(g: Graph, h: Graph)
    requires SameShape(g, h)
    ensures Nodes(g) == Nodes(h)
  {
  }

  lemma SamePaths(g: Graph, h: Graph, p: seq<Id>)
    requires SameShape(g, h)
    ensures IsPath(g, p) <==> IsPath(h, p)
    ensures IsRootedPath(g, p) <==> IsRootedPath(h, p)
  {
    SameNodes(g, h);
    assert p != [] ==> Predecessors(g, p[0]) == Predecessors(h, p[0]);
  }

  lemma {:induction false} PathGoesForward(g: Graph, order: seq<Id>, p: seq<Id>, i: nat, j: nat, a: nat, b: nat)
    requires IsTopological(g, order) && IsPath(g, p) && i < j < |p| && a < |order| && b < |order|
    requires order[a] == p[i] && order[b] == p[j]
    ensures a < b
    decreases j
  {
    assert (p[j - 1], p[j - 1 + 1]) in g.edges;
    if i < j - 1 {
      var c: nat := PositionOf(g, order, p[j - 1]);
      PathGoesForward(g, order, p, i, j - 1, a, c);
    }
  }

  /** A dependency path never comes back to a task. */
  lemma PathDoesNotRepeat(g: Graph, order: seq<Id>, p: seq<Id>, i: nat, j: nat)
    requires IsTopological(g, order) && IsPath(g, p) && i < j < |p|
    ensures p[i] != p[j]
  {
    var a: nat := PositionOf(g, order, p[i]);
    if p[i] == p[j] {
      PathGoesForward(g, order, p, i, j, a, a);
    }
  }

  lemma PrefixIsRooted(g: Graph, p: seq<Id>, k: nat)
    requires IsRootedPath(g, p) && k < |p|
    ensures IsRootedPath(g, p[..k + 1])
  {
  }

  /** One step of one unit, outweighed by an earlier step of minus one. */
  lemma OutweighedSum(h: Graph, p: seq<Id>, k: nat, i: nat)
    requires i < k < |p| && Weight(h, p[k]) == 1.0 && Weight(h, p[i]) == -1.0
    requires forall j :: 0 <= j < |p| && j != k ==> Weight(h, p[j]) <= 0.0
    ensures Sum(h, p) <= 0.0
  {
    var before, after := p[..k], p[k + 1..];
    assert before[i] == p[i];
    NonpositiveSum(h, before);
    NonpositiveSum(h, after);
    assert p == before + ([p[k]] + after);
    SumConcat(h, before, [p[k]] + after);
    SumConcat(h, [p[k]], after);
    SumOfOne(h, p[k]);
  }

  /** Without a lead-in a rooted path to the task has met one that may be negative. */
  lemma MeetsNegative(g: Graph, negative: set<Id>, p: seq<Id>, k: nat) returns (i: nat)
    requires IsRootedPath(g, p) && k < |p| && !HasLeadIn(g, negative, p[k])
    ensures i < k && p[i] in negative
  {
    PrefixIsRooted(g, p, k);
    assert !LeadsIn(g, negative, p[..k + 1], p[k]);
    i :| i < k && p[..k + 1][i] in negative;
  }

  lemma RootedSumsAreNonpositive(g: Graph, order: seq<Id>, negative: set<Id>, v: Id, p: seq<Id>)
    requires IsTopological(g, order) && Nodes(g) <= g.durations.Keys && !HasLeadIn(g, negative, v) && IsRootedPath(g, p)
    ensures Sum(Weighted(g, negative, v), p) <= 0.0
  {
    var h := Weighted(g, negative, v);
    assert forall j :: 0 <= j < |p| ==> p[j] in g.durations;
    if v in p {
      var k: nat :| k < |p| && p[k] == v;
      forall j | 0 <= j < |p| && j != k ensures p[j] != v {
        PathDoesNotRepeat(g, order, p, if j < k then j else k, if j < k then k else j);
      }
      var i := MeetsNegative(g, negative, p, k);
      OutweighedSum(h, p, k, i);
    } else {
      NonpositiveSum(h, p);
    }
  }

  // ----- every acyclic graph of declared tasks has a report

  lemma {:induction false} BestExists(candidates: set<Id>, best: map<Id, real>) returns (u: Id)
    requires candidates != {} && candidates <= best.Keys
    ensures IsBest(candidates, best, u)
    decreases |candidates|
  {
    var x :| x in candidates;
    var rest := candidates - {x};
    if rest == {} {
      assert candidates == {x};
      u := x;
    } else {
      var y := BestExists(rest, best);
      BelowIsTotal(x, y);
      if Worse(best, x, y) {
        u := y;
      } else {
        u := x;
        forall q | q in candidates && q != x ensures Worse(best, q, x) {
          if q != y {
            WorseIsTransitive(best, q, y, x);
          }
        }
      }
    }
  }

  lemma RelaxFurther(g: Graph, best: map<Id, real>, predecessor: map<Id, Option<Id>>, v: Id)
    returns (value: real, parent: Option<Id>)
    requires Relaxed(g, best, predecessor) && v !in best && v in g.durations && Predecessors(g, v) <= best.Keys
    ensures Relaxed(g, best[v := value], predecessor[v := parent])
  {
    parent := None;
    if Predecessors(g, v) != {} {
      var u := BestExists(Predecessors(g, v), best);
      parent := Some(u);
    }
    value := (if parent.Some? then best[parent.value] else 0.0) + g.durations[v];
    RelaxOneMore(g, best, predecessor, v, value, parent);
  }

  lemma {:induction false} RelaxedExists(g: Graph, order: seq<Id>, i: nat)
    returns (best: map<Id, real>, predecessor: map<Id, Option<Id>>)
    requires ComesInOrder(g, order) && Nodes(g) <= g.durations.Keys && i <= |order|
    ensures best.Keys == Firsts(order, i) && Relaxed(g, best, predecessor)
    decreases i
  {
    best, predecessor := map[], map[];
    if i > 0 {
      best, predecessor := RelaxedExists(g, order, i - 1);
      assert ReadyAt(g, order, i - 1);
      var value, parent := RelaxFurther(g, best, predecessor, order[i - 1]);
      best, predecessor := best[order[i - 1] := value], predecessor[order[i - 1] := parent];
    }
  }

  lemma {:induction false} ChainExists(g: Graph, order: seq<Id>, best: map<Id, real>, predecessor: map<Id, Option<Id>>, i: nat)
    returns (c: seq<Id>)
    requires IsTopological(g, order) && Recurrence(g, best, predecessor) && i < |order|
    ensures IsChain(predecessor, c) && c[0] == order[i]
    decreases i
  {
    var v := order[i];
    assert v in order;
    if predecessor[v].Some? {
      PredecessorIsEarlier(g, order, best, predecessor, i);
      var j: nat := PositionOf(g, order, predecessor[v].value);
      var rest := ChainExists(g, order, best, predecessor, j);
      c := [v] + rest;
    } else {
      c := [v];
    }
  }

  lemma ReportExists(g: Graph, order: seq<Id>) returns (path: seq<Id>, duration: real)
    requires IsTopological(g, order) && Nodes(g) <= g.durations.Keys && Nodes(g) != {}
    ensures IsReport(g, path, duration)
  {
    TopologicalComesInOrder(g, order);
    var best, predecessor := RelaxedExists(g, order, |order|);
    AllRelaxed(g, order, best, predecessor);
    var end := BestExists(Nodes(g), best);
    var i: nat := PositionOf(g, order, end);
    var c := ChainExists(g, order, best, predecessor, i);
    path, duration := Reverse(c), best[end];
    assert Reports(g, best, predecessor, c, path, duration);
  }

  lemma OrderTransfers(g: Graph, h: Graph, order: seq<Id>)
    requires SameShape(g, h) && IsTopological(g, order)
    ensures IsTopological(h, order)
  {
    SameNodes(g, h);
  }

  lemma NoReportReaches(g: Graph, order: seq<Id>, negative: set<Id>, v: Id, path: seq<Id>, duration: real)
    requires IsTopological(g, order) && Nodes(g) <= g.durations.Keys && !HasLeadIn(g, negative, v)
    requires IsReport(Weighted(g, negative, v), path, duration)
    ensures duration <= 0.0
  {
    ReportIsRooted(Weighted(g, negative, v), path, duration);
    SamePaths(g, Weighted(g, negative, v), path);
    RootedSumsAreNonpositive(g, order, negative, v, path);
  }

  lemma NotLongest(h: Graph, path: seq<Id>, duration: real, v: Id)
    requires IsReport(h, path, duration) && v in Nodes(h) && Weight(h, v) > duration
    ensures !ReportIsLongest(h)
  {
    SumOfOne(h, v);
    assert IsPath(h, [v]);
  }

  lemma WeightedReport(g: Graph, order: seq<Id>, negative: set<Id>, v: Id) returns (path: seq<Id>, duration: real)
    requires IsTopological(g, order) && Nodes(g) <= g.durations.Keys && v in Nodes(g) && !HasLeadIn(g, negative, v)
    ensures IsReport(Weighted(g, negative, v), path, duration) && duration <= 0.0
  {
    var h := Weighted(g, negative, v);
    SameNodes(g, h);
    OrderTransfers(g, h, order);
    path, duration := ReportExists(h, order);
    NoReportReaches(g, order, negative, v, path, duration);
  }

  lemma WeightedShape(g: Graph, negative: set<Id>, v: Id)
    ensures SameShape(g, Weighted(g, negative, v)) && NegativeOnlyIn(Weighted(g, negative, v), negative)
  {
  }

  lemma WeightedMisleads(g: Graph, order: seq<Id>, negative: set<Id>, v: Id)
    requires IsTopological(g, order) && Nodes(g) <= g.durations.Keys && v in Nodes(g) && !HasLeadIn(g, negative, v)
    ensures !ReportIsLongest(Weighted(g, negative, v))
  {
    var path, duration := WeightedReport(g, order, negative, v);
    SameNodes(g, Weighted(g, negative, v));
    NotLongest(Weighted(g, negative, v), path, duration, v);
  }

  /** A task without lead-in: these durations make the report miss a longer path. */
  lemma MissingLeadInMisleads(g: Graph, order: seq<Id>, negative: set<Id>, v: Id)
    requires IsTopological(g, order) && Nodes(g) <= g.durations.Keys && v in Nodes(g) && !HasLeadIn(g, negative, v)
    ensures SameShape(g, Weighted(g, negative, v)) && !ReportIsLongest(Weighted(g, negative, v))
    ensures NegativeOnlyIn(Weighted(g, negative, v), negative)
  {
    WeightedShape(g, negative, v);
    WeightedMisleads(g, order, negative, v);
  }

  /**
   * Given the dependencies and which tasks may be negative: the report is the longest of all paths for all such
   * durations exactly when every task has a lead-in from a root, something a search of the graph decides.
   */
  lemma LongestIffLeadIns(g: Graph, order: seq<Id>, negative: set<Id>)
    requires IsTopological(g, order) && Nodes(g) <= g.durations.Keys
    ensures (forall h :: SameShape(g, h) && NegativeOnlyIn(h, negative) ==> ReportIsLongest(h)) <==> AllHaveLeadIns(g, negative)
  {
    if AllHaveLeadIns(g, negative) {
      forall h | SameShape(g, h) && NegativeOnlyIn(h, negative) ensures ReportIsLongest(h) {
        LeadInsTransfer(g, h, negative);
        LeadInsSuffice(h, negative);
      }
    } else {
      var v :| v in Nodes(g) && !HasLeadIn(g, negative, v);
      MissingLeadInMisleads(g, order, negative, v);
    }
  }

  lemma LeadInsTransfer(g: Graph, h: Graph, negative: set<Id>)
    requires SameShape(g, h) && AllHaveLeadIns(g, negative)
    ensures AllHaveLeadIns(h, negative)
  {
    SameNodes(g, h);
    forall v | v in Nodes(h) ensures HasLeadIn(h, negative, v) {
      assert HasLeadIn(g, negative, v);
      var p :| LeadsIn(g, negative, p, v);
      SamePaths(g, h, p);
      assert LeadsIn(h, negative, p, v);
    }
  }
}
