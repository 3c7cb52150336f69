/** The critical path of a work graph: the longest chain of dependent tasks, in exact durations. */
module CriticalPath {
  import opened Ids

  datatype Duration = Absent | NotANumber | Exact(value: real)

  datatype Task = NoTask | Task(id: Option<Id>, duration: Duration)

  datatype Dependency = NoDependency | Dependency(before: Option<Id>, after: Option<Id>)

  /** Dependencies may mention tasks that were never declared; these have no duration. */
  datatype Graph = Graph(durations: map<Id, real>, edges: set<(Id, Id)>)

  datatype Outcome =
    | DurationMissing | ValueInvalid | NotAcyclic | Raised
    | Computed(path: seq<Id>, duration: real)

  // ----- building the graph

  predicate HasDurations(tasks: seq<Task>)
  {
    tasks != [] && forall i :: 0 <= i < |tasks| ==> tasks[i].Task? && tasks[i].duration != Absent
  }

  predicate GoodTask(t: Task)
  {
    t.Task? && t.id.Some? && t.duration.Exact?
  }

  predicate GoodDependency(d: Dependency)
  {
    d.NoDependency? || (d.before.Some? && d.after.Some?)
  }

  predicate AllGood(tasks: seq<Task>, dependencies: seq<Dependency>)
  {
    && (forall i :: 0 <= i < |tasks| ==> GoodTask(tasks[i]))
    && (forall i :: 0 <= i < |dependencies| ==> GoodDependency(dependencies[i]))
  }

  /** A task declared twice keeps its last duration. */
  function Durations(tasks: seq<Task>): map<Id, real>
    requires forall i :: 0 <= i < |tasks| ==> GoodTask(tasks[i])
  {
    if tasks == [] then map[]
    else
      var last := tasks[|tasks| - 1];
      assert GoodTask(last);
      Durations(tasks[..|tasks| - 1])[last.id.value := last.duration.value]
  }

  function Edges(dependencies: seq<Dependency>): set<(Id, Id)>
    requires forall i :: 0 <= i < |dependencies| ==> GoodDependency(dependencies[i])
  {
    set i | 0 <= i < |dependencies| && GoodDependency(dependencies[i]) && dependencies[i].Dependency?
      :: (dependencies[i].before.value, dependencies[i].after.value)
  }

  function GraphOf(tasks: seq<Task>, dependencies: seq<Dependency>): Option<Graph>
  {
    if AllGood(tasks, dependencies) then Some(Graph(Durations(tasks), Edges(dependencies))) else None
  }

  method BuildGraph(tasks: seq<Task>, dependencies: seq<Dependency>) returns (g: Option<Graph>)
    ensures g == GraphOf(tasks, dependencies)
  {
    var durations: map<Id, real> := map[];
    for i := 0 to |tasks|
      invariant forall j :: 0 <= j < i ==> GoodTask(tasks[j])
      invariant durations == Durations(tasks[..i])
    {
      assert tasks[..i + 1][..i] == tasks[..i];
      if !GoodTask(tasks[i]) { return None; }
      durations := durations[tasks[i].id.value := tasks[i].duration.value];
    }
    var edges: set<(Id, Id)> := {};
    for i := 0 to |dependencies|
      invariant forall j :: 0 <= j < i ==> GoodDependency(dependencies[j])
      invariant edges == Edges(dependencies[..i])
    {
      if !GoodDependency(dependencies[i]) { return None; }
      OneMoreDependency(dependencies, i);
      if dependencies[i].Dependency? {
        edges := edges + {(dependencies[i].before.value, dependencies[i].after.value)};
      }
    }
    assert tasks[..|tasks|] == tasks && dependencies[..|dependencies|] == dependencies;
    g := Some(Graph(durations, edges));
  }

  lemma OneMoreDependency(dependencies: seq<Dependency>, i: nat)
    requires i < |dependencies| && forall j :: 0 <= j <= i ==> GoodDependency(dependencies[j])
    ensures Edges(dependencies[..i + 1]) == Edges(dependencies[..i])
         + (if dependencies[i].Dependency? then {(dependencies[i].before.value, dependencies[i].after.value)} else {})
  {
    var more, fewer := dependencies[..i + 1], dependencies[..i];
    assert forall j :: 0 <= j < i ==> more[j] == fewer[j];
    assert more[i] == dependencies[i];
  }

  // ----- dependency paths

  function Nodes(g: Graph): set<Id>
  {
    g.durations.Keys + (set e | e in g.edges :: e.0) + (set e | e in g.edges :: e.1)
  }

  function Predecessors(g: Graph, v: Id): set<Id>
  {
    set e | e in g.edges && e.1 == v :: e.0
  }

  function Weight(g: Graph, v: Id): real
  {
    if v in g.durations then g.durations[v] else 0.0
  }

  ghost predicate IsPath(g: Graph, p: seq<Id>)
  {
    p != [] && (forall i :: 0 <= i < |p| ==> p[i] in Nodes(g)) && forall i :: 0 <= i < |p| - 1 ==> (p[i], p[i + 1]) in g.edges
  }

  /** A path from a task without predecessors. */
  ghost predicate IsRootedPath(g: Graph, p: seq<Id>)
  {
    IsPath(g, p) && Predecessors(g, p[0]) == {}
  }

  function Sum(g: Graph, p: seq<Id>): real
  {
    if p == [] then 0.0 else Sum(g, p[..|p| - 1]) + Weight(g, p[|p| - 1])
  }

  lemma SumOfOne(g: Graph, v: Id)
    ensures Sum(g, [v]) == Weight(g, v)
  {
    assert [v][..0] == [];
  }

  predicate Nonnegative(g: Graph)
  {
    forall v :: v in g.durations ==> g.durations[v] >= 0.0
  }

  // ----- the recurrence

  predicate Worse(best: map<Id, real>, a: Id, b: Id)
    requires a in best && b in best
  {
    best[a] < best[b] || (best[a] == best[b] && Below(a, b))
  }

  /** The candidate of greatest value, ties going to the greatest identifier. */
  predicate IsBest(candidates: set<Id>, best: map<Id, real>, u: Id)
    requires candidates <= best.Keys
  {
    u in candidates && forall q :: q in candidates && q != u ==> Worse(best, q, u)
  }

  predicate Step(g: Graph, best: map<Id, real>, predecessor: map<Id, Option<Id>>, v: Id)
  {
    && v in g.durations && v in best && v in predecessor && Predecessors(g, v) <= best.Keys
    && (predecessor[v] == None <==> Predecessors(g, v) == {})
    && (predecessor[v].Some? ==> IsBest(Predecessors(g, v), best, predecessor[v].value))
    && best[v] == (if predecessor[v].Some? then best[predecessor[v].value] else 0.0) + g.durations[v]
  }

  ghost predicate Recurrence(g: Graph, best: map<Id, real>, predecessor: map<Id, Option<Id>>)
  {
    && best.Keys == Nodes(g) && predecessor.Keys == Nodes(g)
    && forall v :: v in Nodes(g) ==> Step(g, best, predecessor, v)
  }

  lemma EdgeEnds(g: Graph, a: Id, b: Id)
    requires (a, b) in g.edges
    ensures a in Predecessors(g, b) && a in Nodes(g) && b in Nodes(g)
  {
  }

  /** No rooted path to a task is longer than its value. */
  lemma {:induction false} RootedBound(g: Graph, best: map<Id, real>, predecessor: map<Id, Option<Id>>, p: seq<Id>)
    requires Recurrence(g, best, predecessor) && IsRootedPath(g, p)
    ensures Sum(g, p) <= best[p[|p| - 1]]
  {
    var init, v := p[..|p| - 1], p[|p| - 1];
    assert Step(g, best, predecessor, v);
    if init == [] {
      assert Sum(g, p) == Weight(g, v);
    } else {
      RootedBound(g, best, predecessor, init);
      EdgeEnds(g, init[|init| - 1], v);
    }
  }

  /** With nonnegative durations no path at all is longer. */
  lemma {:induction false} PathBound(g: Graph, order: seq<Id>, best: map<Id, real>, predecessor: map<Id, Option<Id>>, p: seq<Id>)
    requires Recurrence(g, best, predecessor) && Nonnegative(g) && IsTopological(g, order) && IsPath(g, p)
    ensures Sum(g, p) <= best[p[|p| - 1]]
  {
    var init, v := p[..|p| - 1], p[|p| - 1];
    assert Step(g, best, predecessor, v);
    if init == [] {
      assert Sum(g, p) == Weight(g, v);
      if predecessor[v].Some? {
        var u := predecessor[v].value;
        EdgeEnds(g, u, v);
        var j := PositionOf(g, order, u);
        BestIsNonnegative(g, order, best, predecessor, j);
      }
    } else {
      PathBound(g, order, best, predecessor, init);
      EdgeEnds(g, init[|init| - 1], v);
    }
  }

  /** Every task once, dependencies first. */
  ghost predicate IsTopological(g: Graph, order: seq<Id>)
  {
    && NoDuplicates(order) && (forall v :: v in order <==> v in Nodes(g))
    && forall i, j :: 0 <= i < |order| && 0 <= j < |order| && (order[i], order[j]) in g.edges ==> i < j
  }

  lemma {:induction false} BestIsNonnegative(g: Graph, order: seq<Id>, best: map<Id, real>, predecessor: map<Id, Option<Id>>, i: nat)
    requires Recurrence(g, best, predecessor) && Nonnegative(g) && IsTopological(g, order) && i < |order|
    ensures order[i] in best && best[order[i]] >= 0.0
    decreases i
  {
    var v := order[i];
    assert v in order && Step(g, best, predecessor, v);
    if predecessor[v].Some? {
      var u := predecessor[v].value;
      EdgeEnds(g, u, v);
      var j: nat :| j < |order| && order[j] == u;
      BestIsNonnegative(g, order, best, predecessor, j);
    }
  }

  // ----- tracing back

  /** From a task back along chosen predecessors to one without. */
  ghost predicate IsChain(predecessor: map<Id, Option<Id>>, c: seq<Id>)
  {
    IsPartialChain(predecessor, c) && predecessor[c[|c| - 1]] == None
  }

  ghost predicate IsPartialChain(predecessor: map<Id, Option<Id>>, c: seq<Id>)
  {
    && c != [] && (forall i :: 0 <= i < |c| ==> c[i] in predecessor)
    && forall i :: 0 <= i < |c| - 1 ==> predecessor[c[i]] == Some(c[i + 1])
  }

  lemma ChainGrows(predecessor: map<Id, Option<Id>>, c: seq<Id>, v: Id)
    requires IsPartialChain(predecessor, c) && predecessor[c[|c| - 1]] == Some(v) && v in predecessor
    ensures IsPartialChain(predecessor, c + [v])
  {
  }

  function Reverse(s: seq<Id>): seq<Id>
  {
    if s == [] then [] else Reverse(s[1..]) + [s[0]]
  }

  lemma ExtendPath(g: Graph, p: seq<Id>, v: Id)
    requires IsRootedPath(g, p) && (p[|p| - 1], v) in g.edges
    ensures IsRootedPath(g, p + [v]) && Sum(g, p + [v]) == Sum(g, p) + Weight(g, v)
  {
    EdgeEnds(g, p[|p| - 1], v);
    assert (p + [v])[..|p|] == p;
  }

  lemma RootAlone(g: Graph, best: map<Id, real>, predecessor: map<Id, Option<Id>>, v: Id)
    requires Recurrence(g, best, predecessor) && v in predecessor && predecessor[v] == None
    ensures IsRootedPath(g, [v]) && Sum(g, [v]) == best[v]
  {
    assert Step(g, best, predecessor, v);
    SumOfOne(g, v);
  }

  lemma FromPredecessor(g: Graph, best: map<Id, real>, predecessor: map<Id, Option<Id>>, v: Id, u: Id)
    requires Recurrence(g, best, predecessor) && v in predecessor && predecessor[v] == Some(u)
    ensures (u, v) in g.edges && u in best && v in best && best[v] == best[u] + Weight(g, v)
  {
    assert Step(g, best, predecessor, v);
    assert u in Predecessors(g, v);
  }

  /** r is a rooted path to the task, as long as its value. */
  ghost predicate Realizes(g: Graph, best: map<Id, real>, r: seq<Id>, v: Id)
  {
    IsRootedPath(g, r) && r[|r| - 1] == v && v in best && Sum(g, r) == best[v]
  }

  lemma RealizesNext(g: Graph, best: map<Id, real>, predecessor: map<Id, Option<Id>>, v: Id, u: Id, r: seq<Id>)
    requires Recurrence(g, best, predecessor) && v in predecessor && predecessor[v] == Some(u) && Realizes(g, best, r, u)
    ensures Realizes(g, best, r + [v], v)
  {
    FromPredecessor(g, best, predecessor, v, u);
    ExtendPath(g, r, v);
  }

  /** Traced back and reversed, a chain is a rooted path as long as the value of its task. */
  lemma {:induction false} ChainIsPath(g: Graph, best: map<Id, real>, predecessor: map<Id, Option<Id>>, c: seq<Id>)
    requires Recurrence(g, best, predecessor) && IsChain(predecessor, c)
    ensures Realizes(g, best, Reverse(c), c[0])
  {
    var v, rest := c[0], c[1..];
    if rest == [] {
      assert Reverse(c) == [v];
      RootAlone(g, best, predecessor, v);
    } else {
      ChainIsPath(g, best, predecessor, rest);
      RealizesNext(g, best, predecessor, v, rest[0], Reverse(rest));
    }
  }

  // ----- critical_path

  /** What networkx answers: a topological order, or nothing when there is none. */
  ghost predicate IsLibrarySort(g: Graph, sort: Option<seq<Id>>)
  {
    (sort.Some? ==> IsTopological(g, sort.value)) && (sort == None ==> forall order :: !IsTopological(g, order))
  }

  /** The reported path is rooted, as long as reported, and no rooted path (nor, without negative durations, any path) is longer. */
  ghost predicate IsCritical(g: Graph, path: seq<Id>, duration: real)
  {
    && IsRootedPath(g, path) && Sum(g, path) == duration
    && (forall p :: IsRootedPath(g, p) ==> Sum(g, p) <= duration)
    && (Nonnegative(g) ==> forall p :: IsPath(g, p) ==> Sum(g, p) <= duration)
  }

  lemma WorseIsTransitive(best: map<Id, real>, a: Id, b: Id, c: Id)
    requires a in best && b in best && c in best && Worse(best, a, b) && Worse(best, b, c)
    ensures Worse(best, a, c)
  {
    if best[a] == best[b] == best[c] {
      BelowIsTransitive(a, b, c);
    }
  }

  /** max(candidates, key = (value, identifier)). */
  method FindBest(candidates: set<Id>, best: map<Id, real>) returns (u: Id)
    requires candidates != {} && candidates <= best.Keys
    ensures IsBest(candidates, best, u)
  {
    u :| u in candidates;
    var todo := candidates - {u};
    while todo != {}
      invariant todo <= candidates && u in candidates - todo
      invariant forall q :: q in candidates - todo && q != u ==> Worse(best, q, u)
      decreases |todo|
    {
      var q :| q in todo;
      BelowIsTotal(q, u);
      if Worse(best, u, q) {
        forall x | x in candidates - todo && x != u ensures Worse(best, x, q) {
          WorseIsTransitive(best, x, u, q);
        }
        u := q;
      }
      todo := todo - {q};
    }
  }

  /** The value of a task and the predecessor it comes from. */
  method Choose(g: Graph, best: map<Id, real>, v: Id) returns (value: real, parent: Option<Id>)
    requires v in g.durations && Predecessors(g, v) <= best.Keys
    ensures parent == None <==> Predecessors(g, v) == {}
    ensures parent.Some? ==> IsBest(Predecessors(g, v), best, parent.value)
    ensures value == (if parent.Some? then best[parent.value] else 0.0) + g.durations[v]
  {
    var candidates := Predecessors(g, v);
    var previous := 0.0;
    parent := None;
    if candidates != {} {
      var u := FindBest(candidates, best);
      previous, parent := best[u], Some(u);
    }
    value := previous + g.durations[v];
  }

  /** Every task handled so far satisfies the recurrence. */
  ghost predicate Relaxed(g: Graph, best: map<Id, real>, predecessor: map<Id, Option<Id>>)
  {
    best.Keys == predecessor.Keys && forall u :: u in best ==> Step(g, best, predecessor, u)
  }

  lemma RelaxOneMore(g: Graph, best: map<Id, real>, predecessor: map<Id, Option<Id>>, v: Id, value: real, parent: Option<Id>)
    requires Relaxed(g, best, predecessor) && v !in best && v in g.durations && Predecessors(g, v) <= best.Keys
    requires parent == None <==> Predecessors(g, v) == {}
    requires parent.Some? ==> IsBest(Predecessors(g, v), best, parent.value)
    requires value == (if parent.Some? then best[parent.value] else 0.0) + g.durations[v]
    ensures Relaxed(g, best[v := value], predecessor[v := parent])
  {
    var best', predecessor' := best[v := value], predecessor[v := parent];
    forall u | u in best ensures Step(g, best', predecessor', u) {
      StepKept(g, best, predecessor, best', predecessor', u);
    }
    if parent.Some? {
      forall q | q in Predecessors(g, v) && q != parent.value ensures Worse(best', q, parent.value) {
        assert Worse(best, q, parent.value);
      }
    }
  }

  /** A task that is new and comes after all its predecessors. */
  ghost predicate ReadyAt(g: Graph, order: seq<Id>, i: nat)
    requires i < |order|
  {
    Predecessors(g, order[i]) <= Firsts(order, i) && order[i] !in Firsts(order, i) && order[i] in Nodes(g)
  }

  ghost predicate ComesInOrder(g: Graph, order: seq<Id>)
  {
    forall i: nat :: i < |order| ==> ReadyAt(g, order, i)
  }

  lemma TopologicalComesInOrder(g: Graph, order: seq<Id>)
    requires IsTopological(g, order)
    ensures ComesInOrder(g, order)
  {
    forall i: nat | i < |order| ensures ReadyAt(g, order, i) {
      PredecessorsComeFirst(g, order, i);
      FirstsMembers(order, i, order[i]);
      forall u | u in Predecessors(g, order[i]) ensures u in Firsts(order, i) {
        FirstsMembers(order, i, u);
      }
    }
  }

  /** One forward pass over the tasks; stops at a task without duration. */
  method RelaxAll(g: Graph, order: seq<Id>) returns (ok: bool, best: map<Id, real>, predecessor: map<Id, Option<Id>>)
    requires ComesInOrder(g, order)
    ensures ok ==> best.Keys == Firsts(order, |order|) && Relaxed(g, best, predecessor)
    ensures !ok ==> !(Nodes(g) <= g.durations.Keys)
  {
    best, predecessor := map[], map[];
    for i := 0 to |order|
      invariant best.Keys == Firsts(order, i)
      invariant Relaxed(g, best, predecessor)
    {
      assert ReadyAt(g, order, i);
      if order[i] !in g.durations {
        return false, best, predecessor;
      }
      var value, parent := Choose(g, best, order[i]);
      RelaxOneMore(g, best, predecessor, order[i], value, parent);
      best, predecessor := best[order[i] := value], predecessor[order[i] := parent];
    }
    ok := true;
  }

  method Relax(g: Graph, order: seq<Id>) returns (ok: bool, best: map<Id, real>, predecessor: map<Id, Option<Id>>)
    requires IsTopological(g, order)
    ensures ok <==> Nodes(g) <= g.durations.Keys
    ensures ok ==> Recurrence(g, best, predecessor)
  {
    TopologicalComesInOrder(g, order);
    ok, best, predecessor := RelaxAll(g, order);
    if ok {
      AllRelaxed(g, order, best, predecessor);
    }
  }

  lemma AllRelaxed(g: Graph, order: seq<Id>, best: map<Id, real>, predecessor: map<Id, Option<Id>>)
    requires IsTopological(g, order) && best.Keys == Firsts(order, |order|) && Relaxed(g, best, predecessor)
    ensures Recurrence(g, best, predecessor) && Nodes(g) <= g.durations.Keys
  {
    AllFirsts(order, Nodes(g));
    forall v | v in Nodes(g) ensures v in g.durations {
      assert Step(g, best, predecessor, v);
    }
  }

  lemma PredecessorsComeFirst(g: Graph, order: seq<Id>, i: nat)
    requires IsTopological(g, order) && i < |order|
    ensures forall u :: u in Predecessors(g, order[i]) ==> u in order[..i]
    ensures order[i] !in order[..i] && order[i] in Nodes(g)
  {
    assert order[i] in order;
    forall u | u in Predecessors(g, order[i]) ensures u in order[..i] {
      EdgeEnds(g, u, order[i]);
      var j: nat :| j < |order| && order[j] == u;
      assert order[..i][j] == u;
    }
  }

  lemma EarlierPosition(g: Graph, order: seq<Id>, i: nat, u: Id) returns (j: nat)
    requires IsTopological(g, order) && i < |order| && u in Predecessors(g, order[i])
    ensures j < i && order[j] == u
  {
    EdgeEnds(g, u, order[i]);
    j :| j < |order| && order[j] == u;
  }

  lemma StepKept(g: Graph, fewer: map<Id, real>, before: map<Id, Option<Id>>,
                 best: map<Id, real>, predecessor: map<Id, Option<Id>>, v: Id)
    requires Step(g, fewer, before, v)
    requires forall u :: u in fewer ==> u in best && best[u] == fewer[u]
    requires forall u :: u in before ==> u in predecessor && predecessor[u] == before[u]
    ensures Step(g, best, predecessor, v)
  {
    if before[v].Some? {
      forall q | q in Predecessors(g, v) && q != before[v].value ensures Worse(best, q, before[v].value) {
        assert Worse(fewer, q, before[v].value);
      }
    }
  }

  /** The cursor loop: from the end of the path back to its root. */
  method TraceBack(g: Graph, order: seq<Id>, best: map<Id, real>, predecessor: map<Id, Option<Id>>, end: Id)
    returns (c: seq<Id>)
    requires IsTopological(g, order) && Recurrence(g, best, predecessor) && end in Nodes(g)
    ensures IsChain(predecessor, c) && c[0] == end
  {
    c := [];
    var cursor := Some(end);
    ghost var position: nat := PositionOf(g, order, end);
    while cursor.Some?
      invariant cursor.Some? ==> position < |order| && order[position] == cursor.value && cursor.value in Nodes(g)
      invariant c == [] ==> cursor == Some(end)
      invariant c != [] ==> IsPartialChain(predecessor, c) && c[0] == end && predecessor[c[|c| - 1]] == cursor
      decreases cursor.Some?, position
    {
      var v := cursor.value;
      if c != [] {
        ChainGrows(predecessor, c, v);
      }
      c := c + [v];
      cursor := predecessor[v];
      if cursor.Some? {
        PredecessorIsEarlier(g, order, best, predecessor, position);
        position := PositionOf(g, order, cursor.value);
      }
    }
  }

  lemma PositionOf(g: Graph, order: seq<Id>, v: Id) returns (i: nat)
    requires IsTopological(g, order) && v in Nodes(g)
    ensures i < |order| && order[i] == v
  {
    i :| i < |order| && order[i] == v;
  }

  lemma PredecessorIsEarlier(g: Graph, order: seq<Id>, best: map<Id, real>, predecessor: map<Id, Option<Id>>, i: nat)
    requires IsTopological(g, order) && Recurrence(g, best, predecessor) && i < |order|
    requires order[i] in Nodes(g) && predecessor[order[i]].Some?
    ensures predecessor[order[i]].value in Nodes(g)
    ensures forall j :: 0 <= j < |order| && order[j] == predecessor[order[i]].value ==> j < i
  {
    assert Step(g, best, predecessor, order[i]);
    EdgeEnds(g, predecessor[order[i]].value, order[i]);
  }

  /** What the record checks mean for the single tasks and dependencies. */
  lemma RecordsExplain(tasks: seq<Task>, dependencies: seq<Dependency>)
    ensures HasDurations(tasks) <==> tasks != [] && forall t :: t in tasks ==> t.Task? && t.duration != Absent
    ensures HasDurations(tasks) ==>
              (AllGood(tasks, dependencies) <==>
                && (forall t :: t in tasks ==> t.Task? && t.id != None && t.duration != NotANumber)
                && forall d :: d in dependencies && d.Dependency? ==> d.before != None && d.after != None)
  {
    assert forall i :: 0 <= i < |tasks| ==> tasks[i] in tasks;
    assert forall i :: 0 <= i < |dependencies| ==> dependencies[i] in dependencies;
  }

  method Compute(tasks: seq<Task>, dependencies: seq<Dependency>, sort: Option<seq<Id>>) returns (outcome: Outcome)
    requires HasDurations(tasks) && GraphOf(tasks, dependencies).Some? ==> IsLibrarySort(GraphOf(tasks, dependencies).value, sort)
    ensures outcome == DurationMissing <==> tasks == [] || exists t :: t in tasks && (t.NoTask? || t.duration == Absent)
    ensures outcome == DurationMissing <==> !HasDurations(tasks)
    ensures outcome == ValueInvalid <==>
            && HasDurations(tasks)
            && ((exists t :: t in tasks && t.Task? && (t.id == None || t.duration == NotANumber))
                || exists d :: d in dependencies && d.Dependency? && (d.before == None || d.after == None))
    ensures outcome == ValueInvalid <==> HasDurations(tasks) && !AllGood(tasks, dependencies)
    ensures outcome == NotAcyclic <==> HasDurations(tasks) && AllGood(tasks, dependencies) && sort == None
    ensures outcome == Raised
       <==> (HasDurations(tasks) && AllGood(tasks, dependencies) && sort.Some?
             && !(Nodes(GraphOf(tasks, dependencies).value) <= GraphOf(tasks, dependencies).value.durations.Keys))
    ensures outcome.Computed? ==> IsCritical(GraphOf(tasks, dependencies).value, outcome.path, outcome.duration)
    ensures outcome.Computed? ==> IsReport(GraphOf(tasks, dependencies).value, outcome.path, outcome.duration)
  {
    RecordsExplain(tasks, dependencies);
    if !HasDurations(tasks) { return DurationMissing; }
    var built := BuildGraph(tasks, dependencies);
    if built == None { return ValueInvalid; }
    if sort == None { return NotAcyclic; }
    var g, order := built.value, sort.value;
    var ok, best, predecessor := Relax(g, order);
    if !ok { return Raised; }
    DeclaredTask(tasks);
    var end := FindBest(best.Keys, best);
    var c := TraceBack(g, order, best, predecessor, end);
    ChainIsCritical(g, order, best, predecessor, c);
    assert Reports(g, best, predecessor, c, Reverse(c), best[end]);
    outcome := Computed(Reverse(c), best[end]);
  }

  /** A dependency on a task that was never declared stops the calculation with an exception. */
  method RaiseOnUndeclaredTask() returns (outcome: Outcome)
    ensures outcome == Raised
  {
    var tasks, dependencies := [Task(Some("work"), Exact(1.0))], [Dependency(Some("ghost"), Some("work"))];
    ghost var g := GraphOf(tasks, dependencies).value;
    assert dependencies[0].Dependency? && ("ghost", "work") in g.edges;
    assert tasks[..0] == [] && g.durations.Keys == {"work"} && "ghost" in Nodes(g);
    var order := ["ghost", "work"];
    assert order[0] == "ghost" && order[1] == "work";
    outcome := Compute(tasks, dependencies, Some(order));
  }

  lemma DeclaredTask(tasks: seq<Task>)
    requires tasks != [] && forall i :: 0 <= i < |tasks| ==> GoodTask(tasks[i])
    ensures Durations(tasks).Keys != {}
  {
    assert tasks[|tasks| - 1].id.value in Durations(tasks);
  }

  lemma BestBounds(g: Graph, best: map<Id, real>, end: Id, p: seq<Id>)
    requires Nodes(g) <= best.Keys && IsBest(Nodes(g), best, end) && IsPath(g, p)
    ensures best[p[|p| - 1]] <= best[end]
  {
    assert p[|p| - 1] in Nodes(g);
    assert p[|p| - 1] != end ==> Worse(best, p[|p| - 1], end);
  }

  lemma ChainIsCritical(g: Graph, order: seq<Id>, best: map<Id, real>, predecessor: map<Id, Option<Id>>, c: seq<Id>)
    requires IsTopological(g, order) && Recurrence(g, best, predecessor) && IsChain(predecessor, c)
    requires IsBest(Nodes(g), best, c[0])
    ensures IsCritical(g, Reverse(c), best[c[0]])
  {
    ChainIsPath(g, best, predecessor, c);
    forall p | IsRootedPath(g, p) ensures Sum(g, p) <= best[c[0]] {
      RootedBound(g, best, predecessor, p);
      BestBounds(g, best, c[0], p);
    }
    if Nonnegative(g) {
      forall p | IsPath(g, p) ensures Sum(g, p) <= best[c[0]] {
        PathBound(g, order, best, predecessor, p);
        BestBounds(g, best, c[0], p);
      }
    }
  }

  // ----- the topological order does not matter

  ghost predicate Reports(g: Graph, best: map<Id, real>, predecessor: map<Id, Option<Id>>, c: seq<Id>, path: seq<Id>, duration: real)
  {
    && Recurrence(g, best, predecessor) && IsChain(predecessor, c)
    && IsBest(Nodes(g), best, c[0]) && path == Reverse(c) && duration == best[c[0]]
  }

  ghost predicate IsReport(g: Graph, path: seq<Id>, duration: real)
  {
    exists best, predecessor, c :: Reports(g, best, predecessor, c, path, duration)
  }

  lemma BestIsUnique(candidates: set<Id>, best: map<Id, real>, another: map<Id, real>, u: Id, w: Id)
    requires candidates <= best.Keys && candidates <= another.Keys && (forall q :: q in candidates ==> best[q] == another[q])
    requires IsBest(candidates, best, u) && IsBest(candidates, another, w)
    ensures u == w
  {
    if u != w {
      assert Worse(best, w, u) && Worse(another, u, w);
      BelowIsTransitive(u, w, u);
      BelowIsIrreflexive(u);
    }
  }

  ghost predicate SameAt(best: map<Id, real>, predecessor: map<Id, Option<Id>>,
                         best': map<Id, real>, predecessor': map<Id, Option<Id>>, v: Id)
  {
    && v in best && v in predecessor && v in best' && v in predecessor'
    && best[v] == best'[v] && predecessor[v] == predecessor'[v]
  }

  lemma StepIsUnique(g: Graph, best: map<Id, real>, predecessor: map<Id, Option<Id>>,
                     best': map<Id, real>, predecessor': map<Id, Option<Id>>, v: Id)
    requires Step(g, best, predecessor, v) && Step(g, best', predecessor', v)
    requires forall q :: q in Predecessors(g, v) ==> SameAt(best, predecessor, best', predecessor', q)
    ensures SameAt(best, predecessor, best', predecessor', v)
  {
    if predecessor[v].Some? {
      BestIsUnique(Predecessors(g, v), best, best', predecessor[v].value, predecessor'[v].value);
    }
  }

  ghost predicate SameBefore(order: seq<Id>, k: nat, best: map<Id, real>, predecessor: map<Id, Option<Id>>,
                             best': map<Id, real>, predecessor': map<Id, Option<Id>>)
    requires k <= |order|
  {
    forall i: nat :: i < k ==> SameAt(best, predecessor, best', predecessor', order[i])
  }

  lemma PredecessorsAgree(g: Graph, order: seq<Id>, best: map<Id, real>, predecessor: map<Id, Option<Id>>,
                          best': map<Id, real>, predecessor': map<Id, Option<Id>>, k: nat, q: Id)
    requires IsTopological(g, order) && k < |order| && q in Predecessors(g, order[k])
    requires SameBefore(order, k, best, predecessor, best', predecessor')
    ensures SameAt(best, predecessor, best', predecessor', q)
  {
    var i := EarlierPosition(g, order, k, q);
  }

  lemma {:induction false} RecurrenceIsUnique(g: Graph, order: seq<Id>, best: map<Id, real>, predecessor: map<Id, Option<Id>>,
                                              best': map<Id, real>, predecessor': map<Id, Option<Id>>, k: nat)
    requires IsTopological(g, order) && k <= |order|
    requires Recurrence(g, best, predecessor) && Recurrence(g, best', predecessor')
    ensures SameBefore(order, k, best, predecessor, best', predecessor')
  {
    if k > 0 {
      RecurrenceIsUnique(g, order, best, predecessor, best', predecessor', k - 1);
      forall q | q in Predecessors(g, order[k - 1]) ensures SameAt(best, predecessor, best', predecessor', q) {
        PredecessorsAgree(g, order, best, predecessor, best', predecessor', k - 1, q);
      }
      assert order[k - 1] in order;
      StepIsUnique(g, best, predecessor, best', predecessor', order[k - 1]);
    }
  }

  lemma {:induction false} ChainIsUnique(predecessor: map<Id, Option<Id>>, c: seq<Id>, d: seq<Id>)
    requires IsChain(predecessor, c) && IsChain(predecessor, d) && c[0] == d[0]
    ensures c == d
  {
    assert |c| > 1 ==> predecessor[c[0]] == Some(c[1]);
    assert |d| > 1 ==> predecessor[d[0]] == Some(d[1]);
    if |c| > 1 {
      assert c[1] == d[1];
      ChainIsUnique(predecessor, c[1..], d[1..]);
      assert c == [c[0]] + c[1..] && d == [d[0]] + d[1..];
    }
  }

  lemma SameMaps(a: map<Id, Option<Id>>, b: map<Id, Option<Id>>)
    requires a.Keys == b.Keys && forall v :: v in a ==> a[v] == b[v]
    ensures a == b
  {
  }

  /** Whatever topological order is used, the reported path and duration are the same. */
  lemma ReportIsUnique(g: Graph, order: seq<Id>, path: seq<Id>, duration: real, path': seq<Id>, duration': real)
    requires IsTopological(g, order) && IsReport(g, path, duration) && IsReport(g, path', duration')
    ensures path == path' && duration == duration'
  {
    var best, predecessor, c :| Reports(g, best, predecessor, c, path, duration);
    var best', predecessor', c' :| Reports(g, best', predecessor', c', path', duration');
    RecurrenceIsUnique(g, order, best, predecessor, best', predecessor', |order|);
    forall v | v in Nodes(g) ensures best[v] == best'[v] && predecessor[v] == predecessor'[v] {
      var i := PositionOf(g, order, v);
      assert SameAt(best, predecessor, best', predecessor', v);
    }
    SameMaps(predecessor, predecessor');
    BestIsUnique(Nodes(g), best, best', c[0], c'[0]);
    ChainIsUnique(predecessor, c, c');
  }

  // ----- negative durations

  const FIRST: Id := "a"
  const SECOND: Id := "b"

  /** The first task takes minus two, the second, which depends on it, one. */
  function Shrinking(): Graph
  {
    Graph(map[FIRST := -2.0, SECOND := 1.0], {(FIRST, SECOND)})
  }

  lemma ShrinkingShape()
    ensures FIRST != SECOND && Nodes(Shrinking()) == {FIRST, SECOND}
    ensures Predecessors(Shrinking(), FIRST) == {} && Predecessors(Shrinking(), SECOND) == {FIRST}
    ensures IsTopological(Shrinking(), [FIRST, SECOND])
  {
    assert FIRST[0] != SECOND[0];
    assert (FIRST, SECOND) in Shrinking().edges;
  }

  lemma ShrinkingReport()
    ensures IsReport(Shrinking(), [FIRST, SECOND], -1.0)
  {
    ShrinkingShape();
    var best: map<Id, real> := map[FIRST := -2.0, SECOND := -1.0];
    var predecessor: map<Id, Option<Id>> := map[FIRST := None, SECOND := Some(FIRST)];
    assert Step(Shrinking(), best, predecessor, FIRST) && Step(Shrinking(), best, predecessor, SECOND);
    var c := [SECOND, FIRST];
    assert c[1..] == [FIRST] && [FIRST][1..] == [];
    assert Reverse(c[1..]) == Reverse([]) + [FIRST];
    assert Reverse(c) == [FIRST, SECOND];
    assert Reports(Shrinking(), best, predecessor, c, [FIRST, SECOND], -1.0);
  }

  lemma SecondAlone()
    ensures IsPath(Shrinking(), [SECOND]) && Sum(Shrinking(), [SECOND]) == 1.0
  {
    ShrinkingShape();
    SumOfOne(Shrinking(), SECOND);
  }

  /** With a negative duration the reported path need not be the longest: here the second task alone is longer. */
  lemma NegativeDurationsCanHideALongerPath()
    ensures IsTopological(Shrinking(), [FIRST, SECOND]) && IsReport(Shrinking(), [FIRST, SECOND], -1.0)
    ensures IsPath(Shrinking(), [SECOND]) && Sum(Shrinking(), [SECOND]) > -1.0
  {
    ShrinkingShape();
    ShrinkingReport();
    SecondAlone();
  }
}
