/** The ratio keys of a coupling report join two identifiers: when that is harmless, and what happens otherwise. */
module RatioKeys {
  import opened Ids
  import opened Vectors
  import opened FluxCoupling
  import Nullspace

  // ----- when the joined keys carry the right ratios

  /** Two disjoint pairs, each in reporting order, whose joined keys coincide. */
  ghost predicate Clash(ids: set<Id>, a: Id, b: Id, c: Id, d: Id)
  {
    && {a, b, c, d} <= ids && Below(a, b) && Below(c, d)
    && a != c && a != d && b != c && b != d
    && Key(a, b) == Key(c, d)
  }

  /** Each anchor and each other member of its class find their own ratio under their key. */
  ghost predicate Faithful(ts: Transformations, coordinates: seq<Id>, report: Report)
    requires IsCouplingReport(ts, coordinates, report)
  {
    forall p, i :: 0 <= p < |report.classes| && 0 < i < |report.classes[p]| ==>
      var a, b := report.classes[p][0], report.classes[p][i];
      a in ts && b in ts && CoupledBy(ts, coordinates, a, b, report.ratios[Key(a, b)])
  }

  lemma SameKeySameTail(a: Id, b: Id, d: Id)
    requires Key(a, b) == Key(a, d)
    ensures b == d
  {
    assert b == Key(a, b)[|a| + 1..] && d == Key(a, d)[|a| + 1..];
  }

  /** Without a clash, equal keys come from the same pair. */
  lemma KeyIdentifiesPair(ids: set<Id>, classes: seq<seq<Id>>, p: nat, i: nat, q: nat, j: nat)
    requires p < |classes| && 0 < i < |classes[p]| && q < |classes| && 0 < j < |classes[q]|
    requires StrictlySorted(classes[p]) && StrictlySorted(classes[q]) && Disjoint(classes)
    requires !Clash(ids, classes[p][0], classes[p][i], classes[q][0], classes[q][j])
    requires classes[p][0] in ids && classes[p][i] in ids && classes[q][0] in ids && classes[q][j] in ids
    requires Key(classes[p][0], classes[p][i]) == Key(classes[q][0], classes[q][j])
    ensures classes[p][0] == classes[q][0] && classes[p][i] == classes[q][j]
  {
    var a, b, c, d := classes[p][0], classes[p][i], classes[q][0], classes[q][j];
    assert a in classes[p] && b in classes[p] && c in classes[q] && d in classes[q];
    assert Below(a, b) && Below(c, d);
    assert p == q;
    SameKeySameTail(a, b, d);
  }

  lemma EntrySource(ts: Transformations, coordinates: seq<Id>, classes: seq<seq<Id>>, ratios: map<string, real>,
                    key: string) returns (q: nat, j: nat)
    requires AreRatios(ts, coordinates, classes, ratios) && key in ratios
    ensures q < |classes| && 0 < j < |classes[q]| && PairRatio(ts, coordinates, classes[q], j, key, ratios[key])
    ensures key == Key(classes[q][0], classes[q][j])
  {
    assert RatioOf(ts, coordinates, classes, key, ratios[key]);
    q, j :| 0 <= q < |classes| && 0 < j < |classes[q]|
            && PairRatio(ts, coordinates, classes[q], j, key, ratios[key]);
  }

  ghost predicate NoClash(ids: set<Id>)
  {
    forall a, b, c, d :: !Clash(ids, a, b, c, d)
  }

  lemma MembersAt(ids: set<Id>, classes: seq<seq<Id>>, p: nat, i: nat)
    requires forall q, id :: 0 <= q < |classes| && id in classes[q] ==> id in ids
    requires p < |classes| && i < |classes[p]|
    ensures classes[p][0] in ids && classes[p][i] in ids
  {
    assert classes[p][0] in classes[p] && classes[p][i] in classes[p];
  }

  lemma PairIsFaithful(ts: Transformations, coordinates: seq<Id>, classes: seq<seq<Id>>, ratios: map<string, real>,
                       p: nat, i: nat)
    requires p < |classes| && 0 < i < |classes[p]|
    requires forall q :: 0 <= q < |classes| ==> StrictlySorted(classes[q])
    requires Disjoint(classes)
    requires forall q, id :: 0 <= q < |classes| && id in classes[q] ==> id in ts.Keys
    requires AreRatios(ts, coordinates, classes, ratios)
    requires NoClash(ts.Keys)
    ensures classes[p][0] in ts && classes[p][i] in ts
    ensures PairRatio(ts, coordinates, classes[p], i, Key(classes[p][0], classes[p][i]),
                      ratios[Key(classes[p][0], classes[p][i])])
  {
    var q, j := EntrySource(ts, coordinates, classes, ratios, Key(classes[p][0], classes[p][i]));
    MembersAt(ts.Keys, classes, p, i);
    MembersAt(ts.Keys, classes, q, j);
    assert !Clash(ts.Keys, classes[p][0], classes[p][i], classes[q][0], classes[q][j]);
    KeyIdentifiesPair(ts.Keys, classes, p, i, q, j);
  }

  lemma NoClashIsFaithful(ts: Transformations, coordinates: seq<Id>, report: Report)
    requires IsCouplingReport(ts, coordinates, report)
    requires NoClash(ts.Keys)
    ensures Faithful(ts, coordinates, report)
  {
    forall p, i | 0 <= p < |report.classes| && 0 < i < |report.classes[p]|
      ensures var a, b := report.classes[p][0], report.classes[p][i];
              a in ts && b in ts && CoupledBy(ts, coordinates, a, b, report.ratios[Key(a, b)])
    {
      PairIsFaithful(ts, coordinates, report.classes, report.ratios, p, i);
    }
  }

  // ----- a clash can always be turned into a wrong ratio

  /** b runs at twice a, d at three times c, everything else is free. */
  function ClashFlows(ids: set<Id>, a: Id, b: Id, c: Id, d: Id): (ts: Transformations)
    ensures ts.Keys == ids
  {
    map id | id in ids :: FlowsOf(a, b, c, d, id)
  }

  function FlowsOf(a: Id, b: Id, c: Id, d: Id, id: Id): Flows
  {
    if id == a then map["x" := 2.0] else if id == b then map["x" := -1.0]
    else if id == c then map["y" := 3.0] else if id == d then map["y" := -1.0] else map[]
  }

  const PLANES: seq<Id> := ["x", "y"]

  lemma ColumnsDiffer(ts: Transformations, a: Id, b: Id)
    requires a in ts && b in ts && a != b
    ensures Column(ts, a) != Column(ts, b)
  {
  }

  lemma ColumnOf(ts: Transformations, k: nat)
    requires k < |ts|
    ensures Sorted(ts.Keys)[k] in ts && Column(ts, Sorted(ts.Keys)[k]) == k
  {
    var ids := Sorted(ts.Keys);
    assert ids[k] in ids;
    SortedHasNoDuplicates(ids);
  }

  /** The vector with 1 at the first identifier, factor at the second and 0 elsewhere. */
  ghost function Witness(ts: Transformations, a: Id, b: Id, factor: real): (x: Vec)
    requires a in ts && b in ts
    ensures |x| == |ts|
  {
    seq(|ts|, k => if k == Column(ts, a) then 1.0 else if k == Column(ts, b) then factor else 0.0)
  }

  /** Outside a and b the plane carries no flow or the vector no flux. */
  ghost predicate OnlyAt(ts: Transformations, coordinate: Id, a: Id, b: Id, x: Vec)
    requires |x| == |ts|
  {
    forall id :: id in ts && id != a && id != b ==> Flow(ts[id], coordinate) == 0.0 || x[Column(ts, id)] == 0.0
  }

  lemma RowEntry(ts: Transformations, coordinate: Id, id: Id)
    requires id in ts
    ensures FlowRow(ts, coordinate)[Column(ts, id)] == Flow(ts[id], coordinate)
  {
  }

  lemma PlaneEntry(ts: Transformations, coordinate: Id, a: Id, b: Id, x: Vec, k: nat)
    requires a in ts && b in ts && |x| == |ts| && OnlyAt(ts, coordinate, a, b, x)
    requires k < |ts| && k != Column(ts, a) && k != Column(ts, b)
    ensures FlowRow(ts, coordinate)[k] == 0.0 || x[k] == 0.0
  {
    ColumnOf(ts, k);
    RowEntry(ts, coordinate, Sorted(ts.Keys)[k]);
  }

  ghost predicate VanishesOutside(row: Vec, x: Vec, n: nat, p: nat, q: nat)
    requires n <= |row| && n <= |x|
  {
    forall k :: 0 <= k < n && k != p && k != q ==> row[k] == 0.0 || x[k] == 0.0
  }

  lemma PlaneEntries(ts: Transformations, coordinate: Id, a: Id, b: Id, x: Vec)
    requires a in ts && b in ts && a != b && |x| == |ts| && OnlyAt(ts, coordinate, a, b, x)
    ensures VanishesOutside(FlowRow(ts, coordinate), x, |ts|, Column(ts, a), Column(ts, b))
  {
    forall k | 0 <= k < |ts| && k != Column(ts, a) && k != Column(ts, b)
      ensures FlowRow(ts, coordinate)[k] == 0.0 || x[k] == 0.0
    {
      PlaneEntry(ts, coordinate, a, b, x, k);
    }
  }

  ghost function Excess(factor: real, left: real, right: real): real
  {
    factor * left - right
  }

  /** Such a plane sees exactly two entries. */
  lemma PlaneDot(row: Vec, x: Vec, n: nat, p: nat, q: nat, factor: real)
    requires p < n == |row| == |x| && q < n && p != q
    requires VanishesOutside(row, x, n, p, q)
    requires row[p] == factor && row[q] == -1.0
    ensures Dot(row, x, n) == Excess(factor, x[p], x[q])
  {
    DotPair(row, x, n, p, q);
  }

  /** The coordinate binds b to factor times a and nothing else. */
  ghost predicate IsPlane(ts: Transformations, coordinate: Id, a: Id, b: Id, factor: real)
  {
    && a in ts && b in ts && a != b && factor != 0.0
    && Flow(ts[a], coordinate) == factor && Flow(ts[b], coordinate) == -1.0
    && forall id :: id in ts && id != a && id != b ==> Flow(ts[id], coordinate) == 0.0
  }

  lemma PlaneRow(ts: Transformations, coordinate: Id, a: Id, b: Id, factor: real, x: Vec)
    requires IsPlane(ts, coordinate, a, b, factor) && |x| == |ts|
    ensures VanishesOutside(FlowRow(ts, coordinate), x, |ts|, Column(ts, a), Column(ts, b))
    ensures FlowRow(ts, coordinate)[Column(ts, a)] == factor
    ensures FlowRow(ts, coordinate)[Column(ts, b)] == -1.0
  {
    PlaneEntries(ts, coordinate, a, b, x);
    RowEntry(ts, coordinate, a);
    RowEntry(ts, coordinate, b);
  }

  lemma PlaneBalance(ts: Transformations, coordinate: Id, a: Id, b: Id, factor: real, x: Vec)
    requires IsPlane(ts, coordinate, a, b, factor) && |x| == |ts|
    ensures Dot(FlowRow(ts, coordinate), x, |ts|) == Excess(factor, x[Column(ts, a)], x[Column(ts, b)])
  {
    PlaneRow(ts, coordinate, a, b, factor, x);
    ColumnsDiffer(ts, a, b);
    PlaneDot(FlowRow(ts, coordinate), x, |ts|, Column(ts, a), Column(ts, b), factor);
  }

  lemma WitnessEntries(ts: Transformations, a: Id, b: Id, factor: real, id: Id)
    requires a in ts && b in ts && a != b && id in ts
    ensures Witness(ts, a, b, factor)[Column(ts, id)] == if id == a then 1.0 else if id == b then factor else 0.0
  {
    ColumnsDiffer(ts, a, b);
    if id != a { ColumnsDiffer(ts, id, a); }
    if id != b { ColumnsDiffer(ts, id, b); }
  }

  /** Two disjoint planes: both constraints, and one balanced vector that runs the first pair alone. */
  ghost predicate TwoPlanes(ts: Transformations, coordinates: seq<Id>, k: Id, a: Id, b: Id, f: real,
                            m: Id, c: Id, d: Id, g: real)
  {
    && IsPlane(ts, k, a, b, f) && IsPlane(ts, m, c, d, g)
    && a != c && a != d && b != c && b != d
    && (coordinates == [k, m] || coordinates == [m, k])
  }

  lemma BalancedMeansBoth(ts: Transformations, coordinates: seq<Id>, k: Id, m: Id, x: Vec)
    requires (coordinates == [k, m] || coordinates == [m, k]) && |x| == |ts|
    ensures Balanced(ts, coordinates, x) <==>
            Dot(FlowRow(ts, k), x, |ts|) == 0.0 && Dot(FlowRow(ts, m), x, |ts|) == 0.0
  {
    if Balanced(ts, coordinates, x) {
      assert Dot(FlowRow(ts, coordinates[0]), x, |ts|) == 0.0;
      assert Dot(FlowRow(ts, coordinates[1]), x, |ts|) == 0.0;
    }
  }

  lemma RatioAt(ts: Transformations, coordinates: seq<Id>, a: Id, e: Id, ratio: real, u: Vec)
    requires a in ts && e in ts && CoupledBy(ts, coordinates, a, e, ratio) && Balanced(ts, coordinates, u)
    ensures ratio != 0.0 && u[Column(ts, e)] == ratio * u[Column(ts, a)]
  {
  }

  lemma FirstPairAlone(ts: Transformations, coordinates: seq<Id>, k: Id, a: Id, b: Id, f: real,
                       m: Id, c: Id, d: Id, g: real)
    requires TwoPlanes(ts, coordinates, k, a, b, f, m, c, d, g)
    ensures Balanced(ts, coordinates, Witness(ts, a, b, f))
  {
    var u := Witness(ts, a, b, f);
    WitnessEntries(ts, a, b, f, a);
    WitnessEntries(ts, a, b, f, b);
    WitnessEntries(ts, a, b, f, c);
    WitnessEntries(ts, a, b, f, d);
    PlaneBalance(ts, k, a, b, f, u);
    PlaneBalance(ts, m, c, d, g, u);
    BalancedMeansBoth(ts, coordinates, k, m, u);
  }

  lemma FirstPairCoupled(ts: Transformations, coordinates: seq<Id>, k: Id, a: Id, b: Id, f: real,
                         m: Id, c: Id, d: Id, g: real)
    requires TwoPlanes(ts, coordinates, k, a, b, f, m, c, d, g)
    ensures CoupledBy(ts, coordinates, a, b, f)
  {
    forall x: Vec | Balanced(ts, coordinates, x) ensures x[Column(ts, b)] == f * x[Column(ts, a)] {
      PlaneBalance(ts, k, a, b, f, x);
      BalancedMeansBoth(ts, coordinates, k, m, x);
    }
  }

  /** Whatever is coupled to a is b, and by the ratio f. */
  lemma FirstPairOnly(ts: Transformations, coordinates: seq<Id>, k: Id, a: Id, b: Id, f: real,
                      m: Id, c: Id, d: Id, g: real, e: Id, ratio: real)
    requires TwoPlanes(ts, coordinates, k, a, b, f, m, c, d, g)
    requires e in ts && e != a && CoupledBy(ts, coordinates, a, e, ratio)
    ensures e == b && ratio == f
  {
    var u := Witness(ts, a, b, f);
    FirstPairAlone(ts, coordinates, k, a, b, f, m, c, d, g);
    WitnessEntries(ts, a, b, f, a);
    WitnessEntries(ts, a, b, f, e);
    RatioAt(ts, coordinates, a, e, ratio, u);
  }

  lemma FirstPairUnblocked(ts: Transformations, coordinates: seq<Id>, k: Id, a: Id, b: Id, f: real,
                           m: Id, c: Id, d: Id, g: real)
    requires TwoPlanes(ts, coordinates, k, a, b, f, m, c, d, g)
    ensures !Blocked(ts, coordinates, a) && !Blocked(ts, coordinates, b)
  {
    FirstPairAlone(ts, coordinates, k, a, b, f, m, c, d, g);
    WitnessEntries(ts, a, b, f, a);
    WitnessEntries(ts, a, b, f, b);
  }

  /** Classes whose members are the coupled pairs of a and b alone contain the class [a, b]. */
  lemma PairClass(ts: Transformations, coordinates: seq<Id>, classes: seq<seq<Id>>, a: Id, b: Id) returns (p: nat)
    requires AreCoupledClasses(ts, coordinates, classes)
    requires a in ts && b in ts && Below(a, b)
    requires !Blocked(ts, coordinates, a) && !Blocked(ts, coordinates, b) && Coupled(ts, coordinates, a, b)
    requires forall e :: e in ts && e != a && Coupled(ts, coordinates, a, e) ==> e == b
    ensures p < |classes| && classes[p] == [a, b]
  {
    BelowIsIrreflexive(a);
    assert Together(classes, a, b);
    p :| 0 <= p < |classes| && a in classes[p] && b in classes[p];
    forall e | e in classes[p] && e != a ensures e == b {
      assert Together(classes, a, e);
    }
    SortedUnique(classes[p], [a, b]);
  }

  lemma FirstPairClass(ts: Transformations, coordinates: seq<Id>, k: Id, a: Id, b: Id, f: real,
                       m: Id, c: Id, d: Id, g: real, classes: seq<seq<Id>>) returns (p: nat)
    requires TwoPlanes(ts, coordinates, k, a, b, f, m, c, d, g) && Below(a, b)
    requires AreCoupledClasses(ts, coordinates, classes)
    ensures p < |classes| && classes[p] == [a, b]
  {
    FirstPairUnblocked(ts, coordinates, k, a, b, f, m, c, d, g);
    FirstPairCoupled(ts, coordinates, k, a, b, f, m, c, d, g);
    forall e | e in ts && e != a && Coupled(ts, coordinates, a, e) ensures e == b {
      var ratio :| CoupledBy(ts, coordinates, a, e, ratio);
      FirstPairOnly(ts, coordinates, k, a, b, f, m, c, d, g, e, ratio);
    }
    p := PairClass(ts, coordinates, classes, a, b);
  }

  lemma ClashHasPlanes(ids: set<Id>, a: Id, b: Id, c: Id, d: Id)
    requires {a, b, c, d} <= ids && a != b && c != d && a != c && a != d && b != c && b != d
    ensures TwoPlanes(ClashFlows(ids, a, b, c, d), PLANES, "x", a, b, 2.0, "y", c, d, 3.0)
    ensures TwoPlanes(ClashFlows(ids, a, b, c, d), PLANES, "y", c, d, 3.0, "x", a, b, 2.0)
  {
    var ts := ClashFlows(ids, a, b, c, d);
    PlaneFlows(a, b, c, d);
    assert IsPlane(ts, "x", a, b, 2.0);
    assert IsPlane(ts, "y", c, d, 3.0);
  }

  lemma PlaneFlows(a: Id, b: Id, c: Id, d: Id)
    requires a != b && c != d && a != c && a != d && b != c && b != d
    ensures Flow(FlowsOf(a, b, c, d, a), "x") == 2.0 && Flow(FlowsOf(a, b, c, d, b), "x") == -1.0
    ensures Flow(FlowsOf(a, b, c, d, c), "y") == 3.0 && Flow(FlowsOf(a, b, c, d, d), "y") == -1.0
    ensures forall id :: id != a && id != b ==> Flow(FlowsOf(a, b, c, d, id), "x") == 0.0
    ensures forall id :: id != c && id != d ==> Flow(FlowsOf(a, b, c, d, id), "y") == 0.0
  {
    assert "x"[0] != "y"[0];
  }

  lemma ReadRatio(ts: Transformations, coordinates: seq<Id>, report: Report, a: Id, b: Id, p: nat)
    requires IsCouplingReport(ts, coordinates, report) && Faithful(ts, coordinates, report)
    requires p < |report.classes| && report.classes[p] == [a, b]
    ensures a in ts && b in ts && Key(a, b) in report.ratios
    ensures CoupledBy(ts, coordinates, a, b, report.ratios[Key(a, b)])
  {
    var classes := report.classes;
    assert 0 <= p < |classes| && 0 < 1 < |classes[p]| && classes[p][0] == a && classes[p][1] == b;
    assert AreRatios(ts, coordinates, classes, report.ratios);
  }

  /** Two couplings that share a key cannot both find their ratio under it. */
  lemma ClashIsUnfaithful(ids: set<Id>, a: Id, b: Id, c: Id, d: Id, report: Report)
    requires Clash(ids, a, b, c, d)
    requires IsCouplingReport(ClashFlows(ids, a, b, c, d), PLANES, report)
    ensures !Faithful(ClashFlows(ids, a, b, c, d), PLANES, report)
  {
    var ts := ClashFlows(ids, a, b, c, d);
    BelowIsIrreflexive(a);
    BelowIsIrreflexive(c);
    ClashHasPlanes(ids, a, b, c, d);
    var p := FirstPairClass(ts, PLANES, "x", a, b, 2.0, "y", c, d, 3.0, report.classes);
    var q := FirstPairClass(ts, PLANES, "y", c, d, 3.0, "x", a, b, 2.0, report.classes);
    if Faithful(ts, PLANES, report) {
      ReadRatio(ts, PLANES, report, a, b, p);
      ReadRatio(ts, PLANES, report, c, d, q);
      var ratio := report.ratios[Key(a, b)];
      FirstPairOnly(ts, PLANES, "x", a, b, 2.0, "y", c, d, 3.0, b, ratio);
      FirstPairOnly(ts, PLANES, "y", c, d, 3.0, "x", a, b, 2.0, d, ratio);
      assert false;
    }
  }

  /** The reported ratios are right for every choice of flows provided no two disjoint pairs join to one key. */
  lemma RatiosFaithfulWithoutClash(ids: set<Id>)
    requires NoClash(ids)
    ensures forall ts: Transformations, coordinates, report ::
              ts.Keys == ids && IsCouplingReport(ts, coordinates, report) ==> Faithful(ts, coordinates, report)
  {
    forall ts: Transformations, coordinates, report | ts.Keys == ids && IsCouplingReport(ts, coordinates, report)
      ensures Faithful(ts, coordinates, report)
    {
      NoClashIsFaithful(ts, coordinates, report);
    }
  }

  /** Conversely, for every set with a clash the analysis run on ClashFlows reports a wrong ratio. */
  method MisreportOnClash(ids: set<Id>, a: Id, b: Id, c: Id, d: Id) returns (report: Report)
    requires Clash(ids, a, b, c, d)
    ensures IsCouplingReport(ClashFlows(ids, a, b, c, d), PLANES, report)
    ensures !Faithful(ClashFlows(ids, a, b, c, d), PLANES, report)
  {
    report := ExactFluxCoupling(ClashFlows(ids, a, b, c, d), PLANES);
    ClashIsUnfaithful(ids, a, b, c, d, report);
  }

  lemma SeparatorInside(a: Id, b: Id, c: Id, d: Id)
    requires Key(a, b) == Key(c, d) && |a| < |c|
    ensures '|' in c
  {
    assert c[|a|] == Key(c, d)[|a|] == Key(a, b)[|a|];
  }

  /** Identifiers free of the separator never clash. */
  lemma NoSeparatorNoClash(ids: set<Id>)
    requires forall id :: id in ids ==> '|' !in id
    ensures NoClash(ids)
  {
    forall a, b, c, d ensures !Clash(ids, a, b, c, d) {
      if {a, b, c, d} <= ids && Key(a, b) == Key(c, d) {
        assert '|' !in a && '|' !in c;
        if |a| < |c| {
          SeparatorInside(a, b, c, d);
        } else if |c| < |a| {
          SeparatorInside(c, d, a, b);
        } else {
          assert a == Key(a, b)[..|a|] == Key(c, d)[..|c|] == c;
        }
      }
    }
  }

  lemma SeparatorClashExists()
    ensures Clash({"a", "b|c", "a|b", "c"}, "a", "b|c", "a|b", "c")
  {
    assert Key("a", "b|c") == Key("a|b", "c");
    assert "a"[0] == 'a' && "a|b"[0] == 'a' && "b|c"[0] == 'b' && "c"[0] == 'c';
  }
}
