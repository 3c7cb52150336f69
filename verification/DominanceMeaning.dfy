/** Dominance read off the records: nothing weighs more on any outcome, and something weighs less. */
module DominanceMeaning {
  import opened Ids
  import opened AndOr
  import opened PlannerV4
  import D = Dominance

  // ----- v0.4

  /** What one outcome is compared by. */
  datatype Aspect = Additions | Debt | Time | Cost | Quality | Load | Erosion | Resource(coordinate: Id)

  function Given0(n: Number): real
  {
    if n.Given? then n.value else 0.0
  }

  function UpperOf(i: Interval): real
  {
    if i.Interval? then Given0(i.upper) else 0.0
  }

  function LowerOf(i: Interval): real
  {
    if i.Interval? then Given0(i.lower) else 0.0
  }

  /** How heavily an outcome weighs: upper bounds, counts of what is lost, and what is gained with a minus. */
  function Burden(b: Branch, aspect: Aspect): real
  {
    match aspect
    case Additions => -(|b.mustAdd| as real)
    case Debt => |b.debt| as real
    case Time => UpperOf(b.time)
    case Cost => UpperOf(b.cost)
    case Quality => -LowerOf(b.quality)
    case Load => Given0(b.loadUpper)
    case Erosion => |b.independenceRemoved| as real
    case Resource(k) => if k in b.resources then -LowerOf(b.resources[k]) else 0.0
  }

  /** The same value that is no interval at all, or two intervals in one unit with the bound that counts. */
  predicate Commensurable(l: Interval, r: Interval, bound: Interval -> Number)
  {
    if l.NotAnObject? || r.NotAnObject? then l == r
    else l.unit == r.unit && bound(l).Given? && bound(r).Given?
  }

  function Upper(): Interval -> Number
  {
    (i: Interval) => if i.Interval? then i.upper else Absent
  }

  function Lower(): Interval -> Number
  {
    (i: Interval) => if i.Interval? then i.lower else Absent
  }

  /** The two outcomes can be compared: common units, readable bounds, the same resource coordinates. */
  predicate Comparable(l: Branch, r: Branch)
  {
    && Commensurable(l.time, r.time, Upper()) && Commensurable(l.cost, r.cost, Upper())
    && Commensurable(l.quality, r.quality, Lower())
    && !l.loadUpper.Unreadable? && !r.loadUpper.Unreadable?
    && l.resources.Keys == r.resources.Keys
    && forall k :: k in l.resources ==> Commensurable(l.resources[k], r.resources[k], Lower())
  }

  /** No heavier in any respect. */
  ghost predicate NoHeavier(l: Branch, r: Branch)
  {
    forall aspect :: Burden(l, aspect) <= Burden(r, aspect)
  }

  ghost predicate Lighter(l: Branch, r: Branch)
  {
    exists aspect :: Burden(l, aspect) < Burden(r, aspect)
  }

  lemma CompareByBounds(l: Interval, r: Interval)
    ensures D.Compare(l, r, false).okay <==> Commensurable(l, r, Upper()) && UpperOf(l) <= UpperOf(r)
    ensures D.Compare(l, r, true).okay <==> Commensurable(l, r, Lower()) && LowerOf(l) >= LowerOf(r)
    ensures Commensurable(l, r, Upper()) ==> (D.Compare(l, r, false).changed <==> UpperOf(l) != UpperOf(r))
    ensures Commensurable(l, r, Lower()) ==> (D.Compare(l, r, true).changed <==> LowerOf(l) != LowerOf(r))
  {
  }

  lemma NotWorseMeans(l: Branch, r: Branch)
    ensures D.NotWorse(l, r) <==> Comparable(l, r) && NoHeavier(l, r)
  {
    CompareByBounds(l.time, r.time);
    CompareByBounds(l.cost, r.cost);
    CompareByBounds(l.quality, r.quality);
    if l.resources.Keys == r.resources.Keys {
      forall k | k in l.resources
        ensures D.ResourceOkay(l, r, k) <==>
                Commensurable(l.resources[k], r.resources[k], Lower()) && Burden(l, Resource(k)) <= Burden(r, Resource(k))
      {
        CompareByBounds(l.resources[k], r.resources[k]);
      }
    }
    if Comparable(l, r) && NoHeavier(l, r) {
      assert Burden(l, Additions) <= Burden(r, Additions) && Burden(l, Debt) <= Burden(r, Debt);
      assert Burden(l, Time) <= Burden(r, Time) && Burden(l, Cost) <= Burden(r, Cost);
      assert Burden(l, Quality) <= Burden(r, Quality) && Burden(l, Load) <= Burden(r, Load);
      assert Burden(l, Erosion) <= Burden(r, Erosion);
    }
  }

  lemma BetterMeans(l: Branch, r: Branch)
    requires D.NotWorse(l, r)
    ensures D.Better(l, r) <==> Lighter(l, r)
  {
    NotWorseMeans(l, r);
    CompareByBounds(l.time, r.time);
    CompareByBounds(l.cost, r.cost);
    CompareByBounds(l.quality, r.quality);
    forall k | k in l.resources ensures D.ResourceBetter(l, r, k) <==> Burden(l, Resource(k)) < Burden(r, Resource(k)) {
      assert D.ResourceOkay(l, r, k);
      CompareByBounds(l.resources[k], r.resources[k]);
    }
    if D.Better(l, r) {
      assert || Burden(l, Additions) < Burden(r, Additions) || Burden(l, Debt) < Burden(r, Debt)
             || Burden(l, Time) < Burden(r, Time) || Burden(l, Cost) < Burden(r, Cost)
             || Burden(l, Quality) < Burden(r, Quality) || Burden(l, Load) < Burden(r, Load)
             || Burden(l, Erosion) < Burden(r, Erosion)
             || exists k :: k in l.resources && Burden(l, Resource(k)) < Burden(r, Resource(k));
    }
  }

  /**
   * One candidate of the v0.4 planner dominates another exactly when all four outcomes can be compared, none weighs
   * more in any respect, and some outcome weighs less in some respect.
   */
  lemma DominanceV4ByBurdens(left: D.Profile, right: D.Profile)
    ensures D.DominatesV4(left, right) <==>
            && D.Full(left) && D.Full(right)
            && (forall name: BranchName :: Comparable(left[name], right[name]) && NoHeavier(left[name], right[name]))
            && exists name: BranchName :: Lighter(left[name], right[name])
  {
    if D.Full(left) && D.Full(right) {
      forall name: BranchName
        ensures D.NotWorse(left[name], right[name]) <==> Comparable(left[name], right[name]) && NoHeavier(left[name], right[name])
        ensures D.NotWorse(left[name], right[name]) ==> (D.Better(left[name], right[name]) <==> Lighter(left[name], right[name]))
      {
        NotWorseMeans(left[name], right[name]);
        if D.NotWorse(left[name], right[name]) {
          BetterMeans(left[name], right[name]);
        }
      }
    }
  }

  // ----- v0.5

  /** As above, with every single addition, debt, rollback and independence counted for itself. */
  datatype AspectV5 =
    | TimeV5 | CostV5 | QualityV5 | LoadV5 | Added(id: Id) | Owed(id: Id) | RolledBack(id: Id) | Eroded(id: Id)

  function Indicator(holds: bool): real
  {
    if holds then 1.0 else 0.0
  }

  /** The upper bound, or ten to the eighteenth where there is none. */
  function BoundV5(i: D.IntervalV5): real
  {
    match i
    case Upper(value, _) => value
    case _ => 1000000000000000000.0
  }

  function BurdenV5(b: D.BranchV5, aspect: AspectV5): real
  {
    match aspect
    case TimeV5 => BoundV5(b.time)
    case CostV5 => BoundV5(b.cost)
    case QualityV5 => BoundV5(b.quality)
    case LoadV5 => b.load
    case Added(id) => Indicator(id !in b.mustAdd)
    case Owed(id) => Indicator(id in b.debt)
    case RolledBack(id) => Indicator(id in b.rollback)
    case Eroded(id) => Indicator(id in b.independenceRemoved)
  }

  function UnitV5(i: D.IntervalV5): string
  {
    if i.Upper? then i.unit else if i.Missing? then "missing" else "invalid"
  }

  predicate ComparableV5(l: D.BranchV5, r: D.BranchV5)
  {
    UnitV5(l.time) == UnitV5(r.time) && UnitV5(l.cost) == UnitV5(r.cost) && UnitV5(l.quality) == UnitV5(r.quality)
  }

  ghost predicate NoHeavierV5(l: D.BranchV5, r: D.BranchV5)
  {
    forall aspect :: BurdenV5(l, aspect) <= BurdenV5(r, aspect)
  }

  ghost predicate LighterV5(l: D.BranchV5, r: D.BranchV5)
  {
    exists aspect :: BurdenV5(l, aspect) < BurdenV5(r, aspect)
  }

  lemma NotWorseV5Means(l: D.BranchV5, r: D.BranchV5)
    ensures D.NotWorseV5(l, r) <==> ComparableV5(l, r) && NoHeavierV5(l, r)
  {
    if ComparableV5(l, r) && NoHeavierV5(l, r) {
      assert BurdenV5(l, TimeV5) <= BurdenV5(r, TimeV5) && BurdenV5(l, CostV5) <= BurdenV5(r, CostV5);
      assert BurdenV5(l, QualityV5) <= BurdenV5(r, QualityV5) && BurdenV5(l, LoadV5) <= BurdenV5(r, LoadV5);
      forall id
        ensures (id in r.mustAdd ==> id in l.mustAdd) && (id in l.debt ==> id in r.debt)
        ensures (id in l.rollback ==> id in r.rollback) && (id in l.independenceRemoved ==> id in r.independenceRemoved)
      {
        assert BurdenV5(l, Added(id)) <= BurdenV5(r, Added(id)) && BurdenV5(l, Owed(id)) <= BurdenV5(r, Owed(id));
        assert BurdenV5(l, RolledBack(id)) <= BurdenV5(r, RolledBack(id));
        assert BurdenV5(l, Eroded(id)) <= BurdenV5(r, Eroded(id));
      }
    }
  }

  lemma SmallerLacks(a: set<Id>, b: set<Id>) returns (x: Id)
    requires a < b
    ensures x in b && x !in a
  {
    x :| x in b && x !in a;
  }

  lemma BetterV5Means(l: D.BranchV5, r: D.BranchV5)
    requires D.NotWorseV5(l, r)
    ensures D.BetterV5(l, r) <==> LighterV5(l, r)
  {
    if D.BetterV5(l, r) {
      if r.mustAdd < l.mustAdd {
        var x := SmallerLacks(r.mustAdd, l.mustAdd);
        assert BurdenV5(l, Added(x)) < BurdenV5(r, Added(x));
      } else if l.debt < r.debt {
        var x := SmallerLacks(l.debt, r.debt);
        assert BurdenV5(l, Owed(x)) < BurdenV5(r, Owed(x));
      } else if l.rollback < r.rollback {
        var x := SmallerLacks(l.rollback, r.rollback);
        assert BurdenV5(l, RolledBack(x)) < BurdenV5(r, RolledBack(x));
      } else if l.independenceRemoved < r.independenceRemoved {
        var x := SmallerLacks(l.independenceRemoved, r.independenceRemoved);
        assert BurdenV5(l, Eroded(x)) < BurdenV5(r, Eroded(x));
      } else {
        assert || BurdenV5(l, TimeV5) < BurdenV5(r, TimeV5) || BurdenV5(l, CostV5) < BurdenV5(r, CostV5)
               || BurdenV5(l, QualityV5) < BurdenV5(r, QualityV5) || BurdenV5(l, LoadV5) < BurdenV5(r, LoadV5);
      }
    }
  }

  /** The same for the v0.5 planner: quality too is compared by its upper bound, and sets by their single members. */
  lemma DominanceV5ByBurdens(left: D.ProfileV5, right: D.ProfileV5)
    ensures D.DominatesV5(left, right) <==>
            && D.Full(left) && D.Full(right)
            && (forall name: BranchName :: ComparableV5(left[name], right[name]) && NoHeavierV5(left[name], right[name]))
            && exists name: BranchName :: LighterV5(left[name], right[name])
  {
    if D.Full(left) && D.Full(right) {
      forall name: BranchName
        ensures D.NotWorseV5(left[name], right[name]) <==> ComparableV5(left[name], right[name]) && NoHeavierV5(left[name], right[name])
        ensures D.NotWorseV5(left[name], right[name]) ==> (D.BetterV5(left[name], right[name]) <==> LighterV5(left[name], right[name]))
      {
        NotWorseV5Means(left[name], right[name]);
        if D.NotWorseV5(left[name], right[name]) {
          BetterV5Means(left[name], right[name]);
        }
      }
    }
  }
}
