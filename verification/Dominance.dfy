/** The dominance tests of the v0.4 and v0.5 planners are strict partial orders. */
module Dominance {
  import opened Ids
  import opened AndOr
  import opened PlannerV4
  import Pareto

  // ----- v0.4

  type Profile = map<BranchName, Branch>

  predicate Full<B>(p: map<BranchName, B>)
  {
    forall name: BranchName :: name in p
  }

  datatype Verdict = Verdict(okay: bool, changed: bool)

  /** _interval_not_worse: larger is better on lower bounds, smaller on upper bounds. */
  function Compare(left: Interval, right: Interval, larger: bool): Verdict
  {
    if left.NotAnObject? || right.NotAnObject? then Verdict(left == right, false)
    else if left.unit != right.unit then Verdict(false, false)
    else
      var l := if larger then left.lower else left.upper;
      var r := if larger then right.lower else right.upper;
      if !l.Given? || !r.Given? then Verdict(false, false)
      else Verdict(if larger then l.value >= r.value else l.value <= r.value, l.value != r.value)
  }

  /** left may only replace right where nothing gets worse on this branch. */
  predicate NotWorse(l: Branch, r: Branch)
  {
    && |l.mustAdd| >= |r.mustAdd| && |l.debt| <= |r.debt|
    && Compare(l.time, r.time, false).okay && Compare(l.cost, r.cost, false).okay
    && Compare(l.quality, r.quality, true).okay
    && !l.loadUpper.Unreadable? && !r.loadUpper.Unreadable? && ValueOf(l.loadUpper) <= ValueOf(r.loadUpper)
    && |l.independenceRemoved| <= |r.independenceRemoved|
    && l.resources.Keys == r.resources.Keys
    && forall k :: k in l.resources ==> ResourceOkay(l, r, k)
  }

  /** Something is strictly better on this branch. */
  predicate Better(l: Branch, r: Branch)
    requires NotWorse(l, r)
  {
    || |l.mustAdd| > |r.mustAdd| || |l.debt| < |r.debt|
    || Compare(l.time, r.time, false).changed || Compare(l.cost, r.cost, false).changed
    || Compare(l.quality, r.quality, true).changed
    || ValueOf(l.loadUpper) < ValueOf(r.loadUpper)
    || |l.independenceRemoved| < |r.independenceRemoved|
    || exists k :: k in l.resources && ResourceBetter(l, r, k)
  }

  predicate DominatesV4(left: Profile, right: Profile)
  {
    && Full(left) && Full(right)
    && (forall name: BranchName :: NotWorse(left[name], right[name]))
    && (exists name: BranchName :: Better(left[name], right[name]))
  }

  predicate ResourceOkay(l: Branch, r: Branch, k: Id)
    requires k in l.resources && k in r.resources
  {
    Compare(l.resources[k], r.resources[k], true).okay
  }

  predicate ResourceBetter(l: Branch, r: Branch, k: Id)
    requires k in l.resources && k in r.resources
  {
    Compare(l.resources[k], r.resources[k], true).changed
  }

  /** The loop over the resource intervals. */
  method CompareResources(l: Branch, r: Branch) returns (okay: bool, strict: bool)
    requires l.resources.Keys == r.resources.Keys
    ensures okay <==> forall k :: k in l.resources ==> ResourceOkay(l, r, k)
    ensures okay ==> (strict <==> exists k :: k in l.resources && ResourceBetter(l, r, k))
  {
    okay, strict := true, false;
    var order := Listed(l.resources.Keys);
    for i := 0 to |order|
      invariant forall j :: 0 <= j < i ==> order[j] in l.resources && ResourceOkay(l, r, order[j])
      invariant strict <==> exists j :: 0 <= j < i && order[j] in l.resources && ResourceBetter(l, r, order[j])
    {
      assert order[i] in order;
      var verdict := Compare(l.resources[order[i]], r.resources[order[i]], true);
      if !verdict.okay {
        assert !ResourceOkay(l, r, order[i]);
        return false, strict;
      }
      strict := strict || verdict.changed;
    }
    assert forall k :: k in l.resources <==> k in order;
  }

  method CompareBranch(l: Branch, r: Branch) returns (okay: bool, strict: bool)
    ensures okay <==> NotWorse(l, r)
    ensures okay ==> (strict <==> Better(l, r))
  {
    strict := false;
    if |l.mustAdd| < |r.mustAdd| {
      return false, strict;
    }
    strict := strict || |l.mustAdd| > |r.mustAdd|;
    if |l.debt| > |r.debt| {
      return false, strict;
    }
    strict := strict || |l.debt| < |r.debt|;
    var time := Compare(l.time, r.time, false);
    if !time.okay {
      return false, strict;
    }
    strict := strict || time.changed;
    var cost := Compare(l.cost, r.cost, false);
    if !cost.okay {
      return false, strict;
    }
    strict := strict || cost.changed;
    var quality := Compare(l.quality, r.quality, true);
    if !quality.okay {
      return false, strict;
    }
    strict := strict || quality.changed;
    if l.loadUpper.Unreadable? || r.loadUpper.Unreadable? {
      return false, strict;
    }
    if ValueOf(l.loadUpper) > ValueOf(r.loadUpper) || |l.independenceRemoved| > |r.independenceRemoved| {
      return false, strict;
    }
    strict := strict || ValueOf(l.loadUpper) < ValueOf(r.loadUpper);
    strict := strict || |l.independenceRemoved| < |r.independenceRemoved|;
    if l.resources.Keys != r.resources.Keys {
      return false, strict;
    }
    var resourcesOkay, resourcesStrict := CompareResources(l, r);
    okay := resourcesOkay;
    strict := strict || resourcesStrict;
  }

  /** _dominates of planner_v4 */
  method CheckDominanceV4(left: Profile, right: Profile) returns (strict: bool)
    requires Full(left) && Full(right)
    ensures strict <==> DominatesV4(left, right)
  {
    strict := false;
    for i := 0 to |BRANCHES|
      invariant forall j :: 0 <= j < i ==> NotWorse(left[BRANCHES[j]], right[BRANCHES[j]])
      invariant strict <==> exists j :: 0 <= j < i && Better(left[BRANCHES[j]], right[BRANCHES[j]])
    {
      var okay, better := CompareBranch(left[BRANCHES[i]], right[BRANCHES[i]]);
      if !okay {
        return false;
      }
      strict := strict || better;
    }
    forall name: BranchName ensures NotWorse(left[name], right[name]) {
      AllBranches(name);
    }
    if name: BranchName :| Better(left[name], right[name]) {
      AllBranches(name);
    }
  }

  lemma CompareTransitive(a: Interval, b: Interval, c: Interval, larger: bool)
    requires Compare(a, b, larger).okay && Compare(b, c, larger).okay
    ensures Compare(a, c, larger).okay
    ensures Compare(a, b, larger).changed || Compare(b, c, larger).changed ==> Compare(a, c, larger).changed
  {
  }

  lemma NotWorseTransitive(a: Branch, b: Branch, c: Branch)
    requires NotWorse(a, b) && NotWorse(b, c)
    ensures NotWorse(a, c)
    ensures Better(a, b) || Better(b, c) ==> Better(a, c)
  {
    CompareTransitive(a.time, b.time, c.time, false);
    CompareTransitive(a.cost, b.cost, c.cost, false);
    CompareTransitive(a.quality, b.quality, c.quality, true);
    forall k | k in a.resources
      ensures Compare(a.resources[k], c.resources[k], true).okay
      ensures Compare(a.resources[k], b.resources[k], true).changed || Compare(b.resources[k], c.resources[k], true).changed
              ==> Compare(a.resources[k], c.resources[k], true).changed
    {
      CompareTransitive(a.resources[k], b.resources[k], c.resources[k], true);
    }
  }

  /** Dominance of v0.4 never holds of a candidate and itself and is transitive. */
  lemma DominanceV4IsStrictOrder()
    ensures Pareto.StrictOrder(DominatesV4)
  {
    forall a: Profile, b: Profile, c: Profile | DominatesV4(a, b) && DominatesV4(b, c) ensures DominatesV4(a, c) {
      forall name: BranchName
        ensures NotWorse(a[name], c[name])
        ensures Better(a[name], b[name]) || Better(b[name], c[name]) ==> Better(a[name], c[name])
      {
        NotWorseTransitive(a[name], b[name], c[name]);
      }
      var name: BranchName :| Better(a[name], b[name]);
      assert Better(a[name], c[name]);
    }
  }

  // ----- v0.5

  datatype BranchV5 = BranchV5(mustAdd: set<Id>, time: IntervalV5, cost: IntervalV5, quality: IntervalV5, debt: set<Id>,
                               rollback: set<Id>, independenceRemoved: set<Id>, load: real)

  /** An interval field as _interval_upper reads it. */
  datatype IntervalV5 = Missing | Invalid | Upper(value: real, unit: string)

  type ProfileV5 = map<BranchName, BranchV5>

  const SENTINEL: real := 1000000000000000000.0

  function UpperValue(i: IntervalV5): real
  {
    if i.Upper? then i.value else SENTINEL
  }

  function UpperUnit(i: IntervalV5): string
  {
    match i
    case Missing => "missing"
    case Invalid => "invalid"
    case Upper(_, unit) => unit
  }

  predicate Within(l: IntervalV5, r: IntervalV5)
  {
    UpperUnit(l) == UpperUnit(r) && UpperValue(l) <= UpperValue(r)
  }

  predicate NotWorseV5(l: BranchV5, r: BranchV5)
  {
    && l.mustAdd >= r.mustAdd
    && Within(l.time, r.time) && Within(l.cost, r.cost) && Within(l.quality, r.quality)
    && l.debt <= r.debt && l.rollback <= r.rollback && l.independenceRemoved <= r.independenceRemoved
    && l.load <= r.load
  }

  predicate BetterV5(l: BranchV5, r: BranchV5)
  {
    || l.mustAdd > r.mustAdd
    || UpperValue(l.time) < UpperValue(r.time) || UpperValue(l.cost) < UpperValue(r.cost)
    || UpperValue(l.quality) < UpperValue(r.quality)
    || l.debt < r.debt || l.rollback < r.rollback || l.independenceRemoved < r.independenceRemoved
    || l.load < r.load
  }

  predicate DominatesV5(left: ProfileV5, right: ProfileV5)
  {
    && Full(left) && Full(right)
    && (forall name: BranchName :: NotWorseV5(left[name], right[name]))
    && (exists name: BranchName :: BetterV5(left[name], right[name]))
  }

  /** _dominates of planner_v5 */
  method CheckDominanceV5(left: ProfileV5, right: ProfileV5) returns (better: bool)
    requires Full(left) && Full(right)
    ensures better <==> DominatesV5(left, right)
  {
    better := false;
    for i := 0 to |BRANCHES|
      invariant forall j :: 0 <= j < i ==> NotWorseV5(left[BRANCHES[j]], right[BRANCHES[j]])
      invariant better <==> exists j :: 0 <= j < i && BetterV5(left[BRANCHES[j]], right[BRANCHES[j]])
    {
      var okay, gain := CompareBranchV5(left[BRANCHES[i]], right[BRANCHES[i]]);
      if !okay {
        return false;
      }
      better := better || gain;
    }
    forall name: BranchName ensures NotWorseV5(left[name], right[name]) {
      AllBranches(name);
    }
    if name: BranchName :| BetterV5(left[name], right[name]) {
      AllBranches(name);
    }
  }

  method CompareBranchV5(l: BranchV5, r: BranchV5) returns (okay: bool, gain: bool)
    ensures okay <==> NotWorseV5(l, r)
    ensures okay ==> (gain <==> BetterV5(l, r))
  {
    if !(l.mustAdd >= r.mustAdd) {
      return false, false;
    }
    gain := l.mustAdd > r.mustAdd;
    var fields := [(l.time, r.time), (l.cost, r.cost), (l.quality, r.quality)];
    for i := 0 to |fields|
      invariant forall j :: 0 <= j < i ==> Within(fields[j].0, fields[j].1)
      invariant gain <==> l.mustAdd > r.mustAdd
                          || exists j :: 0 <= j < i && UpperValue(fields[j].0) < UpperValue(fields[j].1)
    {
      if !Within(fields[i].0, fields[i].1) {
        return false, gain;
      }
      gain := gain || UpperValue(fields[i].0) < UpperValue(fields[i].1);
    }
    assert fields[0] == (l.time, r.time) && fields[1] == (l.cost, r.cost) && fields[2] == (l.quality, r.quality);
    if !(l.debt <= r.debt) || !(l.rollback <= r.rollback) || !(l.independenceRemoved <= r.independenceRemoved)
       || l.load > r.load {
      return false, gain;
    }
    gain := gain || l.debt < r.debt || l.rollback < r.rollback || l.independenceRemoved < r.independenceRemoved
            || l.load < r.load;
    okay := true;
  }

  /** Dominance of v0.5, which compares sets by inclusion, is a strict partial order as well. */
  lemma DominanceV5IsStrictOrder()
    ensures Pareto.StrictOrder(DominatesV5)
  {
    forall a: ProfileV5, b: ProfileV5, c: ProfileV5 | DominatesV5(a, b) && DominatesV5(b, c) ensures DominatesV5(a, c) {
      forall name: BranchName
        ensures NotWorseV5(a[name], c[name])
        ensures BetterV5(a[name], b[name]) || BetterV5(b[name], c[name]) ==> BetterV5(a[name], c[name])
      {
        NotWorseV5Transitive(a[name], b[name], c[name]);
      }
      var name: BranchName :| BetterV5(a[name], b[name]);
      assert BetterV5(a[name], c[name]);
    }
  }

  lemma NotWorseV5Transitive(a: BranchV5, b: BranchV5, c: BranchV5)
    requires NotWorseV5(a, b) && NotWorseV5(b, c)
    ensures NotWorseV5(a, c)
    ensures BetterV5(a, b) || BetterV5(b, c) ==> BetterV5(a, c)
  {
  }

  // ----- what this means for the selections

  /**
   * Within the candidate cap the v0.4 planner names a primary exactly when one eligible candidate is left undominated,
   * and that one dominates all others; otherwise it offers two or three incomparable nondominated candidates.
   */
  lemma PrimaryOfPlanV4(items: seq<Profile>, cap: int, p: nat)
    ensures SelectionV4(items, cap).Overflow? <==> |Pareto.Nondominated(items, DominatesV4)| > cap
    ensures SelectionV4(items, cap) == Pareto.Selected(Some(p), []) <==>
            cap >= 1 && Pareto.Nondominated(items, DominatesV4) == [p]
    ensures SelectionV4(items, cap) == Pareto.Selected(Some(p), []) ==>
              p < |items| && forall j :: 0 <= j < |items| && j != p ==> DominatesV4(items[p], items[j])
    ensures SelectionV4(items, cap) == Pareto.Selected(None, []) ==> items == []
    ensures SelectionV4(items, cap).Selected? ==>
              SelectionV4(items, cap).primary.Some? || Pareto.Offered(items, DominatesV4, SelectionV4(items, cap).alternatives)
  {
    DominanceV4IsStrictOrder();
    Pareto.SelectionV4IsExact(items, DominatesV4, cap, p);
  }

  function SelectionV4(items: seq<Profile>, cap: int): Pareto.Selection
  {
    Pareto.SelectV4(items, DominatesV4, cap)
  }

  /** An eligible v0.5 candidate: its branch effects and the states each branch leads to. */
  datatype Candidate = Candidate(branches: ProfileV5, after: map<BranchName, set<Id>>)

  predicate Outranks(a: Candidate, b: Candidate)
  {
    DominatesV5(a.branches, b.branches)
  }

  function ReachesAll(targets: set<Id>): Candidate -> bool
  {
    (c: Candidate) => forall name: BranchName :: name in c.after && targets <= c.after[name]
  }

  /**
   * The v0.5 planner names a primary exactly when one eligible candidate is left undominated and all four
   * branches of that candidate reach the targets.
   */
  lemma PrimaryOfPlanV5(items: seq<Candidate>, front: seq<nat>, targets: set<Id>, p: nat)
    requires NoDuplicates(front)
    requires forall k :: 0 <= k < |front| ==> front[k] < |items|
    requires forall i: nat :: i in front <==> i in Pareto.Nondominated(items, Outranks)
    ensures Pareto.PrimaryOfV5(items, Outranks, front, ReachesAll(targets)) == Some(p) <==>
            && p < |items| && Pareto.Nondominated(items, Outranks) == [p]
            && forall name: BranchName :: name in items[p].after && forall t :: t in targets ==> t in items[p].after[name]
    ensures Pareto.PrimaryOfV5(items, Outranks, front, ReachesAll(targets)) == Some(p) ==>
              forall j :: 0 <= j < |items| && j != p ==> Outranks(items[p], items[j])
  {
    DominanceV5IsStrictOrder();
    assert Pareto.StrictOrder(Outranks) by {
      forall a, b, c | Outranks(a, b) && Outranks(b, c) ensures Outranks(a, c) {
        assert DominatesV5(a.branches, b.branches) && DominatesV5(b.branches, c.branches);
      }
    }
    Pareto.PrimaryV5(items, Outranks, front, ReachesAll(targets), p);
  }
}
