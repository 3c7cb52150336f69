/** What the four-outcome planner's trees decide, and exactly where cutting off repeated actions loses strategies. */
module PolicyV4Limits {
  import opened Ids
  import opened AndOr
  import opened AndOrStrategies
  import opened AndOrPruning
  import opened PlannerV4
  import opened PolicyV4

  /**
   * A tree of the planner is strong exactly when some strategy, which may remember what was visited, wins every
   * abstract play and never lets a non-repeatable action lead to its own earlier set of states.
   */
  lemma TreeDecidesFreshStrategies(r: Registry, g: PlannerGame, s: State, a: Action, depth: nat, visited: Visited)
    requires Plays(r, g) && depth >= 1
    ensures Tree(g, s, a, depth, visited).strong <==> exists sigma :: ForcesFresh(g, sigma, s, a, visited, depth)
  {
    StrongIffFreshStrategyExists(g, s, a, depth, visited);
  }

  /** A strong tree always comes with an abstract strategy; without pruning and beam the converse holds too. */
  lemma TreeIsExactWithoutPruning(r: Registry, g: PlannerGame, s: State, a: Action, depth: nat, visited: Visited)
    requires Plays(r, g) && depth >= 1
    ensures Tree(g, s, a, depth, visited).strong ==> exists sigma :: Forces(g, sigma, s, a, depth)
    ensures a.repeatable && (forall b :: b in r.actions ==> b.repeatable) ==>
              (Tree(g, s, a, depth, visited).strong <==> exists sigma :: Forces(g, sigma, s, a, depth))
  {
    if Tree(g, s, a, depth, visited).strong {
      StrongWins(g, s, a, depth, visited);
    }
    if a.repeatable && forall b :: b in r.actions ==> b.repeatable {
      forall s', b | b in g.choices(s') ensures g.repeatable(b) {
        assert ActsAs(g, s', b) by {
          assert PlaysAt(r, g, s');
        }
        ChoicesAreRegistered(r, g, s', b);
      }
      assert PlaysAt(r, g, s) && ActsAs(g, s, a);
      StrongIffStrategyExists(g, s, a, depth, visited);
    }
  }

  lemma ChoicesAreRegistered(r: Registry, g: PlannerGame, s: State, b: Action)
    requires Plays(r, g) && b in g.choices(s)
    ensures b in r.actions && Eligible(b, s, r.floors, r.epoch)
  {
    assert PlaysAt(r, g, s);
    AcceptedMembers(ById(r.actions), s, r.floors, r.epoch, b);
    ByIdMembers(r.actions);
  }

  // ----- registries in which only the states matter

  /** No branch adds load. */
  predicate AddsNoLoad(a: Action)
  {
    a.branches.Some? ==> forall name :: name in a.branches.value && Projects(a.branches.value[name]) ==>
                                          ValueOf(a.branches.value[name].loadUpper) <= 0.0
  }

  /** No protected floors, no guards, no added load. */
  predicate OnlyStatesMatter(r: Registry)
  {
    r.floors == map[] && forall a :: a in r.actions ==> a.authority == {} && a.hazards == {} && AddsNoLoad(a)
  }

  ghost predicate HasCapacity(s: State)
  {
    s.load < 1.0
  }

  lemma LoadStays(s: State, a: Action, name: BranchName)
    requires HasCapacity(s) && AddsNoLoad(a)
    ensures HasCapacity(Next(s, a, name))
  {
  }

  lemma StatesAfter(s: State, t: State, a: Action, name: BranchName)
    requires s.states == t.states
    ensures Next(s, a, name).states == Next(t, a, name).states
  {
  }

  lemma EligibleByStates(a: Action, s: State, t: State, epoch: int)
    requires a.authority == {} && a.hazards == {} && AddsNoLoad(a)
    requires s.states == t.states && HasCapacity(t) && Eligible(a, s, map[], epoch)
    ensures Eligible(a, t, map[], epoch)
  {
    forall name ensures SafeUnder(a, name, t, map[]) {
      assert SafeUnder(a, name, s, map[]);
      LoadStays(t, a, name);
    }
  }

  lemma {:induction false} AcceptedByStates(order: seq<Action>, s: State, t: State, epoch: int)
    requires forall a :: a in order ==> a.authority == {} && a.hazards == {} && AddsNoLoad(a)
    requires s.states == t.states && HasCapacity(s) && HasCapacity(t)
    ensures Accepted(order, s, map[], epoch) == Accepted(order, t, map[], epoch)
  {
    if order != [] {
      var a := order[|order| - 1];
      AcceptedByStates(order[..|order| - 1], s, t, epoch);
      assert a in order;
      if Eligible(a, s, map[], epoch) {
        EligibleByStates(a, s, t, epoch);
      } else if Eligible(a, t, map[], epoch) {
        EligibleByStates(a, t, s, epoch);
      }
    }
  }

  lemma StatesDecide(r: Registry, g: PlannerGame)
    requires Plays(r, g) && OnlyStatesMatter(r)
    ensures ViewDecides(g, HasCapacity, (s: State) => s.states)
  {
    var view := (s: State) => s.states;
    ByIdMembers(r.actions);
    forall s, t | HasCapacity(s) && HasCapacity(t) && view(s) == view(t) ensures SameView(g, view, s, t) {
      AcceptedByStates(ById(r.actions), s, t, r.epoch);
      assert PlaysAt(r, g, s) && PlaysAt(r, g, t);
      forall a, name ensures view(g.next(s, a, name)) == view(g.next(t, a, name)) {
        assert ActsAs(g, s, a) && ActsAs(g, t, a);
        StatesAfter(s, t, a, name);
      }
    }
  }

  lemma CapacityIsKept(r: Registry, g: PlannerGame)
    requires Plays(r, g) && OnlyStatesMatter(r)
    ensures Kept(g, HasCapacity)
  {
    forall s, a, name | HasCapacity(s) && a in g.choices(s) ensures HasCapacity(g.next(s, a, name)) {
      ChoicesAreRegistered(r, g, s, a);
      assert PlaysAt(r, g, s) && ActsAs(g, s, a);
      LoadStays(s, a, name);
    }
  }

  lemma KeysShowStates(r: Registry, g: PlannerGame)
    requires Plays(r, g)
    ensures KeyShowsView(g, (s: State) => s.states)
  {
    forall a, b, s, t | g.key(a, s) == g.key(b, t) ensures s.states == t.states {
      assert PlaysAt(r, g, s) && ActsAs(g, s, a);
      assert PlaysAt(r, g, t) && ActsAs(g, t, b);
    }
  }

  /** Where only the states matter, repeated actions or not, strong means exactly that some strategy wins. */
  lemma TreeIsExactWhereOnlyStatesMatter(r: Registry, g: PlannerGame, s: State, a: Action, depth: nat)
    requires Plays(r, g) && OnlyStatesMatter(r) && HasCapacity(s) && a in r.actions && depth >= 1
    ensures Tree(g, s, a, depth, {}).strong <==> exists sigma :: Forces(g, sigma, s, a, depth)
  {
    var view := (s: State) => s.states;
    StatesDecide(r, g);
    CapacityIsKept(r, g);
    KeysShowStates(r, g);
    ViewMakesKeysDecide(g, HasCapacity, view);
    forall name ensures HasCapacity(g.next(s, a, name)) {
      assert PlaysAt(r, g, s) && ActsAs(g, s, a);
      LoadStays(s, a, name);
    }
    PruningLosesNothing(g, HasCapacity, s, a, depth);
  }

  // ----- the visited key ignores resources, so a useful repetition can be cut off

  function Holding(amount: real): State
  {
    State({}, map["stock" := amount], map["stock" := "unit"], {}, 0.0, {}, {}, {})
  }

  function Effect(added: set<Id>, change: real): Branch
  {
    Branch(added, {}, {}, {}, map["stock" := Interval(Some("unit"), Given(change), Given(change))], {}, Absent, {},
           NotAnObject(""), NotAnObject(""), NotAnObject(""))
  }

  function Uniform(id: Id, effect: Branch, repeatable: bool): Action
  {
    Action(id, Some(0), {}, {}, {}, Some(map[Success := effect, Partial := effect, Failure := effect, Timeout := effect]),
           repeatable)
  }

  /** Adds a unit to the stock; not repeatable. */
  function Charge(id: Id): Action
  {
    Uniform(id, Effect({}, 1.0), false)
  }

  /** Reaches the target at the price of two units. */
  const SPEND: Action := Uniform("spend", Effect({"done"}, -2.0), true)

  function Stockroom(id: Id): Registry
  {
    Registry([Charge(id), SPEND], map["stock" := Floor(Some("unit"), 0.0)], 0, {"done"}, 2)
  }

  lemma UniformBranches(id: Id, effect: Branch, repeatable: bool, name: BranchName)
    ensures name in Uniform(id, effect, repeatable).branches.value
    ensures Uniform(id, effect, repeatable).branches.value[name] == effect
  {
    match name
    case Success =>
    case Partial =>
    case Failure =>
    case Timeout =>
  }

  lemma UniformComplete(id: Id, effect: Branch, repeatable: bool)
    requires Projects(effect)
    ensures Complete(Uniform(id, effect, repeatable))
  {
    forall name: BranchName ensures name in Uniform(id, effect, repeatable).branches.value
      ensures Projects(Uniform(id, effect, repeatable).branches.value[name])
    {
      UniformBranches(id, effect, repeatable, name);
    }
  }

  lemma ChargeOnce(id: Id, x: real, name: BranchName)
    ensures Next(Holding(x), Charge(id), name) == Holding(x + 1.0)
  {
    var b := Effect({}, 1.0);
    UniformBranches(id, b, false, name);
    assert Touched(b) == {"stock"};
    assert Projected(Holding(x), b).resources == map["stock" := x + 1.0];
    assert Projected(Holding(x), b).states == {};
  }

  lemma SpendOnce(x: real, name: BranchName)
    ensures Next(Holding(x), SPEND, name).states == {"done"}
    ensures Level(Next(Holding(x), SPEND, name).resources, "stock") == x - 2.0
    ensures Next(Holding(x), SPEND, name).units == Holding(x).units
    ensures Next(Holding(x), SPEND, name).load == 0.0
  {
    var b := Effect({"done"}, -2.0);
    UniformBranches("spend", b, true, name);
    assert Touched(b) == {"stock"};
  }

  lemma ChargeIsEligible(id: Id, x: real)
    requires x >= 0.0
    ensures Eligible(Charge(id), Holding(x), Stockroom(id).floors, 0)
  {
    UniformComplete(id, Effect({}, 1.0), false);
    forall name: BranchName ensures SafeUnder(Charge(id), name, Holding(x), Stockroom(id).floors) {
      ChargeOnce(id, x, name);
    }
  }

  lemma SpendIsSafe(id: Id, x: real, name: BranchName)
    ensures SafeUnder(SPEND, name, Holding(x), Stockroom(id).floors) <==> x >= 2.0
  {
    UniformBranches("spend", Effect({"done"}, -2.0), true, name);
    SpendOnce(x, name);
    assert Next(Holding(x), SPEND, name) == Projected(Holding(x), SPEND.branches.value[name]);
    assert "stock" in Stockroom(id).floors;
  }

  lemma SpendIsEligible(id: Id, x: real)
    ensures Eligible(SPEND, Holding(x), Stockroom(id).floors, 0) <==> x >= 2.0
  {
    UniformComplete("spend", Effect({"done"}, -2.0), true);
    forall name: BranchName ensures SafeUnder(SPEND, name, Holding(x), Stockroom(id).floors) <==> x >= 2.0 {
      SpendIsSafe(id, x, name);
    }
    if Eligible(SPEND, Holding(x), Stockroom(id).floors, 0) {
      assert SafeUnder(SPEND, Success, Holding(x), Stockroom(id).floors);
    }
  }

  lemma {:induction false} AcceptedIsNotLonger(order: seq<Action>, s: State, floors: Floors, epoch: int)
    ensures |Accepted(order, s, floors, epoch)| <= |order|
  {
    if order != [] {
      AcceptedIsNotLonger(order[..|order| - 1], s, floors, epoch);
    }
  }

  lemma StockroomChoices(id: Id, g: PlannerGame, x: real, a: Action)
    requires Plays(Stockroom(id), g) && x >= 0.0
    ensures a in g.choices(Holding(x)) <==> a == Charge(id) || (a == SPEND && x >= 2.0)
  {
    var r := Stockroom(id);
    assert PlaysAt(r, g, Holding(x));
    AcceptedMembers(ById(r.actions), Holding(x), r.floors, 0, a);
    ByIdMembers(r.actions);
    AcceptedIsNotLonger(ById(r.actions), Holding(x), r.floors, 0);
    ChargeIsEligible(id, x);
    SpendIsEligible(id, x);
  }

  /** Charging leads on to one more unit, short of the target, under the same key. */
  lemma StockroomCharge(id: Id, g: PlannerGame, x: real, name: BranchName)
    requires Plays(Stockroom(id), g)
    ensures g.next(Holding(x), Charge(id), name) == Holding(x + 1.0)
    ensures !g.reached(Holding(x)) && g.key(Charge(id), Holding(x)) == (id, {}) && !g.repeatable(Charge(id))
  {
    assert PlaysAt(Stockroom(id), g, Holding(x)) && ActsAs(g, Holding(x), Charge(id));
    ChargeOnce(id, x, name);
    assert "done" !in Holding(x).states;
  }

  lemma SpendingWins(id: Id, g: PlannerGame, x: real)
    requires Plays(Stockroom(id), g)
    ensures AndOrPruning.Wins(g, Holding(x), SPEND, 1)
  {
    forall name: BranchName ensures GoodAt(Free(g), g.next(Holding(x), SPEND, name), SPEND, 1, {}) {
      assert PlaysAt(Stockroom(id), g, Holding(x)) && ActsAs(g, Holding(x), SPEND);
      SpendOnce(x, name);
      assert PlaysAt(Stockroom(id), g, g.next(Holding(x), SPEND, name));
    }
  }

  /** A charge wins if some action wins from one more unit. */
  lemma ChargingWins(id: Id, g: PlannerGame, x: real, c: Action, depth: nat)
    requires Plays(Stockroom(id), g) && x >= 0.0 && depth >= 1
    requires c == Charge(id) || (c == SPEND && x >= 1.0)
    requires AndOrPruning.Wins(g, Holding(x + 1.0), c, depth)
    ensures AndOrPruning.Wins(g, Holding(x), Charge(id), depth + 1)
  {
    var f := Free(g);
    var later := {} + {(id, {})};
    WinsIffForces(g, Holding(x + 1.0), c, depth, later);
    forall name: BranchName ensures GoodAt(f, f.next(Holding(x), Charge(id), name), Charge(id), depth + 1, {}) {
      StockroomCharge(id, g, x, name);
      StockroomCharge(id, g, x + 1.0, name);
      StockroomChoices(id, g, x + 1.0, c);
      ChoiceMakesGood(f, Holding(x + 1.0), Charge(id), depth + 1, {}, c);
    }
  }

  /** Charging twice and then spending wins. */
  lemma SavingWins(id: Id, g: PlannerGame, depth: nat)
    requires Plays(Stockroom(id), g) && depth >= 3
    ensures exists sigma :: Forces(g, sigma, Holding(0.0), Charge(id), depth)
  {
    SpendingWins(id, g, 2.0);
    ChargingWins(id, g, 1.0, SPEND, 1);
    ChargingWins(id, g, 0.0, Charge(id), 2);
    StrongWithMoreDepth(Free(g), Holding(0.0), Charge(id), 3, depth, {});
    WinsIffForces(g, Holding(0.0), Charge(id), depth, {});
  }

  lemma SecondChargeIsCut(id: Id, g: PlannerGame, depth: int, visited: Visited)
    requires Plays(Stockroom(id), g) && (id, {}) in visited
    ensures !StrongAt(g, Holding(1.0), Charge(id), depth, visited)
  {
    if StrongAt(g, Holding(1.0), Charge(id), depth, visited) {
      StockroomCharge(id, g, 1.0, Success);
      StockroomCharge(id, g, 2.0, Success);
      StrongOutcome(g, Holding(1.0), Charge(id), depth, visited, Success);
      var _ := StrongChoice(g, Holding(2.0), Charge(id), depth, visited);
      assert false;
    }
  }

  lemma FirstChargeIsNotStrong(id: Id, g: PlannerGame, depth: nat)
    requires Plays(Stockroom(id), g) && depth >= 1
    ensures !Tree(g, Holding(0.0), Charge(id), depth, {}).strong
  {
    TreeIsStrongAt(g, Holding(0.0), Charge(id), depth, {});
    if StrongAt(g, Holding(0.0), Charge(id), depth, {}) {
      StockroomCharge(id, g, 0.0, Success);
      StockroomCharge(id, g, 1.0, Success);
      StrongOutcome(g, Holding(0.0), Charge(id), depth, {}, Success);
      var c := StrongChoice(g, Holding(1.0), Charge(id), depth, {});
      StockroomChoices(id, g, 1.0, c);
      SecondChargeIsCut(id, g, depth - 1, {} + {(id, {})});
    }
  }

  /** At every depth of three or more the planner calls the second charge a cycle, although a strategy wins. */
  lemma PruningLosesStrategies(id: Id, g: PlannerGame, depth: nat)
    requires Plays(Stockroom(id), g) && depth >= 3
    ensures exists sigma :: Forces(g, sigma, Holding(0.0), Charge(id), depth)
    ensures !Tree(g, Holding(0.0), Charge(id), depth, {}).strong
  {
    SavingWins(id, g, depth);
    FirstChargeIsNotStrong(id, g, depth);
  }

  // ----- the exact condition on the depth and on the identifiers of non-repeatable actions

  ghost predicate Exact(r: Registry, s: State, a: Action, depth: nat)
  {
    Tree(GameOf(r), s, a, depth, {}).strong <==> exists sigma :: Forces(GameOf(r), sigma, s, a, depth)
  }

  /** Only actions with these identifiers may be non-repeatable. */
  predicate RepeatableBut(once: set<Id>, r: Registry, a: Action)
  {
    (!a.repeatable ==> a.id in once) && forall b :: b in r.actions && !b.repeatable ==> b.id in once
  }

  ghost predicate ExactForAll(once: set<Id>, depth: nat)
  {
    forall r, s, a :: RepeatableBut(once, r, a) ==> Exact(r, s, a, depth)
  }

  /** Trees are exact for all registries precisely when nothing is non-repeatable or at most two actions are planned. */
  lemma ExactIffNothingCut(once: set<Id>, depth: nat)
    requires depth >= 1
    ensures ExactForAll(once, depth) <==> once == {} || depth <= 2
  {
    if once == {} || depth <= 2 {
      forall r, s, a | RepeatableBut(once, r, a) ensures Exact(r, s, a, depth) {
        GameOfPlays(r);
        if depth <= 2 {
          NothingToPruneWithinTwo(GameOf(r), s, a, depth);
        } else {
          TreeIsExactWithoutPruning(r, GameOf(r), s, a, depth, {});
        }
      }
    } else {
      var id :| id in once;
      var r := Stockroom(id);
      GameOfPlays(r);
      PruningLosesStrategies(id, GameOf(r), depth);
      assert RepeatableBut(once, r, Charge(id)) && !Exact(r, Holding(0.0), Charge(id), depth);
    }
  }
}
