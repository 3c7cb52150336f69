/** What a strong tree of the earlier planner guarantees in the concrete world. */
module PolicyV3 {
  import opened Ids
  import opened AndOr
  import opened ConcreteRuns
  import opened PlannerV3
  import StableSort

  // ----- the concrete world

  /** All that must be removed, nothing beyond what may be, and at least what must be added. */
  ghost predicate Permitted(b: Branch, removed: set<Id>, added: set<Id>)
  {
    b.mustRemove <= removed <= b.mustRemove + b.mayRemove && b.mustAdd <= added
  }

  /** The lower bound of the change of a coordinate. */
  function LowerChange(b: Branch, k: Id): real
  {
    if k in b.resources && b.resources[k].Interval? then b.resources[k].lower else 0.0
  }

  /** One concrete outcome of a branch: any permitted additions and removals, at least the guaranteed resources. */
  ghost predicate ConcreteStep(c: State, b: Branch, c': State)
  {
    && (exists removed, added :: Permitted(b, removed, added) && c'.states == c.states - removed + added)
    && (forall k :: Level(c'.resources, k) >= Level(c.resources, k) + LowerChange(b, k))
    && c'.units == c.units
  }

  /** The abstract state is a pessimistic account of the concrete one. */
  ghost predicate Under(s: State, c: State)
  {
    s.states <= c.states && s.units == c.units && forall k :: Level(s.resources, k) <= Level(c.resources, k)
  }

  /** Where the interval units match, the projected state lies below every concrete outcome. */
  lemma StepSimulated(s: State, c: State, b: Branch, c': State)
    requires Under(s, c) && ConcreteStep(c, b, c') && forall k :: k in b.resources ==> UnitsAgree(s, b, k)
    ensures Under(Applied(s, b), c')
  {
    var p := Applied(s, b);
    forall k ensures Level(p.resources, k) <= Level(c'.resources, k) {
      assert Level(s.resources, k) <= Level(c.resources, k);
      assert k in Objects(b) <==> k in b.resources && b.resources[k].Interval?;
    }
    assert forall k :: k in Objects(b) ==> k in s.units && s.units[k] == b.resources[k].unit;
    assert p.units == s.units;
  }

  /** The projection is itself a concrete outcome: the bounds are attained. */
  lemma ProjectionHappens(c: State, b: Branch)
    requires forall k :: k in b.resources ==> UnitsAgree(c, b, k)
    ensures ConcreteStep(c, b, Applied(c, b))
  {
    var p := Applied(c, b);
    assert Permitted(b, b.mayRemove + b.mustRemove, b.mustAdd);
    assert p.states == c.states - (b.mayRemove + b.mustRemove) + b.mustAdd;
    assert forall k :: k in Objects(b) ==> k in c.units && c.units[k] == b.resources[k].unit;
    assert p.units == c.units;
  }

  /** A unit already there is kept; otherwise it is that of the interval. */
  lemma UnitsAfter(s: State, b: Branch, k: Id)
    ensures Lookup(Applied(s, b).units, k) ==
            if Lookup(s.units, k).Some? then Lookup(s.units, k)
            else if k in b.resources && b.resources[k].Interval? then Some(b.resources[k].unit) else None
  {
  }

  /** Floors and guards hold. */
  predicate Safe(s: State, floors: map<Id, Floor>, guards: set<Id>)
  {
    guards <= s.states && forall k :: k in floors ==> FloorHolds(s, floors[k], k)
  }

  lemma SafetyTransfers(s: State, c: State, floors: map<Id, Floor>, guards: set<Id>)
    requires Under(s, c) && Safe(s, floors, guards)
    ensures Safe(c, floors, guards)
  {
    forall k | k in floors ensures FloorHolds(c, floors[k], k) {
      assert FloorHolds(s, floors[k], k) && Level(s.resources, k) <= Level(c.resources, k);
    }
  }

  /**
   * What the branch check decides: units match in the state, and every concrete outcome from it keeps floors and guards.
   */
  lemma BranchSafeIffAllOutcomesSafe(s: State, b: Branch, floors: map<Id, Floor>, guards: set<Id>)
    ensures BranchSafe(s, b, floors, guards) <==>
            && (forall k :: k in b.resources ==> UnitsAgree(s, b, k))
            && forall c' :: ConcreteStep(s, b, c') ==> Safe(c', floors, guards)
  {
    if forall k :: k in b.resources ==> UnitsAgree(s, b, k) {
      if BranchSafe(s, b, floors, guards) {
        forall c' | ConcreteStep(s, b, c') ensures Safe(c', floors, guards) {
          StepSimulated(s, s, b, c');
          SafetyTransfers(Applied(s, b), c', floors, guards);
        }
      }
      ProjectionHappens(s, b);
    }
  }

  // ----- what a strong tree is worth

  /** The adversary may answer action a in state c with this move. */
  ghost predicate Answer(r: Registry, c: State, a: Action, move: Move<State>)
  {
    EffectOf(r, a).Some? && move.name in EffectOf(r, a).value && ConcreteStep(c, EffectOf(r, a).value[move.name], move.after)
  }

  /** Actions need their inputs and guards, must leave floors and guards intact, and should reach the targets. */
  ghost function ArenaOf(r: Registry): Arena<State, Action>
  {
    Arena((c: State, a: Action, move: Move<State>) => Answer(r, c, a, move), (a: Action, c: State) => Enabled(a, c),
          (a: Action, c: State) => Safe(c, r.floors, a.authority + a.hazards), (c: State) => r.targets <= c.states)
  }

  ghost function Allowed(r: Registry): (Action, State) -> bool
  {
    (a: Action, s: State) => Eligible(r, a, s)
  }

  ghost function IsUnder(): (State, State) -> bool
  {
    (s: State, c: State) => Under(s, c)
  }

  lemma EligibleStep(r: Registry, a: Action, s: State, c: State, move: Move<State>)
    requires Eligible(r, a, s) && Under(s, c) && Answer(r, c, a, move)
    ensures Safe(move.after, r.floors, a.authority + a.hazards)
    ensures Under(Next(r, s, a, move.name), move.after)
  {
    var b := EffectOf(r, a).value[move.name];
    assert SafeUnder(r, a, move.name, s);
    StepSimulated(s, c, b, move.after);
    SafetyTransfers(Applied(s, b), move.after, r.floors, a.authority + a.hazards);
  }

  lemma ChoicesAreEligible(r: Registry, g: TreeGame, s: State, a: Action)
    requires Plays(r, g, true) && a in g.choices(s)
    ensures Eligible(r, a, s)
  {
    assert PlaysAt(r, g, true, s);
    StableSort.SortMembers(Key(), Accepted(r, r.actions, s, {}));
    AcceptedMembers(r, r.actions, s, {}, a);
  }

  lemma {:induction false} AcceptedMembers(r: Registry, order: seq<Action>, s: State, exhausted: set<Id>, a: Action)
    ensures a in Accepted(r, order, s, exhausted) <==> a in order && MayRun(r, a, s, exhausted)
  {
    if order != [] {
      AcceptedMembers(r, order[..|order| - 1], s, exhausted, a);
      assert order == order[..|order| - 1] + [order[|order| - 1]];
    }
  }

  lemma GameCoversArena(r: Registry, g: TreeGame)
    requires Plays(r, g, true)
    ensures Covers(g, ArenaOf(r), IsUnder(), Allowed(r))
  {
    var w := ArenaOf(r);
    forall s, c, a | IsUnder()(s, c) && Allowed(r)(a, s) ensures CoversAction(g, w, IsUnder(), s, c, a) {
      forall move | w.answers(c, a, move)
        ensures w.safe(a, move.after) && IsUnder()(g.next(s, a, move.name), move.after)
      {
        EligibleStep(r, a, s, c, move);
        PlaysNext(r, g, s, a, move.name);
      }
    }
    forall s, c | IsUnder()(s, c) && g.reached(s) ensures w.won(c) {
      assert PlaysAt(r, g, true, s);
    }
    forall s, a | a in g.choices(s) ensures Allowed(r)(a, s) {
      ChoicesAreEligible(r, g, s, a);
    }
  }

  /** A strong tree wins every concrete run: any branch, any optional effect, any admissible quantity. */
  lemma StrongPolicyWins(r: Registry, g: TreeGame, a: Action, s: State, c: State, depth: nat, visited: set<()>)
    requires Plays(r, g, true) && depth >= 1 && Eligible(r, a, s) && Under(s, c)
    requires Tree(g, s, a, depth, visited).strong
    ensures Wins(ArenaOf(r), Policy(Tree(g, s, a, depth, visited)), c, depth)
  {
    GameCoversArena(r, g);
    StrongTreeWins(g, ArenaOf(r), IsUnder(), Allowed(r), a, s, c, depth, visited);
  }
}
