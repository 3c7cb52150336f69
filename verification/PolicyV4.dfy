/** The four-outcome planner's policy trees, and what a strong tree guarantees in the concrete world. */
module PolicyV4 {
  import opened Ids
  import opened AndOr
  import opened ConcreteRuns
  import opened PlannerV4

  type PlannerGame = Game<State, Action, (Id, set<Id>)>

  type Visited = set<(Id, set<Id>)>

  type PolicyNode = Node<Action>

  /** The registry the planner works on. */
  datatype Registry = Registry(actions: seq<Action>, floors: Floors, epoch: int, targets: set<Id>, width: nat)

  /** The first width eligible actions by identifier. */
  function Candidates(r: Registry, s: State): seq<Action>
  {
    var accepted := Accepted(ById(r.actions), s, r.floors, r.epoch);
    if |accepted| <= r.width then accepted else accepted[..r.width]
  }

  function GameOf(r: Registry): PlannerGame
  {
    Game((s: State) => Candidates(r, s), Next, (s: State) => r.targets <= s.states,
         (a: Action, s: State) => (a.id, s.states), (a: Action) => a.repeatable)
  }

  /** g is the game of the registry, state by state. */
  ghost predicate Plays(r: Registry, g: PlannerGame)
  {
    forall s :: PlaysAt(r, g, s)
  }

  ghost predicate PlaysAt(r: Registry, g: PlannerGame, s: State)
  {
    && g.choices(s) == Candidates(r, s)
    && (g.reached(s) <==> r.targets <= s.states)
    && forall a :: ActsAs(g, s, a)
  }

  ghost predicate ActsAs(g: PlannerGame, s: State, a: Action)
  {
    && g.key(a, s) == (a.id, s.states) && g.repeatable(a) == a.repeatable
    && forall name :: g.next(s, a, name) == Next(s, a, name)
  }

  lemma GameOfPlays(r: Registry)
    ensures Plays(r, GameOf(r))
  {
    forall s ensures PlaysAt(r, GameOf(r), s) {
      forall a ensures ActsAs(GameOf(r), s, a) {
      }
    }
  }

  lemma PlaysNext(r: Registry, g: PlannerGame, s: State, a: Action, name: BranchName)
    requires Plays(r, g)
    ensures g.next(s, a, name) == Next(s, a, name)
  {
    assert PlaysAt(r, g, s) && ActsAs(g, s, a);
  }

  // ----- _tree

  /** _tree: one entry per outcome, strong when all of them are good. */
  method BuildTree(r: Registry, ghost g: PlannerGame, ghost s: State, b: Bound, depth: int, visited: Visited)
    returns (node: PolicyNode)
    requires Plays(r, g) && IsBound(b, s)
    ensures node == Tree(g, s, b.action, depth, visited)
    decreases depth, 1
  {
    var outcomes: map<BranchName, Outcome<Action>> := map[];
    var strong := true;
    for i := 0 to |BRANCHES|
      invariant outcomes.Keys == set name | name in BRANCHES[..i]
      invariant forall name :: name in outcomes ==>
                                 outcomes[name] == OutcomeAt(g, g.next(s, b.action, name), b.action, depth, visited)
      invariant strong <==> forall name :: name in outcomes ==> Good(outcomes[name])
    {
      var name := BRANCHES[i];
      assert BRANCHES[..i + 1] == BRANCHES[..i] + [name];
      assert name !in outcomes;
      PlaysNext(r, g, s, b.action, name);
      var outcome := BuildOutcome(r, g, b.after[name], b.action, depth, visited);
      outcomes := outcomes[name := outcome];
      strong := strong && Good(outcome);
    }
    assert BRANCHES[..|BRANCHES|] == BRANCHES;
    TreeFromOutcomes(g, s, b.action, depth, visited, outcomes, strong);
    node := Node(b.action, outcomes, strong);
  }

  method Choose(r: Registry, ghost g: PlannerGame, s: State) returns (children: seq<Bound>)
    requires Plays(r, g)
    ensures AreBound(children, g.choices(s), s)
  {
    var accepted, _ := EligibleActions(r.actions, s, r.floors, r.epoch);
    children := if |accepted| <= r.width then accepted else accepted[..r.width];
    assert PlaysAt(r, g, s);
  }

  method BuildOutcome(r: Registry, ghost g: PlannerGame, s: State, a: Action, depth: int, visited: Visited)
    returns (outcome: Outcome<Action>)
    requires Plays(r, g)
    ensures outcome == OutcomeAt(g, s, a, depth, visited)
    decreases depth, 0, 1
  {
    assert PlaysAt(r, g, s) && ActsAs(g, s, a);
    var key := (a.id, s.states);
    if r.targets <= s.states {
      return Reached;
    }
    if depth <= 1 {
      return HorizonEnd;
    }
    if key in visited && !a.repeatable {
      return NonProgressCycle;
    }
    var children := Choose(r, g, s);
    var nodes := BuildChildren(r, g, s, children, depth - 1, visited + {key});
    OutcomeContinues(g, s, a, depth, visited);
    outcome := Continued(nodes);
  }

  method BuildChildren(r: Registry, ghost g: PlannerGame, ghost s: State, children: seq<Bound>, depth: int,
                       visited: Visited) returns (nodes: seq<PolicyNode>)
    requires Plays(r, g) && depth >= 1 && AreBound(children, g.choices(s), s)
    ensures nodes == Children(g, s, g.choices(s), depth, visited)
    decreases depth, 2
  {
    nodes := [];
    for j := 0 to |children|
      invariant |nodes| == j
      invariant forall i :: 0 <= i < j ==> nodes[i] == Tree(g, s, g.choices(s)[i], depth, visited)
    {
      var child := BuildTree(r, g, s, children[j], depth, visited);
      nodes := nodes + [child];
    }
  }

  // ----- the concrete world

  ghost predicate Permitted(b: Branch, removed: set<Id>, added: set<Id>)
  {
    && b.mustRemove <= removed <= b.mustRemove + b.mayRemove
    && b.mustAdd <= added <= b.mustAdd + b.mayAdd
  }

  /** One concrete outcome of a branch: any permitted additions and removals, at least the guaranteed resources. */
  ghost predicate ConcreteStep(c: State, b: Branch, c': State)
    requires Projects(b)
  {
    && (exists removed, added :: Permitted(b, removed, added) && c'.states == c.states - removed + added)
    && (forall k :: k in Touched(b) ==> Level(c'.resources, k) >= Level(c.resources, k) + LowerChange(b, k))
    && (forall k :: k !in Touched(b) ==> Level(c'.resources, k) == Level(c.resources, k))
    && c'.units == c.units
    && c'.load <= c.load + ValueOf(b.loadUpper)
    && c'.debt <= c.debt + b.debt && c.independence - b.independenceRemoved <= c'.independence
    && c'.authority == c.authority * c'.states
    && c'.hazards == c.hazards * c'.states
  }

  /** The abstract state is a pessimistic account of the concrete one. */
  ghost predicate Under(s: State, c: State)
  {
    && s.states <= c.states && s.authority <= c.authority && s.hazards <= c.hazards
    && s.units == c.units && c.load <= s.load && c.debt <= s.debt && s.independence <= c.independence
    && forall k :: Level(s.resources, k) <= Level(c.resources, k)
  }

  lemma StepSimulated(s: State, c: State, b: Branch, c': State)
    requires Projects(b) && Under(s, c) && ConcreteStep(c, b, c')
    ensures Under(Projected(s, b), c')
  {
    var p := Projected(s, b);
    forall k ensures Level(p.resources, k) <= Level(c'.resources, k) {
      assert Level(s.resources, k) <= Level(c.resources, k);
      assert k in Touched(b) <==> k in b.resources && b.resources[k].Interval?;
    }
  }

  lemma SafetyTransfers(s: State, c: State, floors: Floors, authority: set<Id>, hazards: set<Id>)
    requires Under(s, c) && Safe(s, floors, authority, hazards)
    ensures Safe(c, floors, authority, hazards)
  {
    forall k | k in floors ensures Level(c.resources, k) >= floors[k].quantity {
      assert Level(s.resources, k) <= Level(c.resources, k);
    }
  }

  /** The projection is itself a concrete outcome: the bounds are attained. */
  lemma ProjectionHappens(c: State, b: Branch)
    requires Projects(b)
    ensures ConcreteStep(c, b, Projected(c, b))
  {
    var after := Projected(c, b);
    assert Permitted(b, b.mustRemove + b.mayRemove, b.mustAdd);
    assert after.states == c.states - (b.mustRemove + b.mayRemove) + b.mustAdd;
  }

  /** What the branch check decides: every concrete outcome from the state keeps guards, floors and capacity. */
  lemma BranchSafeIffAllOutcomesSafe(s: State, b: Branch, floors: Floors, authority: set<Id>, hazards: set<Id>)
    requires Projects(b)
    ensures Safe(Projected(s, b), floors, authority, hazards) <==>
            forall c' :: ConcreteStep(s, b, c') ==> Safe(c', floors, authority, hazards)
  {
    if Safe(Projected(s, b), floors, authority, hazards) {
      forall c' | ConcreteStep(s, b, c') ensures Safe(c', floors, authority, hazards) {
        StepSimulated(s, s, b, c');
        SafetyTransfers(Projected(s, b), c', floors, authority, hazards);
      }
    }
    ProjectionHappens(s, b);
  }

  // ----- what a strong tree is worth

  /** The adversary may answer action a in state c with this move. */
  ghost predicate Answer(c: State, a: Action, move: Move<State>)
  {
    && a.branches.Some? && move.name in a.branches.value && Projects(a.branches.value[move.name])
    && ConcreteStep(c, a.branches.value[move.name], move.after)
  }

  /** Actions need their inputs and guards, must leave floors, guards and capacity intact, and should reach the targets. */
  ghost function ArenaOf(r: Registry): Arena<State, Action>
  {
    Arena((c: State, a: Action, move: Move<State>) => Answer(c, a, move), (a: Action, c: State) => Enabled(a, c),
          (a: Action, c: State) => Safe(c, r.floors, a.authority, a.hazards), (c: State) => r.targets <= c.states)
  }

  ghost function Allowed(r: Registry): (Action, State) -> bool
  {
    (a: Action, s: State) => Eligible(a, s, r.floors, r.epoch)
  }

  ghost function IsUnder(): (State, State) -> bool
  {
    (s: State, c: State) => Under(s, c)
  }

  /** Every choice of the game passed the hard filter. */
  lemma ChoicesAreEligible(r: Registry, g: PlannerGame, s: State, a: Action)
    requires Plays(r, g) && a in g.choices(s)
    ensures Eligible(a, s, r.floors, r.epoch)
  {
    assert PlaysAt(r, g, s);
    AcceptedMembers(ById(r.actions), s, r.floors, r.epoch, a);
  }

  /** A move that answers an eligible action is safe, and accounted for by its pessimistic successor. */
  lemma EligibleStep(a: Action, s: State, c: State, floors: Floors, epoch: int, move: Move<State>)
    requires Eligible(a, s, floors, epoch) && Under(s, c) && Answer(c, a, move)
    ensures Safe(move.after, floors, a.authority, a.hazards)
    ensures Under(Next(s, a, move.name), move.after)
  {
    var branch := a.branches.value[move.name];
    StepSimulated(s, c, branch, move.after);
    assert SafeUnder(a, move.name, s, floors);
    SafetyTransfers(Projected(s, branch), move.after, floors, a.authority, a.hazards);
  }

  lemma EnabledTransfers(a: Action, s: State, c: State, floors: Floors, epoch: int)
    requires Eligible(a, s, floors, epoch) && Under(s, c)
    ensures Enabled(a, c)
  {
  }

  lemma GameCoversArena(r: Registry, g: PlannerGame)
    requires Plays(r, g)
    ensures Covers(g, ArenaOf(r), IsUnder(), Allowed(r))
  {
    var w := ArenaOf(r);
    forall s, c, a | IsUnder()(s, c) && Allowed(r)(a, s) ensures CoversAction(g, w, IsUnder(), s, c, a) {
      EnabledTransfers(a, s, c, r.floors, r.epoch);
      forall move | w.answers(c, a, move)
        ensures w.safe(a, move.after) && IsUnder()(g.next(s, a, move.name), move.after)
      {
        EligibleStep(a, s, c, r.floors, r.epoch, move);
        PlaysNext(r, g, s, a, move.name);
      }
    }
    forall s, c | IsUnder()(s, c) && g.reached(s) ensures w.won(c) {
      assert PlaysAt(r, g, s);
    }
    forall s, a | a in g.choices(s) ensures Allowed(r)(a, s) {
      ChoicesAreEligible(r, g, s, a);
    }
  }

  /** A strong tree wins every concrete run: any branch, any optional effect, any admissible quantity. */
  lemma StrongPolicyWins(r: Registry, g: PlannerGame, a: Action, s: State, c: State, depth: nat, visited: Visited)
    requires Plays(r, g) && depth >= 1 && Eligible(a, s, r.floors, r.epoch) && Under(s, c)
    requires Tree(g, s, a, depth, visited).strong
    ensures Wins(ArenaOf(r), Policy(Tree(g, s, a, depth, visited)), c, depth)
  {
    GameCoversArena(r, g);
    StrongTreeWins(g, ArenaOf(r), IsUnder(), Allowed(r), a, s, c, depth, visited);
  }

  /** The adversary always has an answer, so a run only ends where the policy stops. */
  lemma AdversaryAnswers(c: State, a: Action, name: BranchName) returns (after: State)
    requires Complete(a)
    ensures Answer(c, a, Move(name, after))
  {
    assert name in a.branches.value;
    var b := a.branches.value[name];
    after := Projected(c, b);
    ProjectionHappens(c, b);
  }
}
