/** The earlier four-branch planner: its policy trees have no visited set, only a beam. */
module PlannerV3 {
  import opened Ids
  import opened AndOr
  import opened AndOrStrategies
  import opened StableSort

  datatype Interval = NotAnObject | Interval(unit: string, lower: real)

  datatype Branch = Branch(mustAdd: set<Id>, mustRemove: set<Id>, mayRemove: set<Id>, resources: map<Id, Interval>)

  datatype Floor = InvalidFloor | Floor(unit: Option<string>, quantity: real)

  datatype State = State(states: set<Id>, resources: map<Id, real>, units: map<Id, string>)

  datatype Action = Action(id: Id, capability: Id, expires: Option<int>, inputs: set<Id>, authority: set<Id>,
                           hazards: set<Id>)

  type Effect = map<BranchName, Branch>

  /** capabilities name the branch-effect contract they are bound to. */
  datatype Registry = Registry(actions: seq<Action>, capabilities: map<Id, Id>, effects: map<Id, Effect>,
                               floors: map<Id, Floor>, epoch: int, targets: set<Id>, width: nat)

  function Lookup(units: map<Id, string>, k: Id): Option<string>
  {
    if k in units then Some(units[k]) else None
  }

  function Level(resources: map<Id, real>, k: Id): real
  {
    if k in resources then resources[k] else 0.0
  }

  // ----- _apply_branch and _branch_safe

  function Objects(b: Branch): set<Id>
  {
    set k | k in b.resources && b.resources[k].Interval?
  }

  /** Pessimistic states and lower bounds; a unit is only taken over for a coordinate that had none. */
  function Applied(s: State, b: Branch): State
  {
    State(s.states - (b.mayRemove + b.mustRemove) + b.mustAdd,
          map k | k in s.resources.Keys + Objects(b) ::
            Level(s.resources, k) + if k in Objects(b) then b.resources[k].lower else 0.0,
          (map k | k in Objects(b) :: b.resources[k].unit) + s.units)
  }

  predicate UnitsAgree(s: State, b: Branch, k: Id)
    requires k in b.resources
  {
    b.resources[k].Interval? && Lookup(s.units, k) == Some(b.resources[k].unit)
  }

  predicate FloorHolds(s: State, floor: Floor, k: Id)
  {
    floor.Floor? && Lookup(s.units, k) == floor.unit && Level(s.resources, k) >= floor.quantity
  }

  /** Interval units match the state, guards survive, floors hold. */
  predicate BranchSafe(s: State, b: Branch, floors: map<Id, Floor>, guards: set<Id>)
  {
    && (forall k :: k in b.resources ==> UnitsAgree(s, b, k))
    && guards <= Applied(s, b).states
    && (forall k :: k in floors ==> FloorHolds(Applied(s, b), floors[k], k))
  }

  datatype Unsafe =
    | IntervalUnitMismatch(coordinate: Id)
    | AuthorityNotPreserved
    | FloorMalformed(coordinate: Id)
    | FloorUnitMismatch(coordinate: Id)
    | FloorViolation(coordinate: Id)

  /** The reason a single floor gives, if any. */
  function FloorReason(projected: State, floor: Floor, k: Id): Option<Unsafe>
  {
    if floor.InvalidFloor? then Some(FloorMalformed(k))
    else if Lookup(projected.units, k) != floor.unit then Some(FloorUnitMismatch(k))
    else if Level(projected.resources, k) < floor.quantity then Some(FloorViolation(k))
    else None
  }

  /** What makes a branch unsafe, reason by reason. */
  predicate Applies(reason: Unsafe, s: State, b: Branch, floors: map<Id, Floor>, guards: set<Id>)
  {
    match reason
    case IntervalUnitMismatch(k) => k in b.resources && !UnitsAgree(s, b, k)
    case AuthorityNotPreserved => !(guards <= Applied(s, b).states)
    case _ => reason.coordinate in floors
              && FloorReason(Applied(s, b), floors[reason.coordinate], reason.coordinate) == Some(reason)
  }

  lemma SafeMeansNoReason(s: State, b: Branch, floors: map<Id, Floor>, guards: set<Id>)
    ensures BranchSafe(s, b, floors, guards) <==> forall r :: !Applies(r, s, b, floors, guards)
  {
    if forall r :: !Applies(r, s, b, floors, guards) {
      assert !Applies(AuthorityNotPreserved, s, b, floors, guards);
      forall k | k in b.resources ensures UnitsAgree(s, b, k) {
        assert !Applies(IntervalUnitMismatch(k), s, b, floors, guards);
      }
      forall k | k in floors ensures FloorHolds(Applied(s, b), floors[k], k) {
        var reason := FloorReason(Applied(s, b), floors[k], k);
        assert reason.Some? ==> Applies(reason.value, s, b, floors, guards);
      }
    }
  }

  lemma NoReasonApplies(reasons: seq<Unsafe>, s: State, b: Branch, floors: map<Id, Floor>, guards: set<Id>)
    requires forall r :: r in reasons <==> Applies(r, s, b, floors, guards)
    ensures reasons == [] <==> forall r :: !Applies(r, s, b, floors, guards)
  {
    assert reasons != [] ==> reasons[0] in reasons;
  }

  predicate IsIntervalReason(reason: Unsafe, s: State, b: Branch, among: set<Id>)
  {
    reason.IntervalUnitMismatch? && reason.coordinate in among && reason.coordinate in b.resources
    && !UnitsAgree(s, b, reason.coordinate)
  }

  predicate IsFloorReason(reason: Unsafe, projected: State, floors: map<Id, Floor>, among: set<Id>)
  {
    !reason.IntervalUnitMismatch? && !reason.AuthorityNotPreserved? && reason.coordinate in among && reason.coordinate in floors
    && FloorReason(projected, floors[reason.coordinate], reason.coordinate) == Some(reason)
  }

  method IntervalReasons(s: State, b: Branch) returns (reasons: seq<Unsafe>)
    ensures forall r :: r in reasons <==> IsIntervalReason(r, s, b, b.resources.Keys)
  {
    reasons := [];
    var todo := b.resources.Keys;
    while todo != {}
      invariant todo <= b.resources.Keys
      invariant forall r :: r in reasons <==> IsIntervalReason(r, s, b, b.resources.Keys - todo)
      decreases |todo|
    {
      var k :| k in todo;
      if !UnitsAgree(s, b, k) {
        reasons := reasons + [IntervalUnitMismatch(k)];
      }
      todo := todo - {k};
    }
  }

  method FloorReasons(projected: State, floors: map<Id, Floor>) returns (reasons: seq<Unsafe>)
    ensures forall r :: r in reasons <==> IsFloorReason(r, projected, floors, floors.Keys)
  {
    reasons := [];
    var todo := floors.Keys;
    while todo != {}
      invariant todo <= floors.Keys
      invariant forall r :: r in reasons <==> IsFloorReason(r, projected, floors, floors.Keys - todo)
      decreases |todo|
    {
      var k :| k in todo;
      var floor := floors[k];
      if floor.InvalidFloor? {
        reasons := reasons + [FloorMalformed(k)];
      } else if Lookup(projected.units, k) != floor.unit {
        reasons := reasons + [FloorUnitMismatch(k)];
      } else if Level(projected.resources, k) < floor.quantity {
        reasons := reasons + [FloorViolation(k)];
      }
      todo := todo - {k};
    }
  }

  /** Safe exactly without a reason; the reasons are those that apply. */
  method CheckBranch(s: State, b: Branch, floors: map<Id, Floor>, guards: set<Id>)
    returns (safe: bool, reasons: seq<Unsafe>)
    ensures safe <==> BranchSafe(s, b, floors, guards)
    ensures safe <==> reasons == []
    ensures forall r :: r in reasons <==> Applies(r, s, b, floors, guards)
  {
    reasons := IntervalReasons(s, b);
    var projected := Applied(s, b);
    if !(guards <= projected.states) {
      reasons := reasons + [AuthorityNotPreserved];
    }
    var floorReasons := FloorReasons(projected, floors);
    reasons := reasons + floorReasons;
    safe := reasons == [];
    NoReasonApplies(reasons, s, b, floors, guards);
    SafeMeansNoReason(s, b, floors, guards);
  }

  // ----- _eligible

  function EffectOf(r: Registry, a: Action): Option<Effect>
  {
    if a.capability in r.capabilities && r.capabilities[a.capability] in r.effects
    then Some(r.effects[r.capabilities[a.capability]]) else None
  }

  predicate SafeUnder(r: Registry, a: Action, name: BranchName, s: State)
  {
    && EffectOf(r, a).Some? && name in EffectOf(r, a).value
    && BranchSafe(s, EffectOf(r, a).value[name], r.floors, a.authority + a.hazards)
  }

  /** Inputs and guards are present. */
  predicate Enabled(a: Action, s: State)
  {
    a.inputs <= s.states && a.authority <= s.states && a.hazards <= s.states
  }

  /** The hard filter inside a policy tree, where no retry limit is consulted. */
  predicate Eligible(r: Registry, a: Action, s: State)
  {
    && a.expires.Some? && r.epoch <= a.expires.value
    && Enabled(a, s)
    && EffectOf(r, a).Some?
    && forall name :: SafeUnder(r, a, name, s)
  }

  datatype Bound = Bound(action: Action, after: map<BranchName, State>)

  function Next(r: Registry, s: State, a: Action, name: BranchName): State
  {
    if EffectOf(r, a).Some? && name in EffectOf(r, a).value then Applied(s, EffectOf(r, a).value[name]) else s
  }

  ghost predicate IsBound(r: Registry, b: Bound, s: State)
  {
    forall name: BranchName :: name in b.after && b.after[name] == Next(r, s, b.action, name)
  }

  ghost predicate AreBound(r: Registry, bs: seq<Bound>, actions: seq<Action>, s: State)
  {
    |bs| == |actions| && forall i :: 0 <= i < |bs| ==> bs[i].action == actions[i] && IsBound(r, bs[i], s)
  }

  /** Eligible, and not at its retry limit. */
  predicate MayRun(r: Registry, a: Action, s: State, exhausted: set<Id>)
  {
    a.id !in exhausted && Eligible(r, a, s)
  }

  /** The accepted actions, in the order they are examined. */
  function Accepted(r: Registry, order: seq<Action>, s: State, exhausted: set<Id>): seq<Action>
  {
    if order == [] then []
    else
      var last := |order| - 1;
      Accepted(r, order[..last], s, exhausted) + if MayRun(r, order[last], s, exhausted) then [order[last]] else []
  }

  /** The others, in the same order. */
  function Refused(r: Registry, order: seq<Action>, s: State, exhausted: set<Id>): seq<Action>
  {
    if order == [] then []
    else
      var last := |order| - 1;
      Refused(r, order[..last], s, exhausted) + if MayRun(r, order[last], s, exhausted) then [] else [order[last]]
  }

  lemma {:induction false} AcceptedIsNotLonger(r: Registry, order: seq<Action>, s: State, exhausted: set<Id>)
    ensures |Accepted(r, order, s, exhausted)| <= |order|
  {
    if order != [] {
      AcceptedIsNotLonger(r, order[..|order| - 1], s, exhausted);
    }
  }

  datatype Rejection =
    | RetryLimitReached
    | CapabilityMissing
    | Expired
    | ExpiryInvalid
    | InputsUnavailable
    | AuthorityUnavailable
    | HazardUnavailable
    | EffectMissing
    | BranchMissing(name: BranchName)
    | UnsafeBranch(name: BranchName)

  predicate Rejects(reason: Rejection, r: Registry, a: Action, s: State, exhausted: set<Id>)
  {
    match reason
    case RetryLimitReached => a.id in exhausted
    case CapabilityMissing => a.capability !in r.capabilities
    case Expired => a.expires.Some? && a.expires.value < r.epoch
    case ExpiryInvalid => a.expires.None?
    case InputsUnavailable => !(a.inputs <= s.states)
    case AuthorityUnavailable => !(a.authority <= s.states)
    case HazardUnavailable => !(a.hazards <= s.states)
    case EffectMissing => EffectOf(r, a).None?
    case BranchMissing(name) => EffectOf(r, a).Some? && name !in EffectOf(r, a).value
    case UnsafeBranch(name) => EffectOf(r, a).Some? && name in EffectOf(r, a).value && !SafeUnder(r, a, name, s)
  }

  predicate IsBranchReason(reason: Rejection)
  {
    reason.BranchMissing? || reason.UnsafeBranch?
  }

  /** May run exactly when nothing rejects it. */
  lemma NothingRejects(r: Registry, a: Action, s: State, exhausted: set<Id>)
    ensures MayRun(r, a, s, exhausted) <==> forall reason :: !Rejects(reason, r, a, s, exhausted)
  {
    if MayRun(r, a, s, exhausted) {
      forall reason ensures !Rejects(reason, r, a, s, exhausted) {
        if IsBranchReason(reason) {
          assert SafeUnder(r, a, reason.name, s);
        }
      }
    }
    if forall reason :: !Rejects(reason, r, a, s, exhausted) {
      assert !Rejects(RetryLimitReached, r, a, s, exhausted) && !Rejects(EffectMissing, r, a, s, exhausted);
      assert !Rejects(Expired, r, a, s, exhausted) && !Rejects(ExpiryInvalid, r, a, s, exhausted);
      assert !Rejects(InputsUnavailable, r, a, s, exhausted) && !Rejects(AuthorityUnavailable, r, a, s, exhausted);
      assert !Rejects(HazardUnavailable, r, a, s, exhausted);
      forall name ensures SafeUnder(r, a, name, s) {
        assert !Rejects(BranchMissing(name), r, a, s, exhausted) && !Rejects(UnsafeBranch(name), r, a, s, exhausted);
      }
    }
  }

  /** The reason a single branch gives, if any. */
  method ExamineBranch(r: Registry, a: Action, s: State, name: BranchName, exhausted: set<Id>) returns (reasons: seq<Rejection>)
    requires EffectOf(r, a).Some?
    ensures forall x :: x in reasons <==> IsBranchReason(x) && x.name == name && Rejects(x, r, a, s, exhausted)
  {
    reasons := [];
    var effect := EffectOf(r, a).value;
    if name !in effect {
      reasons := [BranchMissing(name)];
    } else {
      var safe, _ := CheckBranch(s, effect[name], r.floors, a.authority + a.hazards);
      if !safe {
        reasons := [UnsafeBranch(name)];
      }
    }
  }

  /** The loop over the four branches. */
  method ExamineBranches(r: Registry, a: Action, s: State, exhausted: set<Id>)
    returns (reasons: seq<Rejection>, after: map<BranchName, State>)
    requires EffectOf(r, a).Some?
    ensures forall x :: x in reasons <==> IsBranchReason(x) && Rejects(x, r, a, s, exhausted)
    ensures after.Keys == EffectOf(r, a).value.Keys
    ensures forall name :: name in after ==> after[name] == Next(r, s, a, name)
  {
    reasons, after := [], map[];
    for i := 0 to |BRANCHES|
      invariant forall x :: x in reasons <==> IsBranchReason(x) && x.name in BRANCHES[..i] && Rejects(x, r, a, s, exhausted)
      invariant after.Keys == set name | name in BRANCHES[..i] && name in EffectOf(r, a).value
      invariant forall name :: name in after ==> after[name] == Next(r, s, a, name)
    {
      var name := BRANCHES[i];
      TakeOneMore(BRANCHES, i);
      var found := ExamineBranch(r, a, s, name, exhausted);
      reasons := reasons + found;
      if name in EffectOf(r, a).value {
        after := after[name := Applied(s, EffectOf(r, a).value[name])];
      }
    }
    assert BRANCHES[..|BRANCHES|] == BRANCHES;
    forall name: BranchName ensures name in BRANCHES {
      AllBranches(name);
    }
  }

  predicate IsStateReason(reason: Rejection)
  {
    reason.InputsUnavailable? || reason.AuthorityUnavailable? || reason.HazardUnavailable?
  }

  predicate IsRecordReason(reason: Rejection)
  {
    !IsBranchReason(reason) && !IsStateReason(reason) && !reason.EffectMissing?
  }

  /** Retry limit, capability and expiry. */
  method RecordReasons(r: Registry, a: Action, s: State, exhausted: set<Id>) returns (reasons: seq<Rejection>)
    ensures forall x :: x in reasons <==> IsRecordReason(x) && Rejects(x, r, a, s, exhausted)
  {
    reasons := [];
    if a.id in exhausted {
      reasons := reasons + [RetryLimitReached];
    }
    if a.capability !in r.capabilities {
      reasons := reasons + [CapabilityMissing];
    }
    if a.expires.None? {
      reasons := reasons + [ExpiryInvalid];
    } else if a.expires.value < r.epoch {
      reasons := reasons + [Expired];
    }
  }

  /** Inputs and guards. */
  method StateReasons(r: Registry, a: Action, s: State, exhausted: set<Id>) returns (reasons: seq<Rejection>)
    ensures forall x :: x in reasons <==> IsStateReason(x) && Rejects(x, r, a, s, exhausted)
  {
    reasons := [];
    if !(a.inputs <= s.states) {
      reasons := reasons + [InputsUnavailable];
    }
    if !(a.authority <= s.states) {
      reasons := reasons + [AuthorityUnavailable];
    }
    if !(a.hazards <= s.states) {
      reasons := reasons + [HazardUnavailable];
    }
  }

  lemma NoMembers(reasons: seq<Rejection>)
    ensures reasons == [] <==> forall x :: x !in reasons
  {
    assert reasons != [] ==> reasons[0] in reasons;
  }

  lemma ExaminedIsBound(r: Registry, a: Action, s: State, after: map<BranchName, State>)
    requires Eligible(r, a, s) && after.Keys == EffectOf(r, a).value.Keys
    requires forall name :: name in after ==> after[name] == Next(r, s, a, name)
    ensures IsBound(r, Bound(a, after), s)
  {
    forall name: BranchName ensures name in after {
      assert SafeUnder(r, a, name, s);
    }
  }

  /** All reasons against one action, together with its successors. */
  method Examine(r: Registry, a: Action, s: State, exhausted: set<Id>)
    returns (reasons: seq<Rejection>, after: map<BranchName, State>)
    ensures forall x :: x in reasons <==> Rejects(x, r, a, s, exhausted)
    ensures reasons == [] <==> MayRun(r, a, s, exhausted)
    ensures reasons == [] ==> IsBound(r, Bound(a, after), s)
  {
    after := map[];
    var recordReasons := RecordReasons(r, a, s, exhausted);
    var stateReasons := StateReasons(r, a, s, exhausted);
    reasons := recordReasons + stateReasons;
    if EffectOf(r, a).None? {
      reasons := reasons + [EffectMissing];
    } else {
      var branchReasons;
      branchReasons, after := ExamineBranches(r, a, s, exhausted);
      reasons := reasons + branchReasons;
    }
    NothingRejects(r, a, s, exhausted);
    NoMembers(reasons);
    if reasons == [] {
      ExaminedIsBound(r, a, s, after);
    }
  }

  /** The entry names the action and lists exactly the reasons against it. */
  ghost predicate Explains(entry: (Id, seq<Rejection>), r: Registry, a: Action, s: State, exhausted: set<Id>)
  {
    entry.0 == a.id && forall x :: x in entry.1 <==> Rejects(x, r, a, s, exhausted)
  }

  ghost predicate ExplainAll(r: Registry, entries: seq<(Id, seq<Rejection>)>, actions: seq<Action>, s: State, exhausted: set<Id>)
  {
    |entries| == |actions| && forall i :: 0 <= i < |entries| ==> Explains(entries[i], r, actions[i], s, exhausted)
  }

  /** Every action is accepted with its successors or rejected with exactly the reasons against it. */
  method Filter(r: Registry, s: State, exhausted: set<Id>)
    returns (accepted: seq<Bound>, rejected: seq<(Id, seq<Rejection>)>)
    ensures AreBound(r, accepted, Accepted(r, r.actions, s, exhausted), s)
    ensures ExplainAll(r, rejected, Refused(r, r.actions, s, exhausted), s, exhausted)
  {
    accepted, rejected := [], [];
    for i := 0 to |r.actions|
      invariant AreBound(r, accepted, Accepted(r, r.actions[..i], s, exhausted), s)
      invariant ExplainAll(r, rejected, Refused(r, r.actions[..i], s, exhausted), s, exhausted)
    {
      var a := r.actions[i];
      assert r.actions[..i + 1][..i] == r.actions[..i];
      var reasons, after := Examine(r, a, s, exhausted);
      if reasons == [] {
        accepted := accepted + [Bound(a, after)];
      } else {
        rejected := rejected + [(a.id, reasons)];
      }
    }
    assert r.actions[..|r.actions|] == r.actions;
  }

  // ----- _policy_tree

  type TreeGame = Game<State, Action, ()>

  function Key(): Action -> Id
  {
    (a: Action) => a.id
  }

  function BoundKey(): Bound -> Id
  {
    (b: Bound) => b.action.id
  }

  /** The eligible actions by identifier, and the same after the beam cut. */
  function Choices(r: Registry, s: State, cut: bool): seq<Action>
  {
    var accepted := SortBy(Key(), Accepted(r, r.actions, s, {}));
    if cut && r.width < |accepted| then accepted[..r.width] else accepted
  }

  lemma {:induction false} InsertedAreBound(r: Registry, bs: seq<Bound>, actions: seq<Action>, s: State, b: Bound)
    requires AreBound(r, bs, actions, s) && IsBound(r, b, s)
    ensures AreBound(r, InsertBy(BoundKey(), bs, b), InsertBy(Key(), actions, b.action), s)
  {
    if bs != [] && Below(b.action.id, actions[|actions| - 1].id) {
      InsertedAreBound(r, bs[..|bs| - 1], actions[..|actions| - 1], s, b);
    }
  }

  /** Sorting the accepted actions together with their successors. */
  lemma {:induction false} SortedAreBound(r: Registry, bs: seq<Bound>, actions: seq<Action>, s: State)
    requires AreBound(r, bs, actions, s)
    ensures AreBound(r, SortBy(BoundKey(), bs), SortBy(Key(), actions), s)
  {
    if bs != [] {
      var last := |bs| - 1;
      SortedAreBound(r, bs[..last], actions[..last], s);
      InsertedAreBound(r, SortBy(BoundKey(), bs[..last]), SortBy(Key(), actions[..last]), s, bs[last]);
    }
  }

  /** The beam considers eligible actions only, in increasing order of identifier, and all of them when it does not cut. */
  lemma ChoicesInOrder(r: Registry, s: State, cut: bool)
    ensures forall i, j :: 0 <= i < j < |Choices(r, s, cut)| ==>
      Choices(r, s, cut)[i].id == Choices(r, s, cut)[j].id || Below(Choices(r, s, cut)[i].id, Choices(r, s, cut)[j].id)
    ensures cut ==> |Choices(r, s, cut)| <= r.width
    ensures !cut || |Accepted(r, r.actions, s, {})| <= r.width ==>
              forall a :: a in Choices(r, s, cut) <==> a in Accepted(r, r.actions, s, {})
  {
    var accepted := Accepted(r, r.actions, s, {});
    SortMembers(Key(), accepted);
    SortIsStable(Key(), accepted, "");
    var sorted := SortBy(Key(), accepted);
    forall i, j | 0 <= i < j < |sorted| ensures sorted[i].id == sorted[j].id || Below(sorted[i].id, sorted[j].id) {
      assert Key()(sorted[i]) == Key()(sorted[j]) || Below(Key()(sorted[i]), Key()(sorted[j]));
    }
  }

  function GameOf(r: Registry, cut: bool): TreeGame
  {
    Game((s: State) => Choices(r, s, cut), (s: State, a: Action, name: BranchName) => Next(r, s, a, name),
         (s: State) => r.targets <= s.states, (a: Action, s: State) => (), (a: Action) => true)
  }

  ghost predicate Plays(r: Registry, g: TreeGame, cut: bool)
  {
    forall s :: PlaysAt(r, g, cut, s)
  }

  ghost predicate PlaysAt(r: Registry, g: TreeGame, cut: bool, s: State)
  {
    && g.choices(s) == Choices(r, s, cut)
    && (g.reached(s) <==> r.targets <= s.states)
    && forall a :: ActsAs(r, g, s, a)
  }

  ghost predicate ActsAs(r: Registry, g: TreeGame, s: State, a: Action)
  {
    g.repeatable(a) && forall name :: g.next(s, a, name) == Next(r, s, a, name)
  }

  lemma GameOfPlays(r: Registry, cut: bool)
    ensures Plays(r, GameOf(r, cut), cut)
  {
    forall s ensures PlaysAt(r, GameOf(r, cut), cut, s) {
      forall a ensures ActsAs(r, GameOf(r, cut), s, a) {
      }
    }
  }

  lemma PlaysNext(r: Registry, g: TreeGame, s: State, a: Action, name: BranchName)
    requires Plays(r, g, true)
    ensures g.next(s, a, name) == Next(r, s, a, name)
  {
    assert PlaysAt(r, g, true, s) && ActsAs(r, g, s, a);
  }

  method BuildTree(r: Registry, ghost g: TreeGame, ghost s: State, b: Bound, depth: int, ghost visited: set<()>)
    returns (node: Node<Action>)
    requires Plays(r, g, true) && IsBound(r, b, s)
    ensures node == Tree(g, s, b.action, depth, visited)
    decreases depth, 1
  {
    var outcomes: map<BranchName, Outcome<Action>> := map[];
    var strong := true;
    for i := 0 to |BRANCHES|
      invariant outcomes.Keys == set name | name in BRANCHES[..i]
      invariant forall name :: name in outcomes ==>
                                 outcomes[name] == OutcomeAt(g, g.next(s, b.action, name), b.action, depth, visited)
      invariant strong <==> forall name :: name in outcomes ==> Good(outcomes[name])
    {
      var name := BRANCHES[i];
      assert BRANCHES[..i + 1] == BRANCHES[..i] + [name];
      assert name !in outcomes;
      PlaysNext(r, g, s, b.action, name);
      var outcome := BuildOutcome(r, g, b.after[name], b.action, depth, visited);
      outcomes := outcomes[name := outcome];
      strong := strong && Good(outcome);
    }
    assert BRANCHES[..|BRANCHES|] == BRANCHES;
    TreeFromOutcomes(g, s, b.action, depth, visited, outcomes, strong);
    node := Node(b.action, outcomes, strong);
  }

  method BuildOutcome(r: Registry, ghost g: TreeGame, s: State, ghost a: Action, depth: int, ghost visited: set<()>)
    returns (outcome: Outcome<Action>)
    requires Plays(r, g, true)
    ensures outcome == OutcomeAt(g, s, a, depth, visited)
    decreases depth, 0, 1
  {
    assert PlaysAt(r, g, true, s) && ActsAs(r, g, s, a);
    if r.targets <= s.states {
      return Reached;
    }
    if depth <= 1 {
      return HorizonEnd;
    }
    var children := Choose(r, g, s);
    ghost var later := visited + {g.key(a, s)};
    var nodes := BuildChildren(r, g, s, children, depth - 1, later);
    OutcomeContinues(g, s, a, depth, visited);
    outcome := Continued(nodes);
  }

  method BuildChildren(r: Registry, ghost g: TreeGame, ghost s: State, children: seq<Bound>, depth: int, ghost visited: set<()>)
    returns (nodes: seq<Node<Action>>)
    requires Plays(r, g, true) && depth >= 1 && AreBound(r, children, g.choices(s), s)
    ensures nodes == Children(g, s, g.choices(s), depth, visited)
    decreases depth, 2
  {
    nodes := [];
    for j := 0 to |children|
      invariant |nodes| == j
      invariant forall i :: 0 <= i < j ==> nodes[i] == Tree(g, s, g.choices(s)[i], depth, visited)
    {
      var child := BuildTree(r, g, s, children[j], depth, visited);
      nodes := nodes + [child];
    }
  }

  method Choose(r: Registry, ghost g: TreeGame, s: State) returns (children: seq<Bound>)
    requires Plays(r, g, true)
    ensures AreBound(r, children, g.choices(s), s)
  {
    var accepted, _ := Filter(r, s, {});
    SortedAreBound(r, accepted, Accepted(r, r.actions, s, {}), s);
    accepted := SortBy(BoundKey(), accepted);
    children := if r.width < |accepted| then accepted[..r.width] else accepted;
    assert PlaysAt(r, g, true, s);
  }

  // ----- what strong means

  lemma PlaysNeverBlocks(r: Registry, g: TreeGame, cut: bool)
    requires Plays(r, g, cut)
    ensures NeverBlocks(g) && forall a :: g.repeatable(a)
  {
    forall a ensures g.repeatable(a) {
      var s := State({}, map[], map[]);
      assert PlaysAt(r, g, cut, s) && ActsAs(r, g, s, a);
    }
  }

  /** A strategy of the cut game is one of the full game. */
  lemma CutIsPartOfFull(r: Registry, g: TreeGame, h: TreeGame)
    requires Plays(r, g, true) && Plays(r, h, false)
    ensures Extends(g, h)
    ensures (forall s :: |Accepted(r, r.actions, s, {})| <= r.width) ==> Extends(h, g)
  {
    forall s, a, name ensures g.next(s, a, name) == h.next(s, a, name) {
      assert PlaysAt(r, g, true, s) && PlaysAt(r, h, false, s) && ActsAs(r, g, s, a) && ActsAs(r, h, s, a);
    }
    forall s
      ensures g.reached(s) == h.reached(s) && (forall a :: a in g.choices(s) ==> a in h.choices(s))
      ensures |Accepted(r, r.actions, s, {})| <= r.width ==> g.choices(s) == h.choices(s)
    {
      SortMembers(Key(), Accepted(r, r.actions, s, {}));
      assert PlaysAt(r, g, true, s) && PlaysAt(r, h, false, s);
    }
  }

  /**
   * A strong tree proves that some strategy over all eligible actions wins every abstract play;
   * when the beam never cuts, the tree is strong exactly when such a strategy exists.
   */
  lemma PolicyTreeIsExact(r: Registry, g: TreeGame, h: TreeGame, s: State, a: Action, depth: nat)
    requires Plays(r, g, true) && Plays(r, h, false) && depth >= 1
    ensures Tree(g, s, a, depth, {}).strong ==> exists sigma :: Forces(h, sigma, s, a, depth)
    ensures |r.actions| <= r.width ==>
              (Tree(g, s, a, depth, {}).strong <==> exists sigma :: Forces(h, sigma, s, a, depth))
  {
    PlaysNeverBlocks(r, g, true);
    CutIsPartOfFull(r, g, h);
    StrongIffStrategyExists(g, s, a, depth, {});
    if sigma :| Forces(g, sigma, s, a, depth) {
      ForcesExtends(g, h, sigma, s, a, depth);
    }
    if |r.actions| <= r.width {
      forall s' ensures |Accepted(r, r.actions, s', {})| <= r.width {
        AcceptedIsNotLonger(r, r.actions, s', {});
      }
      if sigma :| Forces(h, sigma, s, a, depth) {
        ForcesExtends(h, g, sigma, s, a, depth);
      }
    }
  }
}
