/** Four-outcome contingent control: pessimistic successors, hard filtering and AND-OR policy trees. */
module PlannerV4 {
  import opened Ids
  import opened AndOr
  import opened StableSort

  /** A quantity field as Fraction reads it: missing, unreadable or a rational. */
  datatype Number = Absent | Unreadable | Given(value: real)

  /** An interval field; json stands for whatever value is there when it is not an object. */
  datatype Interval = NotAnObject(json: string) | Interval(unit: Option<string>, lower: Number, upper: Number)

  datatype Branch = Branch(mustAdd: set<Id>, mayAdd: set<Id>, mustRemove: set<Id>, mayRemove: set<Id>,
                           resources: map<Id, Interval>, debt: set<Id>, loadUpper: Number,
                           independenceRemoved: set<Id>, time: Interval, cost: Interval, quality: Interval)

  datatype State = State(states: set<Id>, resources: map<Id, real>, units: map<Id, string>, debt: set<Id>,
                         load: real, independence: set<Id>, authority: set<Id>, hazards: set<Id>)

  datatype Floor = InvalidFloor | Floor(unit: Option<string>, quantity: real)

  type Floors = map<Id, Floor>

  datatype Action = Action(id: Id, expires: Option<int>, inputs: set<Id>, authority: set<Id>, hazards: set<Id>,
                           branches: Option<map<BranchName, Branch>>, repeatable: bool)

  function Lookup(units: map<Id, string>, coordinate: Id): Option<string>
  {
    if coordinate in units then Some(units[coordinate]) else None
  }

  function Level(resources: map<Id, real>, coordinate: Id): real
  {
    if coordinate in resources then resources[coordinate] else 0.0
  }

  // ----- _branch_state: the pessimistic successor

  /** value or, for a missing field, "0" */
  function ValueOf(n: Number): real
    requires !n.Unreadable?
  {
    if n.Given? then n.value else 0.0
  }

  /** No quantity the projection reads is unreadable. */
  predicate Projects(b: Branch)
  {
    && !b.loadUpper.Unreadable?
    && forall k :: k in b.resources && b.resources[k].Interval? ==> !b.resources[k].lower.Unreadable?
  }

  function LowerChange(b: Branch, coordinate: Id): real
    requires Projects(b)
  {
    if coordinate in b.resources && b.resources[coordinate].Interval?
    then ValueOf(b.resources[coordinate].lower) else 0.0
  }

  function Touched(b: Branch): set<Id>
  {
    set k | k in b.resources && b.resources[k].Interval?
  }

  function Projected(s: State, b: Branch): State
    requires Projects(b)
  {
    var states := s.states - (b.mustRemove + b.mayRemove) + b.mustAdd;
    State(states,
          map k | k in s.resources.Keys + Touched(b) :: Level(s.resources, k) + LowerChange(b, k),
          s.units, s.debt + b.debt, s.load + ValueOf(b.loadUpper), s.independence - b.independenceRemoved,
          s.authority * states, s.hazards * states)
  }

  // ----- _safe_branch

  datatype Unsafe =
    | IntervalInvalid
    | AuthorityNotPreserved
    | HazardNotPreserved
    | FloorInvalid(coordinate: Id)
    | FloorUnitMismatch(coordinate: Id)
    | FloorViolation(coordinate: Id)
    | Overloaded

  /** When each reason applies to the projected state. */
  predicate Applies(r: Unsafe, s: State, floors: Floors, authority: set<Id>, hazards: set<Id>)
  {
    match r
    case IntervalInvalid => false
    case AuthorityNotPreserved => !(authority <= s.authority)
    case HazardNotPreserved => !(hazards <= s.hazards)
    case FloorInvalid(k) => k in floors && floors[k].InvalidFloor?
    case FloorUnitMismatch(k) => k in floors && floors[k].Floor? && Lookup(s.units, k) != floors[k].unit
    case FloorViolation(k) => k in floors && floors[k].Floor? && Lookup(s.units, k) == floors[k].unit
                              && Level(s.resources, k) < floors[k].quantity
    case Overloaded => s.load >= 1.0
  }

  /** Guards held, floors respected in their own unit, verification below capacity. */
  predicate Safe(s: State, floors: Floors, authority: set<Id>, hazards: set<Id>)
  {
    && authority <= s.authority && hazards <= s.hazards
    && (forall k :: k in floors ==> floors[k].Floor? && Lookup(s.units, k) == floors[k].unit
                                    && Level(s.resources, k) >= floors[k].quantity)
    && s.load < 1.0
  }

  predicate IsFloorReason(r: Unsafe)
  {
    r.FloorInvalid? || r.FloorUnitMismatch? || r.FloorViolation?
  }

  /** The reason a single floor gives, if any. */
  function FloorReason(s: State, floor: Floor, k: Id): Option<Unsafe>
  {
    if floor.InvalidFloor? then Some(FloorInvalid(k))
    else if Lookup(s.units, k) != floor.unit then Some(FloorUnitMismatch(k))
    else if Level(s.resources, k) < floor.quantity then Some(FloorViolation(k))
    else None
  }

  /** One of these floors gives the reason. */
  predicate GivenBy(s: State, floors: Floors, coordinates: set<Id>, r: Unsafe)
  {
    IsFloorReason(r) && r.coordinate in coordinates && r.coordinate in floors
    && FloorReason(s, floors[r.coordinate], r.coordinate) == Some(r)
  }

  lemma FloorReasonApplies(s: State, floors: Floors, r: Unsafe)
    ensures IsFloorReason(r) && Applies(r, s, floors, {}, {}) <==>
            IsFloorReason(r) && r.coordinate in floors && FloorReason(s, floors[r.coordinate], r.coordinate) == Some(r)
  {
  }

  /** The loop over the protected floors. */
  method FloorReasons(s: State, floors: Floors) returns (reasons: seq<Unsafe>)
    ensures forall r :: r in reasons <==> IsFloorReason(r) && Applies(r, s, floors, {}, {})
  {
    reasons := [];
    var todo := floors.Keys;
    while todo != {}
      invariant todo <= floors.Keys
      invariant forall r :: r in reasons <==> GivenBy(s, floors, floors.Keys - todo, r)
      decreases |todo|
    {
      var k :| k in todo;
      var reason := FloorReason(s, floors[k], k);
      if reason.Some? {
        reasons := reasons + [reason.value];
      }
      todo := todo - {k};
    }
    forall r ensures r in reasons <==> IsFloorReason(r) && Applies(r, s, floors, {}, {}) {
      FloorReasonApplies(s, floors, r);
    }
  }

  method SafeBranch(s: State, b: Branch, floors: Floors, authority: set<Id>, hazards: set<Id>)
    returns (safe: bool, reasons: seq<Unsafe>, successor: State)
    ensures safe <==> Projects(b) && Safe(Projected(s, b), floors, authority, hazards)
    ensures safe <==> reasons == []
    ensures !Projects(b) ==> reasons == [IntervalInvalid] && successor == s
    ensures Projects(b) ==> successor == Projected(s, b)
    ensures Projects(b) ==> forall r :: r in reasons <==> Applies(r, successor, floors, authority, hazards)
  {
    if !Projects(b) {
      return false, [IntervalInvalid], s;
    }
    successor := Projected(s, b);
    reasons := [];
    if !(authority <= successor.authority) {
      reasons := reasons + [AuthorityNotPreserved];
    }
    if !(hazards <= successor.hazards) {
      reasons := reasons + [HazardNotPreserved];
    }
    var floorReasons := FloorReasons(successor, floors);
    reasons := reasons + floorReasons;
    if successor.load >= 1.0 {
      reasons := reasons + [Overloaded];
    }
    SafeMeansNoReason(successor, floors, authority, hazards);
    assert forall r :: r in reasons <==> Applies(r, successor, floors, authority, hazards);
    EmptyMeansNoMember(reasons);
    safe := reasons == [];
  }

  lemma EmptyMeansNoMember<T(!new)>(s: seq<T>)
    ensures s == [] <==> forall x :: x !in s
  {
    if s != [] {
      assert s[0] in s;
    }
  }

  lemma SafeMeansNoReason(s: State, floors: Floors, authority: set<Id>, hazards: set<Id>)
    ensures Safe(s, floors, authority, hazards) <==> forall r :: !Applies(r, s, floors, authority, hazards)
  {
    if forall r :: !Applies(r, s, floors, authority, hazards) {
      assert !Applies(AuthorityNotPreserved, s, floors, authority, hazards);
      assert !Applies(HazardNotPreserved, s, floors, authority, hazards);
      assert !Applies(Overloaded, s, floors, authority, hazards);
      forall k | k in floors
        ensures floors[k].Floor? && Lookup(s.units, k) == floors[k].unit && Level(s.resources, k) >= floors[k].quantity
      {
        assert !Applies(FloorInvalid(k), s, floors, authority, hazards);
        assert !Applies(FloorUnitMismatch(k), s, floors, authority, hazards);
        assert !Applies(FloorViolation(k), s, floors, authority, hazards);
      }
    }
  }

  // ----- _eligible

  predicate SafeUnder(a: Action, name: BranchName, s: State, floors: Floors)
  {
    && a.branches.Some? && name in a.branches.value
    && Projects(a.branches.value[name])
    && Safe(Projected(s, a.branches.value[name]), floors, a.authority, a.hazards)
  }

  /** All four outcomes are described, with readable quantities. */
  predicate Complete(a: Action)
  {
    a.branches.Some? && forall name: BranchName :: name in a.branches.value && Projects(a.branches.value[name])
  }

  /** The complete hard filter on one action. */
  predicate Eligible(a: Action, s: State, floors: Floors, epoch: int)
  {
    && a.expires.Some? && epoch <= a.expires.value
    && Enabled(a, s)
    && Complete(a)
    && forall name :: SafeUnder(a, name, s, floors)
  }

  /** Inputs and guards are present. */
  predicate Enabled(a: Action, s: State)
  {
    a.inputs <= s.states && a.authority <= s.authority && a.hazards <= s.hazards
  }

  /** An accepted action with its four pessimistic successors. */
  datatype Bound = Bound(action: Action, after: map<BranchName, State>)

  ghost predicate IsBound(b: Bound, s: State)
  {
    forall name: BranchName :: name in b.after && b.after[name] == Next(s, b.action, name)
  }

  /** The pessimistic successor; a state stays as it is where the projection fails. */
  function Next(s: State, a: Action, name: BranchName): State
  {
    if a.branches.Some? && name in a.branches.value && Projects(a.branches.value[name])
    then Projected(s, a.branches.value[name]) else s
  }

  function Key(): Action -> Id
  {
    (a: Action) => a.id
  }

  /** sorted(actions, key=id) */
  function ById(actions: seq<Action>): seq<Action>
  {
    SortBy(Key(), actions)
  }

  /** Actions are examined by identifier, and equal identifiers in the order of the registry. */
  lemma ByIdIsStableSort(actions: seq<Action>, id: Id)
    ensures forall i, j :: 0 <= i < j < |ById(actions)| ==>
      ById(actions)[i].id == ById(actions)[j].id || Below(ById(actions)[i].id, ById(actions)[j].id)
    ensures WithKey(Key(), ById(actions), id) == WithKey(Key(), actions, id)
  {
    SortIsStable(Key(), actions, id);
    var r := ById(actions);
    forall i, j | 0 <= i < j < |r| ensures r[i].id == r[j].id || Below(r[i].id, r[j].id) {
      assert Key()(r[i]) == Key()(r[j]) || Below(Key()(r[i]), Key()(r[j]));
    }
  }

  lemma ByIdMembers(actions: seq<Action>)
    ensures |ById(actions)| == |actions|
    ensures forall a :: a in ById(actions) <==> a in actions
  {
    SortMembers(Key(), actions);
  }

  /** The accepted actions in the order they are examined. */
  function Accepted(order: seq<Action>, s: State, floors: Floors, epoch: int): seq<Action>
  {
    if order == [] then []
    else
      var last := |order| - 1;
      Accepted(order[..last], s, floors, epoch) + if Eligible(order[last], s, floors, epoch) then [order[last]] else []
  }

  lemma {:induction false} AcceptedMembers(order: seq<Action>, s: State, floors: Floors, epoch: int, a: Action)
    ensures a in Accepted(order, s, floors, epoch) <==> a in order && Eligible(a, s, floors, epoch)
  {
    if order != [] {
      AcceptedMembers(order[..|order| - 1], s, floors, epoch, a);
      assert order == order[..|order| - 1] + [order[|order| - 1]];
    }
  }

  /** What the planner keeps of the accepted actions: each with its successors. */
  ghost predicate AreBound(bs: seq<Bound>, actions: seq<Action>, s: State)
  {
    |bs| == |actions| && forall i :: 0 <= i < |bs| ==> bs[i].action == actions[i] && IsBound(bs[i], s)
  }

  datatype Rejection =
    | Expired
    | ExpiryInvalid
    | InputsUnavailable
    | AuthorityUnavailable
    | HazardUnavailable
    | BranchesMissing
    | BranchMissing(name: BranchName)
    | UnsafeBranch(name: BranchName)

  predicate Rejects(r: Rejection, a: Action, s: State, floors: Floors, epoch: int)
  {
    match r
    case Expired => a.expires.Some? && a.expires.value < epoch
    case ExpiryInvalid => a.expires.None?
    case InputsUnavailable => !(a.inputs <= s.states)
    case AuthorityUnavailable => !(a.authority <= s.authority)
    case HazardUnavailable => !(a.hazards <= s.hazards)
    case BranchesMissing => a.branches.None?
    case BranchMissing(name) => a.branches.Some? && name !in a.branches.value
    case UnsafeBranch(name) => a.branches.Some? && name in a.branches.value && !SafeUnder(a, name, s, floors)
  }

  lemma EligibleMeansNoRejection(a: Action, s: State, floors: Floors, epoch: int)
    ensures Eligible(a, s, floors, epoch) <==> forall r :: !Rejects(r, a, s, floors, epoch)
  {
    if Eligible(a, s, floors, epoch) {
      forall r ensures !Rejects(r, a, s, floors, epoch) {
        if r.BranchMissing? || r.UnsafeBranch? {
          assert SafeUnder(a, r.name, s, floors);
        }
      }
    }
    if forall r :: !Rejects(r, a, s, floors, epoch) {
      assert !Rejects(Expired, a, s, floors, epoch) && !Rejects(ExpiryInvalid, a, s, floors, epoch);
      assert !Rejects(InputsUnavailable, a, s, floors, epoch) && !Rejects(BranchesMissing, a, s, floors, epoch);
      assert !Rejects(AuthorityUnavailable, a, s, floors, epoch) && !Rejects(HazardUnavailable, a, s, floors, epoch);
      forall name ensures SafeUnder(a, name, s, floors) && name in a.branches.value && Projects(a.branches.value[name]) {
        assert !Rejects(BranchMissing(name), a, s, floors, epoch) && !Rejects(UnsafeBranch(name), a, s, floors, epoch);
      }
    }
  }

  predicate IsBranchReason(r: Rejection)
  {
    r.BranchMissing? || r.UnsafeBranch?
  }

  /** The loop over the four outcomes. */
  method ExamineBranches(a: Action, s: State, floors: Floors, epoch: int)
    returns (reasons: seq<Rejection>, after: map<BranchName, State>)
    requires a.branches.Some?
    ensures forall r :: r in reasons <==> IsBranchReason(r) && Rejects(r, a, s, floors, epoch)
    ensures after.Keys == a.branches.value.Keys
    ensures forall name :: name in after && Projects(a.branches.value[name]) ==>
                             after[name] == Projected(s, a.branches.value[name])
  {
    reasons, after := [], map[];
    for i := 0 to |BRANCHES|
      invariant forall r :: r in reasons <==>
                              IsBranchReason(r) && r.name in BRANCHES[..i] && Rejects(r, a, s, floors, epoch)
      invariant after.Keys == set name | name in BRANCHES[..i] && name in a.branches.value
      invariant forall name :: name in after && Projects(a.branches.value[name]) ==>
                                 after[name] == Projected(s, a.branches.value[name])
    {
      var name := BRANCHES[i];
      assert BRANCHES[..i + 1] == BRANCHES[..i] + [name];
      assert name !in BRANCHES[..i];
      if name !in a.branches.value {
        reasons := reasons + [BranchMissing(name)];
      } else {
        var safe, _, successor := SafeBranch(s, a.branches.value[name], floors, a.authority, a.hazards);
        after := after[name := successor];
        if !safe {
          reasons := reasons + [UnsafeBranch(name)];
        }
      }
    }
    assert BRANCHES[..|BRANCHES|] == BRANCHES;
    forall name: BranchName ensures name in BRANCHES {
      AllBranches(name);
    }
  }

  /** Expiry, inputs and guards. */
  method GuardReasons(a: Action, s: State, epoch: int) returns (reasons: seq<Rejection>)
    ensures forall r :: r in reasons <==> !IsBranchReason(r) && !r.BranchesMissing? && Rejects(r, a, s, map[], epoch)
  {
    reasons := [];
    if a.expires.None? {
      reasons := reasons + [ExpiryInvalid];
    } else if a.expires.value < epoch {
      reasons := reasons + [Expired];
    }
    if !(a.inputs <= s.states) {
      reasons := reasons + [InputsUnavailable];
    }
    if !(a.authority <= s.authority) {
      reasons := reasons + [AuthorityUnavailable];
    }
    if !(a.hazards <= s.hazards) {
      reasons := reasons + [HazardUnavailable];
    }
  }

  /** All reasons against one action, together with its successors. */
  method Examine(a: Action, s: State, floors: Floors, epoch: int)
    returns (reasons: seq<Rejection>, after: map<BranchName, State>)
    ensures forall r :: r in reasons <==> Rejects(r, a, s, floors, epoch)
    ensures reasons == [] <==> Eligible(a, s, floors, epoch)
    ensures reasons == [] ==> IsBound(Bound(a, after), s)
  {
    after := map[];
    reasons := GuardReasons(a, s, epoch);
    if a.branches.None? {
      reasons := reasons + [BranchesMissing];
    } else {
      var branchReasons;
      branchReasons, after := ExamineBranches(a, s, floors, epoch);
      reasons := reasons + branchReasons;
    }
    EligibleMeansNoRejection(a, s, floors, epoch);
    EmptyMeansNoMember(reasons);
  }

  ghost predicate IsRejection(entry: (Id, seq<Rejection>), actions: seq<Action>, s: State, floors: Floors, epoch: int)
  {
    exists a :: a in actions && RejectedWith(entry, a, s, floors, epoch)
  }

  ghost predicate RejectedWith(entry: (Id, seq<Rejection>), a: Action, s: State, floors: Floors, epoch: int)
  {
    a.id == entry.0 && entry.1 != [] && forall r :: r in entry.1 <==> Rejects(r, a, s, floors, epoch)
  }

  method FilterActions(order: seq<Action>, s: State, floors: Floors, epoch: int)
    returns (accepted: seq<Bound>, rejected: seq<(Id, seq<Rejection>)>)
    ensures AreBound(accepted, Accepted(order, s, floors, epoch), s)
    ensures |accepted| + |rejected| == |order|
    ensures forall i :: 0 <= i < |rejected| ==> IsRejection(rejected[i], order, s, floors, epoch)
  {
    accepted, rejected := [], [];
    for i := 0 to |order|
      invariant AreBound(accepted, Accepted(order[..i], s, floors, epoch), s)
      invariant |accepted| + |rejected| == i
      invariant forall j :: 0 <= j < |rejected| ==> IsRejection(rejected[j], order, s, floors, epoch)
    {
      var a := order[i];
      assert order[..i + 1][..i] == order[..i];
      var reasons, after := Examine(a, s, floors, epoch);
      if reasons != [] {
        assert RejectedWith((a.id, reasons), a, s, floors, epoch);
        rejected := rejected + [(a.id, reasons)];
      } else {
        accepted := accepted + [Bound(a, after)];
      }
    }
    assert order[..|order|] == order;
  }

  /** _eligible: the accepted actions by identifier, and every rejected one with exactly its reasons. */
  method EligibleActions(actions: seq<Action>, s: State, floors: Floors, epoch: int)
    returns (accepted: seq<Bound>, rejected: seq<(Id, seq<Rejection>)>)
    ensures AreBound(accepted, Accepted(ById(actions), s, floors, epoch), s)
    ensures |accepted| + |rejected| == |actions|
    ensures forall i :: 0 <= i < |rejected| ==> IsRejection(rejected[i], actions, s, floors, epoch)
  {
    accepted, rejected := FilterActions(ById(actions), s, floors, epoch);
    ByIdMembers(actions);
    forall i | 0 <= i < |rejected| ensures IsRejection(rejected[i], actions, s, floors, epoch) {
      assert IsRejection(rejected[i], ById(actions), s, floors, epoch);
      var a :| a in ById(actions) && RejectedWith(rejected[i], a, s, floors, epoch);
      assert a in actions;
    }
  }
}
