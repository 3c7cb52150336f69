/**
 * Open-system resource accounting over the transformations of a formation. Accepted by both checks,
 * a formation never gains weighted resources beyond the boundary supplies credited to it.
 */
module ResourceAccounting {
  import opened Ids
  import F = Formation

  /** Weights and credits are None where their text is not a rational number. */
  datatype Accounts = Accounts(
    networkRef: Id, weights: map<Id, Option<real>>, credits: map<Id, Option<real>>, protectedOnes: set<Id>, sources: set<Id>)

  datatype Complaint =
    | RationalInvalid | WeightCoverage | PositiveWeightsRequired | NetworkMismatch | SourcesNotLive
    | TransformationMissing(id: Id) | SupplyNotLive(id: Id) | GainWithoutCredit(id: Id)

  /** No witness, an exception, or the complaints (none means valid). */
  datatype Outcome = Unknown | Raised | Decided(complaints: set<Complaint>)

  function Value(quantities: map<Id, Option<real>>, key: Id): real
  {
    if key in quantities && quantities[key].Some? then quantities[key].value else 0.0
  }

  predicate AllParse(quantities: map<Id, Option<real>>)
  {
    forall key :: key in quantities ==> quantities[key].Some?
  }

  // ----- gain and credit of one transformation

  function Gain(order: seq<Id>, a: Accounts, edge: F.Edge): real
  {
    if order == [] then 0.0
    else
      var c := order[|order| - 1];
      Gain(order[..|order| - 1], a, edge)
      + Value(a.weights, c) * (if F.Flow(edge, c).Some? then F.Flow(edge, c).value else 0.0)
  }

  function Credit(order: seq<Id>, a: Accounts): real
  {
    if order == [] then 0.0 else Credit(order[..|order| - 1], a) + Value(a.credits, order[|order| - 1])
  }

  function Residual(contract: F.Contract, a: Accounts, edge: F.Edge): real
  {
    Gain(Sorted(contract.registry), a, edge) - Credit(Sorted(edge.supply), a)
  }

  predicate FlowsParse(registry: set<Id>, edge: F.Edge)
  {
    forall c :: c in registry ==> F.Flow(edge, c).Some?
  }

  method ComputeGain(registry: set<Id>, order: seq<Id>, a: Accounts, edge: F.Edge) returns (gain: Option<real>)
    requires forall c :: c in order <==> c in registry
    ensures gain == if FlowsParse(registry, edge) then Some(Gain(order, a, edge)) else None
  {
    var sum := 0.0;
    for i := 0 to |order|
      invariant sum == Gain(order[..i], a, edge)
      invariant forall j :: 0 <= j < i ==> F.Flow(edge, order[j]).Some?
    {
      assert order[..i + 1][..i] == order[..i] && order[i] in order;
      var flow := F.Flow(edge, order[i]);
      if flow == None { return None; }
      sum := sum + Value(a.weights, order[i]) * flow.value;
    }
    assert order[..|order|] == order;
    gain := Some(sum);
  }

  method ComputeCredit(order: seq<Id>, a: Accounts) returns (credit: real)
    ensures credit == Credit(order, a)
  {
    credit := 0.0;
    for i := 0 to |order|
      invariant credit == Credit(order[..i], a)
    {
      assert order[..i + 1][..i] == order[..i];
      credit := credit + Value(a.credits, order[i]);
    }
    assert order[..|order|] == order;
  }

  // ----- validate_resource_accounting

  function Unless(condition: bool, complaint: Complaint): set<Complaint>
  {
    if condition then {} else {complaint}
  }

  predicate PositivelyWeighted(a: Accounts)
  {
    forall c :: c in a.protectedOnes ==> Value(a.weights, c) > 0.0
  }

  function GeneralComplaints(contract: F.Contract, net: F.Network, a: Accounts, live: set<Id>): set<Complaint>
  {
    Unless(a.weights.Keys == contract.registry, WeightCoverage)
    + Unless(a.protectedOnes == contract.floors.Keys && PositivelyWeighted(a), PositiveWeightsRequired)
    + Unless(a.networkRef == net.id, NetworkMismatch)
    + Unless(a.sources <= live, SourcesNotLive)
  }

  function ResidualOf(contract: F.Contract, net: F.Network, a: Accounts, id: Id): real
  {
    if id in net.edges then Residual(contract, a, net.edges[id]) else 0.0
  }

  function EdgeComplaints(net: F.Network, live: set<Id>, id: Id, residual: real): set<Complaint>
  {
    if id !in net.edges then {TransformationMissing(id)}
    else Unless(net.edges[id].supply <= live, SupplyNotLive(id)) + Unless(residual <= 0.0, GainWithoutCredit(id))
  }

  function AllEdgeComplaints(contract: F.Contract, net: F.Network, a: Accounts, live: set<Id>, ids: set<Id>): set<Complaint>
  {
    set id, r | id in ids && r in EdgeComplaints(net, live, id, ResidualOf(contract, net, a, id)) :: r
  }

  lemma OneMoreEdge(contract: F.Contract, net: F.Network, a: Accounts, live: set<Id>, ids: set<Id>, id: Id)
    ensures AllEdgeComplaints(contract, net, a, live, ids + {id})
         == AllEdgeComplaints(contract, net, a, live, ids) + EdgeComplaints(net, live, id, ResidualOf(contract, net, a, id))
  {
  }

  /** Some known transformation has a registered flow that is not a rational number. */
  predicate MeetsBadFlow(contract: F.Contract, net: F.Network, ids: set<Id>)
  {
    exists id :: id in ids && id in net.edges && !FlowsParse(contract.registry, net.edges[id])
  }

  function Account(contract: F.Contract, net: F.Network, provided: Option<Accounts>, ids: set<Id>, live: set<Id>): Outcome
  {
    if provided == None then Unknown
    else
      var a := provided.value;
      if !AllParse(a.weights) || !AllParse(a.credits) then Decided({RationalInvalid})
      else if MeetsBadFlow(contract, net, ids) then Raised
      else Decided(GeneralComplaints(contract, net, a, live) + AllEdgeComplaints(contract, net, a, live, ids))
  }

  method ComputeResidual(contract: F.Contract, a: Accounts, edge: F.Edge) returns (residual: Option<real>)
    ensures residual == if FlowsParse(contract.registry, edge) then Some(Residual(contract, a, edge)) else None
  {
    var gain := ComputeGain(contract.registry, Sorted(contract.registry), a, edge);
    if gain == None { return None; }
    var credit := ComputeCredit(Sorted(edge.supply), a);
    residual := Some(gain.value - credit);
  }

  method CheckEdge(net: F.Network, live: set<Id>, id: Id, residual: real) returns (found: set<Complaint>)
    requires id in net.edges
    ensures found == EdgeComplaints(net, live, id, residual)
  {
    found := {};
    if !(net.edges[id].supply <= live) { found := found + {SupplyNotLive(id)}; }
    if residual > 0.0 { found := found + {GainWithoutCredit(id)}; }
  }

  /** One residual for each known transformation of the formation. */
  function Residuals(contract: F.Contract, net: F.Network, a: Accounts, ids: set<Id>): map<Id, real>
  {
    map id | id in ids * net.edges.Keys :: Residual(contract, a, net.edges[id])
  }

  lemma OneMoreResidual(contract: F.Contract, net: F.Network, a: Accounts, ids: set<Id>, id: Id)
    ensures Residuals(contract, net, a, ids + {id}) ==
            if id in net.edges then Residuals(contract, net, a, ids)[id := Residual(contract, a, net.edges[id])]
            else Residuals(contract, net, a, ids)
  {
  }

  /** The accounts are there and every quantity that is read is a rational number. */
  predicate Readable(contract: F.Contract, net: F.Network, provided: Option<Accounts>, ids: set<Id>)
  {
    && provided.Some? && AllParse(provided.value.weights) && AllParse(provided.value.credits)
    && !MeetsBadFlow(contract, net, ids)
  }

  method ValidateAccounting(contract: F.Contract, net: F.Network, provided: Option<Accounts>, ids: set<Id>, live: set<Id>)
    returns (outcome: Outcome, residuals: map<Id, real>)
    ensures outcome == Account(contract, net, provided, ids, live)
    ensures Readable(contract, net, provided, ids) ==> residuals == Residuals(contract, net, provided.value, ids)
    ensures !Readable(contract, net, provided, ids) && !outcome.Raised? ==> residuals == map[]
  {
    residuals := map[];
    if provided == None { return Unknown, residuals; }
    var a := provided.value;
    if !AllParse(a.weights) || !AllParse(a.credits) { return Decided({RationalInvalid}), residuals; }
    var complaints: set<Complaint> := {};
    var todo := ids;
    while todo != {}
      invariant todo <= ids
      invariant complaints == AllEdgeComplaints(contract, net, a, live, ids - todo)
      invariant residuals == Residuals(contract, net, a, ids - todo)
      invariant !MeetsBadFlow(contract, net, ids - todo)
      decreases |todo|
    {
      var id :| id in todo;
      OneMoreEdge(contract, net, a, live, ids - todo, id);
      OneMoreResidual(contract, net, a, ids - todo, id);
      assert ids - (todo - {id}) == ids - todo + {id};
      if id !in net.edges {
        complaints := complaints + {TransformationMissing(id)};
      } else {
        var residual := ComputeResidual(contract, a, net.edges[id]);
        if residual == None { return Raised, residuals; }
        residuals := residuals[id := residual.value];
        var found := CheckEdge(net, live, id, residual.value);
        complaints := complaints + found;
      }
      todo := todo - {id};
    }
    assert ids - todo == ids;
    outcome := Decided(GeneralComplaints(contract, net, a, live) + complaints);
  }

  /** The check stops with an exception exactly when all weights and credits are rational but some flow it needs is not. */
  lemma RaisesIffFlowUnreadable(contract: F.Contract, net: F.Network, provided: Option<Accounts>, ids: set<Id>, live: set<Id>)
    ensures Account(contract, net, provided, ids, live) == Raised <==>
            && provided.Some? && AllParse(provided.value.weights) && AllParse(provided.value.credits)
            && exists id, c :: id in ids && id in net.edges && c in contract.registry && F.Flow(net.edges[id], c) == None
  {
  }

  const LEAK: F.Edge := F.Edge({}, {}, {}, {}, {}, {}, [], true, {"product"}, map["mass" := None], {})

  const LEAKING: F.Network := F.Network("net", {"product"}, map["t" := LEAK])

  /** Such a flow is enough: one transformation whose only registered flow does not parse. */
  lemma UnreadableFlowRaises(live: set<Id>)
    ensures Account(F.Contract({}, 1, {"mass"}, map[]), LEAKING,
                    Some(Accounts("net", map["mass" := Some(1.0)], map[], {}, {})), {"t"}, live) == Raised
  {
    assert F.Flow(LEAKING.edges["t"], "mass") == None;
    RaisesIffFlowUnreadable(F.Contract({}, 1, {"mass"}, map[]), LEAKING,
                            Some(Accounts("net", map["mass" := Some(1.0)], map[], {}, {})), {"t"}, live);
  }

  // ----- conservation

  /** The weighted total of the registered balances. */
  function Weighted(order: seq<Id>, a: Accounts, s: F.Setting, fired: seq<Id>): real
  {
    if order == [] then 0.0
    else
      var c := order[|order| - 1];
      Weighted(order[..|order| - 1], a, s, fired) + Value(a.weights, c) * F.Balance(s, fired, c)
  }

  /** The boundary supply credited to everything fired so far. */
  function CreditSoFar(a: Accounts, net: F.Network, fired: seq<Id>): real
  {
    if fired == [] then 0.0
    else
      var id := fired[|fired| - 1];
      CreditSoFar(a, net, fired[..|fired| - 1]) + (if id in net.edges then Credit(Sorted(net.edges[id].supply), a) else 0.0)
  }

  lemma {:induction false} WeightedStep(order: seq<Id>, a: Accounts, s: F.Setting, fired: seq<Id>, id: Id)
    requires id in s.net.edges && FlowsParse(s.contract.registry, s.net.edges[id])
    requires forall c :: c in order ==> c in s.contract.registry
    ensures Weighted(order, a, s, fired + [id]) == Weighted(order, a, s, fired) + Gain(order, a, s.net.edges[id])
  {
    if order != [] {
      var c := order[|order| - 1];
      assert c in order;
      WeightedStep(order[..|order| - 1], a, s, fired, id);
      F.BalanceExtends(s, fired, id);
    }
  }

  /** Every transformation is known, its flows parse and its weighted gain is covered by its boundary credit. */
  ghost predicate Covered(contract: F.Contract, net: F.Network, a: Accounts, id: Id)
  {
    id in net.edges && FlowsParse(contract.registry, net.edges[id]) && Residual(contract, a, net.edges[id]) <= 0.0
  }

  lemma NoEdgeComplaints(net: F.Network, live: set<Id>, id: Id, residual: real)
    requires EdgeComplaints(net, live, id, residual) == {}
    ensures id in net.edges && residual <= 0.0
  {
    var found := EdgeComplaints(net, live, id, residual);
    assert TransformationMissing(id) !in found && GainWithoutCredit(id) !in found;
  }

  lemma AcceptedCovers(contract: F.Contract, net: F.Network, a: Accounts, ids: set<Id>, live: set<Id>, id: Id)
    requires Account(contract, net, Some(a), ids, live) == Decided({}) && id in ids
    ensures Covered(contract, net, a, id)
  {
    var residual := ResidualOf(contract, net, a, id);
    assert EdgeComplaints(net, live, id, residual) <= AllEdgeComplaints(contract, net, a, live, ids);
    NoEdgeComplaints(net, live, id, residual);
  }

  // ----- what acceptance means on the records

  /** The sum of a quantity over a listing. */
  function Total(order: seq<Id>, quantity: Id -> real): real
  {
    if order == [] then 0.0 else Total(order[..|order| - 1], quantity) + quantity(order[|order| - 1])
  }

  function WeightedFlow(a: Accounts, edge: F.Edge): Id -> real
  {
    (c: Id) =>
      (if c in a.weights && a.weights[c].Some? then a.weights[c].value else 0.0)
      * (if c in edge.flows then (if edge.flows[c].Some? then edge.flows[c].value else 0.0) else 0.0)
  }

  function CreditOf(a: Accounts): Id -> real
  {
    (supply: Id) => if supply in a.credits && a.credits[supply].Some? then a.credits[supply].value else 0.0
  }

  lemma {:induction false} GainIsTotal(order: seq<Id>, a: Accounts, edge: F.Edge)
    ensures Gain(order, a, edge) == Total(order, WeightedFlow(a, edge))
  {
    if order != [] {
      GainIsTotal(order[..|order| - 1], a, edge);
    }
  }

  lemma {:induction false} CreditIsTotal(order: seq<Id>, a: Accounts)
    ensures Credit(order, a) == Total(order, CreditOf(a))
  {
    if order != [] {
      CreditIsTotal(order[..|order| - 1], a);
    }
  }

  /** Known, with readable flows and live supplies, and gaining no more weight than its supplies are credited with. */
  ghost predicate Accounted(contract: F.Contract, net: F.Network, a: Accounts, live: set<Id>, id: Id)
  {
    && id in net.edges
    && (forall c :: c in contract.registry && c in net.edges[id].flows ==> net.edges[id].flows[c].Some?)
    && net.edges[id].supply <= live
    && Total(Sorted(contract.registry), WeightedFlow(a, net.edges[id])) <= Total(Sorted(net.edges[id].supply), CreditOf(a))
  }

  /**
   * Every weight and credit is rational, exactly the registered coordinates are weighted, exactly the floors are
   * protected and all of them positively weighted, the network and the sources are the right ones, and every
   * transformation is accounted for.
   */
  ghost predicate SoundAccounts(contract: F.Contract, net: F.Network, a: Accounts, ids: set<Id>, live: set<Id>)
  {
    && (forall c :: c in a.weights ==> a.weights[c].Some?) && (forall r :: r in a.credits ==> a.credits[r].Some?)
    && (forall c :: c in a.weights <==> c in contract.registry)
    && (forall c :: c in a.protectedOnes <==> c in contract.floors)
    && (forall c :: c in a.protectedOnes ==> c in a.weights && a.weights[c].value > 0.0)
    && a.networkRef == net.id && a.sources <= live
    && forall id :: id in ids ==> Accounted(contract, net, a, live, id)
  }

  lemma NoComplaintIffAccounted(contract: F.Contract, net: F.Network, a: Accounts, live: set<Id>, id: Id)
    requires id in net.edges ==> FlowsParse(contract.registry, net.edges[id])
    ensures EdgeComplaints(net, live, id, ResidualOf(contract, net, a, id)) == {} <==> Accounted(contract, net, a, live, id)
  {
    if id in net.edges {
      GainIsTotal(Sorted(contract.registry), a, net.edges[id]);
      CreditIsTotal(Sorted(net.edges[id].supply), a);
      var residual := ResidualOf(contract, net, a, id);
      var found := EdgeComplaints(net, live, id, residual);
      assert SupplyNotLive(id) in found <==> !(net.edges[id].supply <= live);
      assert GainWithoutCredit(id) in found <==> residual > 0.0;
      forall c | c in contract.registry && c in net.edges[id].flows ensures net.edges[id].flows[c].Some? {
        assert F.Flow(net.edges[id], c).Some?;
      }
    } else {
      assert TransformationMissing(id) in EdgeComplaints(net, live, id, ResidualOf(contract, net, a, id));
    }
  }

  lemma NoGeneralComplaint(contract: F.Contract, net: F.Network, a: Accounts, live: set<Id>)
    requires AllParse(a.weights)
    ensures GeneralComplaints(contract, net, a, live) == {} <==>
            && (forall c :: c in a.weights <==> c in contract.registry)
            && (forall c :: c in a.protectedOnes <==> c in contract.floors)
            && (forall c :: c in a.protectedOnes ==> c in a.weights && a.weights[c].value > 0.0)
            && a.networkRef == net.id && a.sources <= live
  {
    var found := GeneralComplaints(contract, net, a, live);
    assert WeightCoverage in found <==> a.weights.Keys != contract.registry;
    assert PositiveWeightsRequired in found <==> !(a.protectedOnes == contract.floors.Keys && PositivelyWeighted(a));
    assert NetworkMismatch in found <==> a.networkRef != net.id;
    assert SourcesNotLive in found <==> !(a.sources <= live);
    assert (forall c :: c in a.weights <==> c in contract.registry) <==> a.weights.Keys == contract.registry;
    assert (forall c :: c in a.protectedOnes <==> c in contract.floors) <==> a.protectedOnes == contract.floors.Keys;
  }

  lemma NoEdgeComplaint(contract: F.Contract, net: F.Network, a: Accounts, ids: set<Id>, live: set<Id>)
    requires !MeetsBadFlow(contract, net, ids)
    ensures AllEdgeComplaints(contract, net, a, live, ids) == {} <==> forall id :: id in ids ==> Accounted(contract, net, a, live, id)
  {
    forall id | id in ids
      ensures EdgeComplaints(net, live, id, ResidualOf(contract, net, a, id)) == {} <==> Accounted(contract, net, a, live, id)
      ensures EdgeComplaints(net, live, id, ResidualOf(contract, net, a, id)) <= AllEdgeComplaints(contract, net, a, live, ids)
    {
      NoComplaintIffAccounted(contract, net, a, live, id);
    }
  }

  lemma AccountedMeansReadable(contract: F.Contract, net: F.Network, a: Accounts, ids: set<Id>, live: set<Id>)
    requires forall id :: id in ids ==> Accounted(contract, net, a, live, id)
    ensures !MeetsBadFlow(contract, net, ids)
  {
    forall id | id in ids && id in net.edges ensures FlowsParse(contract.registry, net.edges[id]) {
      assert Accounted(contract, net, a, live, id);
    }
  }

  /** The accounts are accepted exactly when they are sound. */
  lemma AcceptedIffSound(contract: F.Contract, net: F.Network, a: Accounts, ids: set<Id>, live: set<Id>)
    ensures Account(contract, net, Some(a), ids, live) == Decided({}) <==> SoundAccounts(contract, net, a, ids, live)
  {
    if AllParse(a.weights) && AllParse(a.credits) {
      NoGeneralComplaint(contract, net, a, live);
      if MeetsBadFlow(contract, net, ids) {
        if SoundAccounts(contract, net, a, ids, live) {
          AccountedMeansReadable(contract, net, a, ids, live);
        }
      } else {
        NoEdgeComplaint(contract, net, a, ids, live);
      }
    }
  }

  /** A run of covered transformations gains at most what was credited to it. */
  lemma {:induction false} CoveredRunsConserve(s: F.Setting, a: Accounts, order: seq<Id>, fired: seq<Id>)
    requires order == Sorted(s.contract.registry)
    requires forall id :: id in fired ==> Covered(s.contract, s.net, a, id)
    ensures Weighted(order, a, s, fired) <= Weighted(order, a, s, []) + CreditSoFar(a, s.net, fired)
  {
    if fired != [] {
      var init, id := fired[..|fired| - 1], fired[|fired| - 1];
      assert fired == init + [id] && id in fired;
      CoveredRunsConserve(s, a, order, init);
      WeightedStep(order, a, s, init, id);
    }
  }

  /**
   * A formation and an accounting accepted for the same transformations: at every point of the run
   * the weighted balance is at most the initial one plus the boundary credits of what has fired.
   */
  lemma NoUncreditedGain(contract: F.Contract, net: F.Network, marking: F.Marking, w: F.Witness, organization: set<Id>,
                         a: Accounts, live: set<Id>, fired: seq<Id>)
    requires F.FormationReasons(contract, net, marking, w, organization) == {}
    requires Account(contract, net, Some(a), organization, live) == Decided({})
    requires fired <= F.Flatten(w.layers)
    ensures Weighted(Sorted(contract.registry), a, F.SettingOf(contract, net, marking), fired)
         <= Weighted(Sorted(contract.registry), a, F.SettingOf(contract, net, marking), []) + CreditSoFar(a, net, fired)
  {
    F.NoObjections(contract, net, marking, w, organization);
    forall id | id in fired ensures Covered(contract, net, a, id) {
      assert id in F.AsSet(F.Flatten(w.layers));
      AcceptedCovers(contract, net, a, organization, live, id);
    }
    CoveredRunsConserve(F.SettingOf(contract, net, marking), a, Sorted(contract.registry), fired);
  }

  // ----- what floors and conservation give together

  function WeightedFloors(order: seq<Id>, a: Accounts, contract: F.Contract): real
  {
    if order == [] then 0.0
    else
      var c := order[|order| - 1];
      WeightedFloors(order[..|order| - 1], a, contract) + Value(a.weights, c) * F.FloorOf(contract, c)
  }

  function Headroom(a: Accounts, s: F.Setting, fired: seq<Id>, c: Id): real
  {
    Value(a.weights, c) * (F.Balance(s, fired, c) - F.FloorOf(s.contract, c))
  }

  function TotalHeadroom(order: seq<Id>, a: Accounts, s: F.Setting, fired: seq<Id>): real
  {
    if order == [] then 0.0
    else TotalHeadroom(order[..|order| - 1], a, s, fired) + Headroom(a, s, fired, order[|order| - 1])
  }

  lemma Distributes(weight: real, balance: real, floor: real)
    ensures weight * (balance - floor) == weight * balance - weight * floor
  {
  }

  lemma {:induction false} HeadroomIsTheDifference(order: seq<Id>, a: Accounts, s: F.Setting, fired: seq<Id>)
    ensures TotalHeadroom(order, a, s, fired) == Weighted(order, a, s, fired) - WeightedFloors(order, a, s.contract)
  {
    if order != [] {
      var c := order[|order| - 1];
      HeadroomIsTheDifference(order[..|order| - 1], a, s, fired);
      Distributes(Value(a.weights, c), F.Balance(s, fired, c), F.FloorOf(s.contract, c));
    }
  }

  lemma {:induction false} HeadroomIsShared(order: seq<Id>, a: Accounts, s: F.Setting, fired: seq<Id>)
    requires forall c :: c in order ==> Headroom(a, s, fired, c) >= 0.0
    ensures TotalHeadroom(order, a, s, fired) >= 0.0
    ensures forall c :: c in order ==> Headroom(a, s, fired, c) <= TotalHeadroom(order, a, s, fired)
  {
    if order != [] {
      var init, last := order[..|order| - 1], order[|order| - 1];
      assert order == init + [last] && last in order;
      HeadroomIsShared(init, a, s, fired);
    }
  }

  lemma AcceptedWeightsArePositive(contract: F.Contract, net: F.Network, a: Accounts, ids: set<Id>, live: set<Id>, c: Id)
    requires Account(contract, net, Some(a), ids, live) == Decided({}) && c in contract.floors
    ensures Value(a.weights, c) > 0.0
  {
    var all := GeneralComplaints(contract, net, a, live) + AllEdgeComplaints(contract, net, a, live, ids);
    assert PositiveWeightsRequired !in all;
  }

  lemma ProductIsNonnegative(x: real, y: real)
    requires x >= 0.0 && y >= 0.0
    ensures x * y >= 0.0
  {
  }

  lemma HeadroomIsNonnegative(contract: F.Contract, net: F.Network, marking: F.Marking, w: F.Witness, organization: set<Id>,
                              a: Accounts, live: set<Id>, fired: seq<Id>, c: Id)
    requires F.FormationReasons(contract, net, marking, w, organization) == {}
    requires Account(contract, net, Some(a), organization, live) == Decided({})
    requires fired != [] && fired <= F.Flatten(w.layers) && c in contract.registry && F.HasFloor(contract, c)
    ensures Headroom(a, F.SettingOf(contract, net, marking), fired, c) >= 0.0
  {
    AcceptedWeightsArePositive(contract, net, a, organization, live, c);
    F.FloorsHoldThroughout(contract, net, marking, w, organization, fired, c);
    ProductIsNonnegative(Value(a.weights, c), F.Balance(F.SettingOf(contract, net, marking), fired, c) - F.FloorOf(contract, c));
  }

  /**
   * When every registered coordinate is protected, no coordinate can rise without bound: its weighted
   * headroom above the floor stays within what the start and the credits leave above all floors.
   */
  lemma ProtectedCoordinatesAreBounded(contract: F.Contract, net: F.Network, marking: F.Marking, w: F.Witness,
                                       organization: set<Id>, a: Accounts, live: set<Id>, fired: seq<Id>, c: Id)
    requires F.FormationReasons(contract, net, marking, w, organization) == {}
    requires Account(contract, net, Some(a), organization, live) == Decided({})
    requires fired != [] && fired <= F.Flatten(w.layers) && c in contract.registry
    requires forall d :: d in contract.registry ==> F.HasFloor(contract, d)
    ensures Headroom(a, F.SettingOf(contract, net, marking), fired, c)
         <= Weighted(Sorted(contract.registry), a, F.SettingOf(contract, net, marking), []) + CreditSoFar(a, net, fired)
            - WeightedFloors(Sorted(contract.registry), a, contract)
  {
    var s, order := F.SettingOf(contract, net, marking), Sorted(contract.registry);
    NoUncreditedGain(contract, net, marking, w, organization, a, live, fired);
    forall d | d in order ensures Headroom(a, s, fired, d) >= 0.0 {
      HeadroomIsNonnegative(contract, net, marking, w, organization, a, live, fired, d);
    }
    HeadroomIsShared(order, a, s, fired);
    HeadroomIsTheDifference(order, a, s, fired);
  }
}
