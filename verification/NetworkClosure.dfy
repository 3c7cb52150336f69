/** Feasible and verified closure of a directed hypergraph, with the reasons why the rest is blocked. */
module NetworkClosure {
  import opened Ids
  import opened Truths
  import Q = QueueClosure

  datatype Kind = Evidence | VerifierReport | ExternalCertificate | OtherKind

  datatype Node = Node(
    lifecycleValid: bool, available: bool, kind: Kind, role: Id,
    digest: Option<Id>, sourceEvent: Option<Id>, lineage: Option<Id>)

  datatype Effect = Inspect | Validate | Plan | LocalWrite | ExternalEffect | OtherEffect

  datatype Edge = Edge(
    legacySchema: bool, sourceBacked: bool, schemaValid: bool, effect: Effect,
    authority: Truth, authorityRefs: set<Id>, hazard: Truth, lifecycle: Truth, version: Truth, outputContract: Truth,
    inhibitors: set<Id>, inputs: set<Id>, readEnablers: set<Id>, outputs: set<Id>,
    evidence: set<Id>, roles: set<Id>, residualHidden: bool, selfIssuedOnly: bool, floorViolation: bool)

  datatype Network = Network(nodes: map<Id, Node>, edges: map<Id, Edge>)

  datatype Blocker =
    | ReceiptMissing | SchemaInvalid | ExternalEffectRejected | UnknownEffect | AuthorityInvalid | HazardInvalid
    | LifecycleInvalid | VersionUnsupported | OutputContractUnknown | ActiveInhibitor | MissingInputs
    | OutputMissing | OutputLifecycleInvalid
    | EvidenceMissing | VerifierMissing | ResidualHidden | SelfIssuedOnly | FloorViolation
    | DuplicateDigest | DuplicateSourceEvent | DuplicateLineage | StaleDependency

  function Unless(ok: bool, blocker: Blocker): seq<Blocker>
  {
    if ok then [] else [blocker]
  }

  // ----- initial states

  function InitialStates(net: Network, declared: set<Id>): (s: set<Id>)
    ensures s <= net.nodes.Keys
  {
    set id | id in net.nodes && (id in declared || net.nodes[id].available) && net.nodes[id].lifecycleValid
  }

  // ----- base blockers

  predicate OutputsLive(edge: Edge, nodes: map<Id, Node>)
  {
    forall o :: o in edge.outputs && o in nodes ==> nodes[o].lifecycleValid
  }

  function OutputBlockers(edge: Edge, nodes: map<Id, Node>): seq<Blocker>
  {
    if !(edge.outputs <= nodes.Keys) then [OutputMissing] else Unless(OutputsLive(edge, nodes), OutputLifecycleInvalid)
  }

  /** What blocks the transformation whatever is available. */
  function StaticBlockers(edge: Edge): seq<Blocker>
  {
    Unless(edge.legacySchema ==> edge.sourceBacked, ReceiptMissing)
    + Unless(edge.schemaValid, SchemaInvalid)
    + Unless(edge.effect != ExternalEffect, ExternalEffectRejected)
    + Unless(edge.effect in {Inspect, Validate, Plan, LocalWrite}, UnknownEffect)
    + Unless(edge.authority == True || edge.authorityRefs == {}, AuthorityInvalid)
    + Unless(edge.hazard == True, HazardInvalid)
    + Unless(edge.lifecycle == True, LifecycleInvalid)
    + Unless(edge.version == True, VersionUnsupported)
    + Unless(edge.outputContract == True, OutputContractUnknown)
  }

  function BaseBlockers(edge: Edge, available: set<Id>, nodes: map<Id, Node>): seq<Blocker>
  {
    StaticBlockers(edge)
    + Unless(edge.inhibitors * available == {}, ActiveInhibitor)
    + Unless(edge.inputs + edge.readEnablers <= available, MissingInputs)
    + OutputBlockers(edge, nodes)
  }

  /** Backed and valid, with a local effect, granted or needing no authority, and every other condition known to hold. */
  predicate SoundRecord(edge: Edge)
  {
    && (edge.legacySchema ==> edge.sourceBacked) && edge.schemaValid
    && (edge.effect == Inspect || edge.effect == Validate || edge.effect == Plan || edge.effect == LocalWrite)
    && (edge.authority == True || edge.authorityRefs == {})
    && edge.hazard == True && edge.lifecycle == True && edge.version == True && edge.outputContract == True
  }

  /** May be applied: a sound record, live outputs, inputs available and no inhibitor present. */
  predicate BaseReady(edge: Edge, available: set<Id>, nodes: map<Id, Node>)
  {
    && SoundRecord(edge)
    && edge.inhibitors * available == {} && edge.inputs + edge.readEnablers <= available
    && edge.outputs <= nodes.Keys && OutputsLive(edge, nodes)
  }

  lemma BaseBlockersExplain(edge: Edge, available: set<Id>, nodes: map<Id, Node>)
    ensures BaseBlockers(edge, available, nodes) == [] <==> BaseReady(edge, available, nodes)
  {
    assert StaticBlockers(edge) == [] <==> SoundRecord(edge);
  }

  // ----- verified blockers

  /** Two of the evidence nodes share the value. */
  predicate Shared(evidence: set<Id>, nodes: map<Id, Node>, value: Node -> Option<Id>)
  {
    exists a, b :: a in evidence && b in evidence && a in nodes && b in nodes && a != b
      && value(nodes[a]).Some? && value(nodes[a]) == value(nodes[b])
  }

  function AvailableEvidence(available: set<Id>, nodes: map<Id, Node>): set<Id>
  {
    set id | id in available && id in nodes && nodes[id].kind in {Evidence, VerifierReport, ExternalCertificate}
  }

  function AvailableRoles(available: set<Id>, nodes: map<Id, Node>): set<Id>
  {
    set id | id in available && id in nodes && nodes[id].kind == VerifierReport :: nodes[id].role
  }

  function SupportBlockers(edge: Edge, nodes: map<Id, Node>): seq<Blocker>
  {
    Unless(!Shared(edge.evidence, nodes, (n: Node) => n.digest), DuplicateDigest)
    + Unless(!Shared(edge.evidence, nodes, (n: Node) => n.sourceEvent), DuplicateSourceEvent)
    + Unless(!Shared(edge.evidence, nodes, (n: Node) => n.lineage), DuplicateLineage)
    + Unless(forall id :: id in edge.evidence && id in nodes ==> nodes[id].lifecycleValid, StaleDependency)
  }

  /** Of two pieces of evidence with this mark, the marks differ. */
  predicate Differ(left: Option<Id>, right: Option<Id>)
  {
    left.Some? && right.Some? ==> left != right
  }

  /** No two pieces of evidence share a digest, a source event or a lineage, and all of them are live. */
  predicate IndependentSupport(evidence: set<Id>, nodes: map<Id, Node>)
  {
    && (forall id :: id in evidence && id in nodes ==> nodes[id].lifecycleValid)
    && forall a, b :: a in evidence && b in evidence && a in nodes && b in nodes && a != b ==>
         && Differ(nodes[a].digest, nodes[b].digest) && Differ(nodes[a].sourceEvent, nodes[b].sourceEvent)
         && Differ(nodes[a].lineage, nodes[b].lineage)
  }

  lemma SupportBlockersExplain(edge: Edge, nodes: map<Id, Node>)
    ensures SupportBlockers(edge, nodes) == [] <==> IndependentSupport(edge.evidence, nodes)
  {
  }

  /** The set of blockers; the original lists it in sorted order. */
  function VerifiedBlockers(edge: Edge, available: set<Id>, nodes: map<Id, Node>): set<Blocker>
  {
    var all :=
      BaseBlockers(edge, available, nodes)
      + Unless(edge.evidence != {}, EvidenceMissing)
      + Unless(edge.evidence <= AvailableEvidence(available, nodes), EvidenceMissing)
      + Unless(edge.roles <= AvailableRoles(available, nodes), VerifierMissing)
      + Unless(!edge.residualHidden, ResidualHidden)
      + Unless(!edge.selfIssuedOnly, SelfIssuedOnly)
      + Unless(!edge.floorViolation, FloorViolation)
      + SupportBlockers(edge, nodes);
    set b | b in all
  }

  /** An available record of one of the three kinds of evidence. */
  predicate IsEvidence(id: Id, available: set<Id>, nodes: map<Id, Node>)
  {
    && id in available && id in nodes
    && (nodes[id].kind == Evidence || nodes[id].kind == VerifierReport || nodes[id].kind == ExternalCertificate)
  }

  /** A verifier's report in the role. */
  predicate Reports(id: Id, role: Id, nodes: map<Id, Node>)
  {
    id in nodes && nodes[id].kind == VerifierReport && nodes[id].role == role
  }

  lemma AvailabilityExplains(edge: Edge, available: set<Id>, nodes: map<Id, Node>)
    ensures edge.evidence <= AvailableEvidence(available, nodes) <==> forall id :: id in edge.evidence ==> IsEvidence(id, available, nodes)
    ensures edge.roles <= AvailableRoles(available, nodes)
       <==> forall role :: role in edge.roles ==> exists id :: id in available && Reports(id, role, nodes)
  {
    assert forall id :: id in AvailableEvidence(available, nodes) <==> IsEvidence(id, available, nodes);
    assert forall role :: role in AvailableRoles(available, nodes) <==> exists id :: id in available && Reports(id, role, nodes);
  }

  /** May be applied with evidence: ready, and its evidence is present, independent, live and verified in all roles. */
  predicate VerifiedReady(edge: Edge, available: set<Id>, nodes: map<Id, Node>)
  {
    && BaseReady(edge, available, nodes)
    && edge.evidence != {} && (forall id :: id in edge.evidence ==> IsEvidence(id, available, nodes))
    && (forall role :: role in edge.roles ==> exists id :: id in available && Reports(id, role, nodes))
    && !edge.residualHidden && !edge.selfIssuedOnly && !edge.floorViolation
    && IndependentSupport(edge.evidence, nodes)
  }

  lemma VerifiedBlockersExplain(edge: Edge, available: set<Id>, nodes: map<Id, Node>)
    ensures VerifiedBlockers(edge, available, nodes) == {} <==> VerifiedReady(edge, available, nodes)
  {
    BaseBlockersExplain(edge, available, nodes);
    SupportBlockersExplain(edge, nodes);
    AvailabilityExplains(edge, available, nodes);
    var all :=
      BaseBlockers(edge, available, nodes)
      + Unless(edge.evidence != {}, EvidenceMissing)
      + Unless(edge.evidence <= AvailableEvidence(available, nodes), EvidenceMissing)
      + Unless(edge.roles <= AvailableRoles(available, nodes), VerifierMissing)
      + Unless(!edge.residualHidden, ResidualHidden)
      + Unless(!edge.selfIssuedOnly, SelfIssuedOnly)
      + Unless(!edge.floorViolation, FloorViolation)
      + SupportBlockers(edge, nodes);
    if all != [] {
      assert all[0] in VerifiedBlockers(edge, available, nodes);
    }
  }

  // ----- rules for the work list

  function Feasible(net: Network): (Id, set<Id>) -> bool
  {
    (id: Id, available: set<Id>) => id in net.edges && BaseReady(net.edges[id], available, net.nodes)
  }

  function Verified(net: Network): (Id, set<Id>) -> bool
  {
    (id: Id, available: set<Id>) => id in net.edges && VerifiedReady(net.edges[id], available, net.nodes)
  }

  function OutputsOf(net: Network): Id -> set<Id>
  {
    (id: Id) => if id in net.edges then net.edges[id].outputs else {}
  }

  predicate InhibitorFree(net: Network)
  {
    forall id :: id in net.edges ==> net.edges[id].inhibitors == {}
  }

  lemma WithoutInhibitorsMonotone(net: Network)
    requires InhibitorFree(net)
    ensures Q.Monotone(Feasible(net)) && Q.Monotone(Verified(net))
  {
    forall id, fewer: set<Id>, more: set<Id> | fewer <= more && Feasible(net)(id, fewer) ensures Feasible(net)(id, more) {
      assert net.edges[id].inhibitors == {};
    }
    forall id, fewer: set<Id>, more: set<Id> | fewer <= more && Verified(net)(id, fewer) ensures Verified(net)(id, more) {
      assert net.edges[id].inhibitors == {};
      assert AvailableEvidence(fewer, net.nodes) <= AvailableEvidence(more, net.nodes);
      assert AvailableRoles(fewer, net.nodes) <= AvailableRoles(more, net.nodes);
    }
  }

  // ----- feasible_closure

  datatype Closure<B> = Closure(available: set<Id>, applied: set<Id>, blocked: map<Id, B>)

  /** The closure is the end of a run; every transformation left out has its blockers there, at least one. */
  ghost predicate IsFeasibleClosure(net: Network, declared: set<Id>, c: Closure<seq<Blocker>>, order: seq<Id>)
  {
    && Q.IsRun(net.edges.Keys, Feasible(net), OutputsOf(net), InitialStates(net, declared), order)
    && c.available == Q.After(OutputsOf(net), InitialStates(net, declared), order) && c.applied == Q.Members(order)
    && c.blocked.Keys == net.edges.Keys - c.applied
    && forall id :: id in c.blocked ==> c.blocked[id] != [] && c.blocked[id] == BaseBlockers(net.edges[id], c.available, net.nodes)
  }

  method FeasibleClosure(net: Network, declared: set<Id>) returns (c: Closure<seq<Blocker>>, ghost order: seq<Id>)
    ensures IsFeasibleClosure(net, declared, c, order)
  {
    var available, applied;
    available, applied, order :=
      Q.WorkList(net.edges.Keys, Feasible(net), OutputsOf(net), InitialStates(net, declared), true, net.nodes.Keys);
    c := FeasibleReport(net, declared, available, applied, order);
  }

  method FeasibleReport(net: Network, declared: set<Id>, available: set<Id>, applied: set<Id>, ghost order: seq<Id>)
    returns (c: Closure<seq<Blocker>>)
    requires Q.Working(net.edges.Keys, Feasible(net), OutputsOf(net), InitialStates(net, declared), order, available, applied, [])
    ensures IsFeasibleClosure(net, declared, c, order)
  {
    var blocked := map id | id in net.edges && id !in applied :: BaseBlockers(net.edges[id], available, net.nodes);
    forall id | id in blocked ensures blocked[id] != [] {
      BaseBlockersExplain(net.edges[id], available, net.nodes);
      assert !Feasible(net)(id, available);
    }
    c := Closure(available, applied, blocked);
  }

  // ----- verified_closure

  ghost predicate IsVerifiedClosure(net: Network, declared: set<Id>, feasible: set<Id>, c: Closure<set<Blocker>>, order: seq<Id>)
  {
    && Q.IsRun(feasible, Verified(net), OutputsOf(net), InitialStates(net, declared), order)
    && c.available == Q.After(OutputsOf(net), InitialStates(net, declared), order) && c.applied == Q.Members(order)
    && c.blocked.Keys == feasible - c.applied
    && forall id :: id in c.blocked ==>
         id in net.edges && c.blocked[id] != {} && c.blocked[id] == VerifiedBlockers(net.edges[id], c.available, net.nodes)
  }

  /** Only over the feasible transformations; one already applied may come up again without effect. */
  method VerifiedClosure(net: Network, declared: set<Id>, feasible: set<Id>)
    returns (c: Closure<set<Blocker>>, ghost order: seq<Id>)
    requires feasible <= net.edges.Keys
    ensures IsVerifiedClosure(net, declared, feasible, c, order)
  {
    var available, applied;
    available, applied, order :=
      Q.WorkList(feasible, Verified(net), OutputsOf(net), InitialStates(net, declared), false, net.nodes.Keys);
    c := VerifiedReport(net, declared, feasible, available, applied, order);
  }

  method VerifiedReport(net: Network, declared: set<Id>, feasible: set<Id>, available: set<Id>, applied: set<Id>, ghost order: seq<Id>)
    returns (c: Closure<set<Blocker>>)
    requires feasible <= net.edges.Keys
    requires Q.Working(feasible, Verified(net), OutputsOf(net), InitialStates(net, declared), order, available, applied, [])
    ensures IsVerifiedClosure(net, declared, feasible, c, order)
  {
    var blocked := map id | id in feasible && id !in applied :: VerifiedBlockers(net.edges[id], available, net.nodes);
    forall id | id in blocked ensures blocked[id] != {} {
      VerifiedBlockersExplain(net.edges[id], available, net.nodes);
      assert !Verified(net)(id, available);
    }
    c := Closure(available, applied, blocked);
  }

  // ----- main results

  /** A closure's run is stuck: what is left out is not ready at the end. */
  lemma FeasibleIsStuck(net: Network, declared: set<Id>, c: Closure<seq<Blocker>>, order: seq<Id>)
    requires IsFeasibleClosure(net, declared, c, order)
    ensures Q.Stuck(net.edges.Keys, Feasible(net), Q.Members(order), c.available)
  {
    forall id | id in net.edges && id !in c.applied ensures !Feasible(net)(id, c.available) {
      BaseBlockersExplain(net.edges[id], c.available, net.nodes);
      assert id in c.blocked;
    }
  }

  lemma VerifiedIsStuck(net: Network, declared: set<Id>, feasible: set<Id>, c: Closure<set<Blocker>>, order: seq<Id>)
    requires IsVerifiedClosure(net, declared, feasible, c, order)
    ensures Q.Stuck(feasible, Verified(net), Q.Members(order), c.available)
  {
    forall id | id in feasible && id !in c.applied ensures !Verified(net)(id, c.available) {
      assert id in c.blocked;
      VerifiedBlockersExplain(net.edges[id], c.available, net.nodes);
    }
  }

  /** Verified states and transformations are among the feasible ones, with or without inhibitors. */
  lemma VerifiedIsWithinFeasible(net: Network, declared: set<Id>, f: Closure<seq<Blocker>>, fOrder: seq<Id>,
                                 v: Closure<set<Blocker>>, vOrder: seq<Id>)
    requires IsFeasibleClosure(net, declared, f, fOrder) && IsVerifiedClosure(net, declared, f.applied, v, vOrder)
    ensures v.applied <= f.applied && v.available <= f.available
  {
    forall id | id in vOrder ensures id in f.applied {
      var k :| 0 <= k < |vOrder| && vOrder[k] == id;
    }
    Q.FewerRulesReachLess(OutputsOf(net), InitialStates(net, declared), vOrder, fOrder);
  }

  /** Without inhibitors the feasible closure is the least fixpoint, and any other order of the queue ends there. */
  lemma FeasibleIsLeastFixpoint(net: Network, declared: set<Id>, c: Closure<seq<Blocker>>, order: seq<Id>, another: seq<Id>)
    requires InhibitorFree(net) && IsFeasibleClosure(net, declared, c, order)
    ensures Q.IsLeastFixpoint(net.edges.Keys, Feasible(net), OutputsOf(net), InitialStates(net, declared), c.available)
    ensures c.applied == set id | id in net.edges.Keys && Feasible(net)(id, c.available)
    ensures var initial, outputs := InitialStates(net, declared), OutputsOf(net);
            Q.IsRun(net.edges.Keys, Feasible(net), outputs, initial, another)
            && Q.Stuck(net.edges.Keys, Feasible(net), Q.Members(another), Q.After(outputs, initial, another))
            ==> Q.After(outputs, initial, another) == c.available && Q.Members(another) == c.applied
  {
    var initial, outputs := InitialStates(net, declared), OutputsOf(net);
    WithoutInhibitorsMonotone(net);
    FeasibleIsStuck(net, declared, c, order);
    Q.StuckRunIsLeast(net.edges.Keys, Feasible(net), outputs, initial, order);
    if Q.IsRun(net.edges.Keys, Feasible(net), outputs, initial, another)
       && Q.Stuck(net.edges.Keys, Feasible(net), Q.Members(another), Q.After(outputs, initial, another)) {
      Q.OrderDoesNotMatter(net.edges.Keys, Feasible(net), outputs, initial, order, another);
    }
  }

  lemma VerifiedIsLeastFixpoint(net: Network, declared: set<Id>, feasible: set<Id>, c: Closure<set<Blocker>>,
                                order: seq<Id>, another: seq<Id>)
    requires InhibitorFree(net) && IsVerifiedClosure(net, declared, feasible, c, order)
    ensures Q.IsLeastFixpoint(feasible, Verified(net), OutputsOf(net), InitialStates(net, declared), c.available)
    ensures c.applied == set id | id in feasible && Verified(net)(id, c.available)
    ensures var initial, outputs := InitialStates(net, declared), OutputsOf(net);
            Q.IsRun(feasible, Verified(net), outputs, initial, another)
            && Q.Stuck(feasible, Verified(net), Q.Members(another), Q.After(outputs, initial, another))
            ==> Q.After(outputs, initial, another) == c.available && Q.Members(another) == c.applied
  {
    var initial, outputs := InitialStates(net, declared), OutputsOf(net);
    WithoutInhibitorsMonotone(net);
    VerifiedIsStuck(net, declared, feasible, c, order);
    Q.StuckRunIsLeast(feasible, Verified(net), outputs, initial, order);
    if Q.IsRun(feasible, Verified(net), outputs, initial, another)
       && Q.Stuck(feasible, Verified(net), Q.Members(another), Q.After(outputs, initial, another)) {
      Q.OrderDoesNotMatter(feasible, Verified(net), outputs, initial, order, another);
    }
  }

  // ----- inhibitors make the order matter

  function Plain(output: Id, inhibitor: Id): Edge
  {
    Edge(false, true, true, Plan, True, {}, True, True, True, True, {inhibitor}, {}, {}, {output}, {}, {}, false, false, false)
  }

  function LiveNode(): Node
  {
    Node(true, false, OtherKind, "", None, None, None)
  }

  /** Two transformations that inhibit each other: each order is a stuck run, and they end differently. */
  lemma InhibitorsMakeOrderMatter() returns (net: Network, order: seq<Id>, another: seq<Id>)
    ensures var outputs := OutputsOf(net);
      && Q.IsRun(net.edges.Keys, Feasible(net), outputs, {}, order)
      && Q.Stuck(net.edges.Keys, Feasible(net), Q.Members(order), Q.After(outputs, {}, order))
      && Q.IsRun(net.edges.Keys, Feasible(net), outputs, {}, another)
      && Q.Stuck(net.edges.Keys, Feasible(net), Q.Members(another), Q.After(outputs, {}, another))
      && Q.After(outputs, {}, order) != Q.After(outputs, {}, another)
  {
    net := Network(map["x" := LiveNode(), "y" := LiveNode()], map["a" := Plain("x", "y"), "b" := Plain("y", "x")]);
    order, another := ["a"], ["b"];
    assert "a" != "b" && "x" != "y" by {
      assert "a"[0] != "b"[0] && "x"[0] != "y"[0];
    }
    assert order[..0] == [] && another[..0] == [];
    assert Q.After(OutputsOf(net), {}, order) == {"x"} && Q.After(OutputsOf(net), {}, another) == {"y"};
    assert "x" in {"x"} && "x" !in {"y"};
    assert Feasible(net)("a", {}) && Feasible(net)("b", {});
    assert {"x"} * {"x"} == {"x"} && {"y"} * {"y"} == {"y"};
    assert "a" in Q.Members(order) && "b" in Q.Members(another);
  }
}
