/**
 * The support core: what remains of a network once every transformation without enough independent
 * support, and every state nobody produces any more, has been peeled away round by round.
 */
module SupportCore {
  import opened Ids

  datatype Edge = Edge(support: set<Id>, verifiers: set<Id>, outputs: set<Id>)

  /** `nodes` gives each state its independence domain. */
  datatype Network = Network(nodes: map<Id, Id>, edges: map<Id, Edge>)

  /** Required numbers of domains, the effective domain of each domain, and the initial states. */
  datatype Policy = Policy(supportMinimum: int, verifierMinimum: int, effective: map<Id, Id>, initial: set<Id>)

  datatype Removal = Removal(edges: set<Id>, nodes: set<Id>)

  // ----- one transformation, one state

  /** The effective independence domains of the active states among the references. */
  function Domains(net: Network, policy: Policy, refs: set<Id>, active: set<Id>): (domains: set<Id>)
  {
    set ref | ref in refs && ref in active && ref in net.nodes && net.nodes[ref] in policy.effective
      :: policy.effective[net.nodes[ref]]
  }

  predicate Supported(net: Network, policy: Policy, edge: Edge, active: set<Id>)
  {
    && |Domains(net, policy, edge.support, active)| >= policy.supportMinimum
    && |Domains(net, policy, edge.verifiers, active)| >= policy.verifierMinimum
  }

  /** At least so many different effective domains stand behind the references. */
  ghost predicate BackedByDomains(net: Network, policy: Policy, refs: set<Id>, active: set<Id>, minimum: int)
  {
    exists domains: seq<Id> :: |domains| >= minimum && NoDuplicates(domains) && AllBacked(net, policy, refs, active, domains)
  }

  ghost predicate AllBacked(net: Network, policy: Policy, refs: set<Id>, active: set<Id>, domains: seq<Id>)
  {
    forall k :: 0 <= k < |domains| ==> exists ref :: ref in refs && ref in active && BackedBy(net, policy, ref, domains[k])
  }

  /** The reference is a state whose independence domain counts as this one. */
  predicate BackedBy(net: Network, policy: Policy, ref: Id, domain: Id)
  {
    ref in net.nodes && net.nodes[ref] in policy.effective && policy.effective[net.nodes[ref]] == domain
  }

  lemma EnoughDomains(net: Network, policy: Policy, refs: set<Id>, active: set<Id>, minimum: int)
    ensures |Domains(net, policy, refs, active)| >= minimum <==> BackedByDomains(net, policy, refs, active, minimum)
  {
    var all := Domains(net, policy, refs, active);
    assert forall d :: d in all <==> exists ref :: ref in refs && ref in active && BackedBy(net, policy, ref, d);
    if |all| >= minimum {
      SortedHasNoDuplicates(Sorted(all));
      forall k | 0 <= k < |Sorted(all)|
        ensures exists ref :: ref in refs && ref in active && BackedBy(net, policy, ref, Sorted(all)[k])
      {
        assert Sorted(all)[k] in all;
      }
      assert AllBacked(net, policy, refs, active, Sorted(all));
    }
    if domains: seq<Id> :| |domains| >= minimum && NoDuplicates(domains) && AllBacked(net, policy, refs, active, domains) {
      var members := set d | d in domains;
      NoDuplicatesCardinality(domains, members);
      forall d | d in members ensures d in all {
        var k :| 0 <= k < |domains| && domains[k] == d;
      }
      SubsetCardinality(members, all);
    }
  }

  /** Supported means backed by enough independence domains and verified from enough of them. */
  lemma SupportedMeans(net: Network, policy: Policy, edge: Edge, active: set<Id>)
    ensures Supported(net, policy, edge, active) <==>
            && BackedByDomains(net, policy, edge.support, active, policy.supportMinimum)
            && BackedByDomains(net, policy, edge.verifiers, active, policy.verifierMinimum)
  {
    EnoughDomains(net, policy, edge.support, active, policy.supportMinimum);
    EnoughDomains(net, policy, edge.verifiers, active, policy.verifierMinimum);
  }

  lemma SupportIsMonotone(net: Network, policy: Policy, edge: Edge, fewer: set<Id>, more: set<Id>)
    requires fewer <= more && Supported(net, policy, edge, fewer)
    ensures Supported(net, policy, edge, more)
  {
    SubsetCardinality(Domains(net, policy, edge.support, fewer), Domains(net, policy, edge.support, more));
    SubsetCardinality(Domains(net, policy, edge.verifiers, fewer), Domains(net, policy, edge.verifiers, more));
  }

  /** The same states carry the same domains in two networks. */
  lemma SupportIsLocal(a: Network, b: Network, policy: Policy, edge: Edge, active: set<Id>)
    requires active <= a.nodes.Keys && active <= b.nodes.Keys
    requires forall n :: n in active ==> a.nodes[n] == b.nodes[n]
    ensures Supported(a, policy, edge, active) <==> Supported(b, policy, edge, active)
  {
    assert Domains(a, policy, edge.support, active) == Domains(b, policy, edge.support, active);
    assert Domains(a, policy, edge.verifiers, active) == Domains(b, policy, edge.verifiers, active);
  }

  function Produced(net: Network, edges: set<Id>): set<Id>
  {
    set id, p | id in edges && id in net.edges && p in net.edges[id].outputs :: p
  }

  // ----- self-supporting pairs

  /** Each transformation has its domains among these states; each state is initial or produced by these transformations. */
  ghost predicate SelfSupporting(net: Network, policy: Policy, nodes: set<Id>, edges: set<Id>)
  {
    && nodes <= net.nodes.Keys && edges <= net.edges.Keys
    && (forall id :: id in edges ==> Supported(net, policy, net.edges[id], nodes))
    && nodes <= Produced(net, edges) + policy.initial
  }

  /** The pair is self-supporting and contains every other self-supporting pair. */
  ghost predicate IsCore(net: Network, policy: Policy, nodes: set<Id>, edges: set<Id>)
  {
    && SelfSupporting(net, policy, nodes, edges)
    && forall n, e :: SelfSupporting(net, policy, n, e) ==> n <= nodes && e <= edges
  }

  lemma CoreIsUnique(net: Network, policy: Policy, n1: set<Id>, e1: set<Id>, n2: set<Id>, e2: set<Id>)
    requires IsCore(net, policy, n1, e1) && IsCore(net, policy, n2, e2)
    ensures n1 == n2 && e1 == e2
  {
    assert SelfSupporting(net, policy, n1, e1) && SelfSupporting(net, policy, n2, e2);
  }

  // ----- the rounds

  /** What a round takes from the active part: under-supported transformations, then states left without producer. */
  ghost predicate IsRemoval(net: Network, policy: Policy, nodes: set<Id>, edges: set<Id>, round: Removal)
  {
    && (forall id :: id in round.edges <==>
          id in edges && id in net.edges && !Supported(net, policy, net.edges[id], nodes))
    && round.nodes == nodes - Produced(net, edges - round.edges) - policy.initial
  }

  /** No self-supporting pair loses anything in a round. */
  lemma RemovalSparesSelfSupporting(net: Network, policy: Policy, nodes: set<Id>, edges: set<Id>, round: Removal,
                                    n: set<Id>, e: set<Id>)
    requires edges <= net.edges.Keys && IsRemoval(net, policy, nodes, edges, round)
    requires SelfSupporting(net, policy, n, e) && n <= nodes && e <= edges
    ensures n <= nodes - round.nodes && e <= edges - round.edges
  {
    forall id | id in e ensures id !in round.edges {
      SupportIsMonotone(net, policy, net.edges[id], n, nodes);
    }
  }

  /** A round that removes nothing has found a self-supporting pair. */
  lemma StableIsSelfSupporting(net: Network, policy: Policy, nodes: set<Id>, edges: set<Id>, round: Removal)
    requires nodes <= net.nodes.Keys && edges <= net.edges.Keys
    requires IsRemoval(net, policy, nodes, edges, round) && round == Removal({}, {})
    ensures SelfSupporting(net, policy, nodes, edges)
  {
    assert edges - round.edges == edges;
    forall id | id in edges ensures Supported(net, policy, net.edges[id], nodes) {
      assert id !in round.edges;
    }
    forall n | n in nodes ensures n in Produced(net, edges) + policy.initial {
      assert n !in round.nodes;
    }
  }

  method FindRemoval(net: Network, policy: Policy, nodes: set<Id>, edges: set<Id>) returns (round: Removal)
    requires edges <= net.edges.Keys
    ensures IsRemoval(net, policy, nodes, edges, round)
    ensures round.edges <= edges && round.nodes <= nodes
  {
    var remove: set<Id> := {};
    var todo := edges;
    while todo != {}
      invariant todo <= edges
      invariant forall id :: id in remove <==> id in edges - todo && !Supported(net, policy, net.edges[id], nodes)
      decreases |todo|
    {
      var id :| id in todo;
      if !Supported(net, policy, net.edges[id], nodes) {
        remove := remove + {id};
      }
      todo := todo - {id};
    }
    round := Removal(remove, nodes - Produced(net, edges - remove) - policy.initial);
  }

  /** The active part after the first k rounds. */
  function NodesAfter(net: Network, rounds: seq<Removal>): set<Id>
  {
    if rounds == [] then net.nodes.Keys else NodesAfter(net, rounds[..|rounds| - 1]) - rounds[|rounds| - 1].nodes
  }

  function EdgesAfter(net: Network, rounds: seq<Removal>): set<Id>
  {
    if rounds == [] then net.edges.Keys else EdgesAfter(net, rounds[..|rounds| - 1]) - rounds[|rounds| - 1].edges
  }

  /** Every recorded round is exactly what the survivors of the earlier rounds had to give up, and is not empty. */
  ghost predicate AreRounds(net: Network, policy: Policy, rounds: seq<Removal>)
  {
    forall k: nat :: k < |rounds| ==>
      && IsRemoval(net, policy, NodesAfter(net, rounds[..k]), EdgesAfter(net, rounds[..k]), rounds[k])
      && rounds[k] != Removal({}, {})
  }

  lemma AppendRound(net: Network, policy: Policy, rounds: seq<Removal>, round: Removal)
    requires AreRounds(net, policy, rounds)
    requires IsRemoval(net, policy, NodesAfter(net, rounds), EdgesAfter(net, rounds), round)
    requires round != Removal({}, {})
    ensures AreRounds(net, policy, rounds + [round])
    ensures NodesAfter(net, rounds + [round]) == NodesAfter(net, rounds) - round.nodes
    ensures EdgesAfter(net, rounds + [round]) == EdgesAfter(net, rounds) - round.edges
  {
    var more := rounds + [round];
    assert more[..|more| - 1] == rounds;
    forall k: nat | k < |more|
      ensures IsRemoval(net, policy, NodesAfter(net, more[..k]), EdgesAfter(net, more[..k]), more[k])
      ensures more[k] != Removal({}, {})
    {
      if k < |rounds| {
        assert more[..k] == rounds[..k];
      }
    }
  }

  lemma RoundShrinks(nodes: set<Id>, edges: set<Id>, round: Removal)
    requires round.nodes <= nodes && round.edges <= edges && round != Removal({}, {})
    ensures |nodes - round.nodes| + |edges - round.edges| < |nodes| + |edges|
  {
    SubsetCardinality(nodes - round.nodes, nodes);
    SubsetCardinality(edges - round.edges, edges);
    if round.nodes != {} {
      var n :| n in round.nodes;
    } else {
      var e :| e in round.edges;
    }
  }

  ghost predicate Encloses(net: Network, policy: Policy, nodes: set<Id>, edges: set<Id>)
  {
    forall n, e :: SelfSupporting(net, policy, n, e) ==> n <= nodes && e <= edges
  }

  lemma RoundKeepsEnclosing(net: Network, policy: Policy, nodes: set<Id>, edges: set<Id>, round: Removal)
    requires edges <= net.edges.Keys && IsRemoval(net, policy, nodes, edges, round)
    requires Encloses(net, policy, nodes, edges)
    ensures Encloses(net, policy, nodes - round.nodes, edges - round.edges)
  {
    forall n, e | SelfSupporting(net, policy, n, e) ensures n <= nodes - round.nodes && e <= edges - round.edges {
      RemovalSparesSelfSupporting(net, policy, nodes, edges, round, n, e);
    }
  }

  /** support_core: the greatest self-supporting pair, with the rounds that led to it. */
  method FindCore(net: Network, policy: Policy, targets: set<Id>)
    returns (formed: bool, nodes: set<Id>, edges: set<Id>, collapsed: set<Id>, rounds: seq<Removal>)
    ensures IsCore(net, policy, nodes, edges)
    ensures AreRounds(net, policy, rounds)
    ensures nodes == NodesAfter(net, rounds) && edges == EdgesAfter(net, rounds)
    ensures |rounds| <= |net.nodes| + |net.edges|
    ensures collapsed == targets - nodes && (formed <==> collapsed == {})
  {
    nodes, edges, rounds := net.nodes.Keys, net.edges.Keys, [];
    while true
      invariant nodes <= net.nodes.Keys && edges <= net.edges.Keys
      invariant Encloses(net, policy, nodes, edges)
      invariant AreRounds(net, policy, rounds)
      invariant nodes == NodesAfter(net, rounds) && edges == EdgesAfter(net, rounds)
      invariant |rounds| + |nodes| + |edges| <= |net.nodes| + |net.edges|
      decreases |nodes| + |edges|
    {
      var round := FindRemoval(net, policy, nodes, edges);
      if round.edges == {} && round.nodes == {} {
        StableIsSelfSupporting(net, policy, nodes, edges, round);
        break;
      }
      RoundShrinks(nodes, edges, round);
      RoundKeepsEnclosing(net, policy, nodes, edges, round);
      AppendRound(net, policy, rounds, round);
      nodes, edges, rounds := nodes - round.nodes, edges - round.edges, rounds + [round];
    }
    collapsed := targets - nodes;
    formed := targets <= nodes;
  }

  // ----- perturbation

  /** The network a perturbation case leaves: removed references disappear as states and as transformations. */
  function Without(net: Network, removed: set<Id>): (reduced: Network)
  {
    Network(net.nodes - removed, net.edges - removed)
  }

  /** The self-supporting pairs of a perturbed network are those of the original that avoid what was removed. */
  lemma PerturbedPairs(net: Network, policy: Policy, removed: set<Id>, nodes: set<Id>, edges: set<Id>)
    ensures SelfSupporting(Without(net, removed), policy, nodes, edges)
       <==> SelfSupporting(net, policy, nodes, edges) && nodes !! removed && edges !! removed
  {
    var reduced := Without(net, removed);
    if nodes <= reduced.nodes.Keys && edges <= reduced.edges.Keys {
      forall id | id in edges
        ensures Supported(reduced, policy, reduced.edges[id], nodes) <==> Supported(net, policy, net.edges[id], nodes)
      {
        SupportIsLocal(reduced, net, policy, net.edges[id], nodes);
      }
      assert Produced(reduced, edges) == Produced(net, edges);
    }
  }

  /** A perturbation only shrinks the core, so it can only add collapsed targets. */
  lemma PerturbationShrinksCore(net: Network, policy: Policy, removed: set<Id>, targets: set<Id>,
                                nodes: set<Id>, edges: set<Id>, n: set<Id>, e: set<Id>)
    requires IsCore(net, policy, nodes, edges) && IsCore(Without(net, removed), policy, n, e)
    ensures n <= nodes - removed && e <= edges - removed
    ensures targets - nodes <= targets - n
  {
    PerturbedPairs(net, policy, removed, n, e);
  }

  /** A core survives a perturbation unchanged exactly when the perturbation does not touch it. */
  lemma CoreSurvivesIffUntouched(net: Network, policy: Policy, removed: set<Id>,
                                 nodes: set<Id>, edges: set<Id>, n: set<Id>, e: set<Id>)
    requires IsCore(net, policy, nodes, edges) && IsCore(Without(net, removed), policy, n, e)
    ensures n == nodes && e == edges <==> nodes !! removed && edges !! removed
  {
    PerturbationShrinksCore(net, policy, removed, {}, nodes, edges, n, e);
    PerturbedPairs(net, policy, removed, nodes, edges);
  }

  /** Only what a perturbation removes from the core itself decides which core is left. */
  lemma OnlyCoreMembersMatter(net: Network, policy: Policy, removed: set<Id>,
                              nodes: set<Id>, edges: set<Id>, n: set<Id>, e: set<Id>)
    requires IsCore(net, policy, nodes, edges) && IsCore(Without(net, removed), policy, n, e)
    ensures IsCore(Without(net, removed * (nodes + edges)), policy, n, e)
  {
    var touched := removed * (nodes + edges);
    forall n1, e1 ensures SelfSupporting(Without(net, touched), policy, n1, e1)
                     <==> SelfSupporting(Without(net, removed), policy, n1, e1)
    {
      PerturbedPairs(net, policy, touched, n1, e1);
      PerturbedPairs(net, policy, removed, n1, e1);
    }
  }
}
