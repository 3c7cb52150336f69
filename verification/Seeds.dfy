/** What a formation seed has to achieve: with it, every target is derivable by eligible transformations. */
module Seeds {
  import opened Ids
  import opened Truths

  datatype Edge = Edge(
    external: bool, version: Truth, lifecycle: Truth, authorityRefs: set<Id>, authority: Truth,
    inputs: set<Id>, readEnablers: set<Id>, outputs: set<Id>)

  type Network = map<Id, Edge>

  predicate Eligible(edge: Edge)
  {
    && !edge.external && edge.version == True && edge.lifecycle == True
    && (edge.authorityRefs == {} || edge.authority == True)
  }

  function Required(edge: Edge): set<Id>
  {
    edge.inputs + edge.readEnablers
  }

  /** The eligible transformations that produce a state. */
  function Producers(net: Network, state: Id): set<Id>
  {
    set id | id in net && Eligible(net[id]) && state in net[id].outputs
  }

  // ----- derivation

  /** Admissible, and everything it takes or reads is in the set. */
  ghost predicate MayFire(edge: Edge, places: set<Id>)
  {
    && !edge.external && edge.version == True && edge.lifecycle == True
    && (forall a :: a in edge.authorityRefs ==> edge.authority == True)
    && (forall p :: p in edge.inputs ==> p in places) && (forall p :: p in edge.readEnablers ==> p in places)
  }

  ghost predicate Closed(net: Network, places: set<Id>)
  {
    forall id :: id in net && MayFire(net[id], places) ==> net[id].outputs <= places
  }

  lemma EligibleMayFire(edge: Edge, places: set<Id>)
    ensures MayFire(edge, places) <==> Eligible(edge) && Required(edge) <= places
  {
    assert (exists a :: a in edge.authorityRefs) <==> edge.authorityRefs != {};
    assert edge.inputs <= places <==> forall p :: p in edge.inputs ==> p in places;
    assert edge.readEnablers <= places <==> forall p :: p in edge.readEnablers ==> p in places;
  }

  /** In every set that contains the base and is closed under the eligible transformations. */
  ghost predicate Derives(net: Network, base: set<Id>, goal: Id)
  {
    forall places :: base <= places && Closed(net, places) ==> goal in places
  }

  ghost predicate DerivesAll(net: Network, base: set<Id>, goals: set<Id>)
  {
    forall goal :: goal in goals ==> Derives(net, base, goal)
  }

  lemma MoreDerivesMore(net: Network, base: set<Id>, more: set<Id>, goals: set<Id>)
    requires base <= more && DerivesAll(net, base, goals)
    ensures DerivesAll(net, more, goals)
  {
    forall goal, places | goal in goals && more <= places && Closed(net, places) ensures goal in places {
      assert Derives(net, base, goal) && base <= places;
    }
  }

  lemma ByProducer(net: Network, base: set<Id>, state: Id, id: Id)
    requires id in Producers(net, state) && DerivesAll(net, base, Required(net[id]))
    ensures Derives(net, base, state)
  {
    forall places | base <= places && Closed(net, places) ensures state in places {
      forall r | r in Required(net[id]) ensures r in places {
        assert Derives(net, base, r);
      }
    }
  }

  function Outputs(net: Network): set<Id>
  {
    set id, p | id in net && p in net[id].outputs :: p
  }

  /** What is derivable but not given has a producer whose requirements are all derivable. */
  lemma LastStep(net: Network, base: set<Id>, state: Id) returns (id: Id)
    requires Derives(net, base, state) && state !in base
    ensures id in Producers(net, state) && DerivesAll(net, base, Required(net[id]))
  {
    var derivable := set x | x in base + Outputs(net) && Derives(net, base, x);
    var without := derivable - {state};
    DerivableIsClosed(net, base, derivable);
    if forall id :: id in Producers(net, state) ==> !(Required(net[id]) <= derivable) {
      forall id | id in net && Eligible(net[id]) && Required(net[id]) <= without ensures net[id].outputs <= without {
        assert Required(net[id]) <= derivable && id !in Producers(net, state);
      }
      assert base <= without && Closed(net, without);
      assert false;
    }
    id :| id in Producers(net, state) && Required(net[id]) <= derivable;
  }

  lemma DerivableIsClosed(net: Network, base: set<Id>, derivable: set<Id>)
    requires derivable == set x | x in base + Outputs(net) && Derives(net, base, x)
    ensures Closed(net, derivable) && base <= derivable
  {
    forall id, p | id in net && Eligible(net[id]) && Required(net[id]) <= derivable && p in net[id].outputs
      ensures p in derivable
    {
      assert id in Producers(net, p);
      ByProducer(net, base, p, id);
    }
  }
}
