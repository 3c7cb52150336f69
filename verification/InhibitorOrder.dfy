/** When inhibitors make the closures depend on the order of the queue: the exact condition on the network. */
module InhibitorOrder {
  import opened Ids
  import opened NetworkClosure
  import opened Confluence
  import Q = QueueClosure

  function Live(net: Network): set<Id>
  {
    set id | id in net.nodes && net.nodes[id].lifecycleValid
  }

  /** The states available whatever the contract declares. */
  function Given(net: Network): set<Id>
  {
    InitialStates(net, {})
  }

  function Inhibitors(net: Network, id: Id): set<Id>
  {
    if id in net.edges then net.edges[id].inhibitors else {}
  }

  function Allowed(net: Network): set<Id> -> bool
  {
    (a: set<Id>) => Given(net) <= a <= Live(net)
  }

  /** Exactly the allowed sets are initial states for some declaration. */
  lemma AllowedAreInitial(net: Network, a: set<Id>)
    ensures Allowed(net)(a) <==> exists declared :: InitialStates(net, declared) == a
  {
    if Allowed(net)(a) {
      assert InitialStates(net, a) == a;
    }
  }

  /** The most that can be available while neither transformation is inhibited. */
  function Uninhibited(net: Network, e: Id, f: Id): set<Id>
  {
    Live(net) - Inhibitors(net, e) - Inhibitors(net, f)
  }

  /**
   * Two transformations that can both be ready, one of which makes an inhibitor of the other available. Both are
   * looked at in the largest set of live states without their inhibitors, which has to contain the given ones.
   */
  predicate Conflict(net: Network, ready: (Id, set<Id>) -> bool, e: Id, f: Id)
  {
    && e != f && Given(net) <= Uninhibited(net, e, f)
    && ready(e, Uninhibited(net, e, f)) && ready(f, Uninhibited(net, e, f))
    && OutputsOf(net)(f) * Inhibitors(net, e) != {}
  }

  predicate Conflicting(net: Network, ids: set<Id>, ready: (Id, set<Id>) -> bool)
  {
    exists e, f :: e in ids && f in ids && Conflict(net, ready, e, f)
  }

  // ----- what readiness is made of

  /** Ready with more available as long as no inhibitor is; lost exactly to an inhibitor; outputs are live. */
  ghost predicate Inhibited(net: Network, ready: (Id, set<Id>) -> bool)
  {
    && (forall e, a :: ready(e, a) ==> a * Inhibitors(net, e) == {} && OutputsOf(net)(e) <= Live(net))
    && forall e, a, b :: a <= b && ready(e, a) && b * Inhibitors(net, e) == {} ==> ready(e, b)
  }

  lemma FeasibleIsInhibited(net: Network)
    ensures Inhibited(net, Feasible(net))
  {
    forall e, a, b: set<Id> | a <= b && Feasible(net)(e, a) && b * Inhibitors(net, e) == {} ensures Feasible(net)(e, b) {
    }
  }

  lemma VerifiedIsInhibited(net: Network)
    ensures Inhibited(net, Verified(net))
  {
    forall e, a, b: set<Id> | a <= b && Verified(net)(e, a) && b * Inhibitors(net, e) == {} ensures Verified(net)(e, b) {
      assert AvailableEvidence(a, net.nodes) <= AvailableEvidence(b, net.nodes);
      assert AvailableRoles(a, net.nodes) <= AvailableRoles(b, net.nodes);
    }
  }

  lemma InhibitedReadiness(net: Network, ids: set<Id>, ready: (Id, set<Id>) -> bool)
    requires Inhibited(net, ready)
    ensures LostForGood(ready) && Stays(ids, ready, OutputsOf(net), Allowed(net))
  {
    forall e, a: set<Id>, b: set<Id>, c: set<Id> | a <= b <= c && ready(e, a) && !ready(e, b) ensures !ready(e, c) {
      var p :| p in b * Inhibitors(net, e);
      assert p in c * Inhibitors(net, e);
    }
  }

  /** A ready transformation is spoilt in some allowed set exactly when there is a conflict. */
  lemma SpoiltIffConflict(net: Network, ids: set<Id>, ready: (Id, set<Id>) -> bool)
    requires Inhibited(net, ready)
    ensures HasConflict(ids, ready, OutputsOf(net), Allowed(net)) <==> Conflicting(net, ids, ready)
  {
    if HasConflict(ids, ready, OutputsOf(net), Allowed(net)) {
      var a, e, f :| Allowed(net)(a) && e in ids && f in ids && Spoils(ready, OutputsOf(net), a, e, f);
      SpoiltConflicts(net, ready, a, e, f);
    }
    if Conflicting(net, ids, ready) {
      var e, f :| e in ids && f in ids && Conflict(net, ready, e, f);
      var a := Uninhibited(net, e, f);
      var p :| p in OutputsOf(net)(f) * Inhibitors(net, e);
      assert p in (a + OutputsOf(net)(f)) * Inhibitors(net, e);
      assert Allowed(net)(a) && Spoils(ready, OutputsOf(net), a, e, f);
    }
  }

  lemma SpoiltConflicts(net: Network, ready: (Id, set<Id>) -> bool, a: set<Id>, e: Id, f: Id)
    requires Inhibited(net, ready) && Allowed(net)(a) && Spoils(ready, OutputsOf(net), a, e, f)
    ensures Conflict(net, ready, e, f)
  {
    var most, more := Uninhibited(net, e, f), a + OutputsOf(net)(f);
    forall x | x in a ensures x in most {
      assert x !in a * Inhibitors(net, e) && x !in a * Inhibitors(net, f);
    }
    assert most * Inhibitors(net, e) == {} && most * Inhibitors(net, f) == {};
    assert more * Inhibitors(net, e) != {};
    var p :| p in more * Inhibitors(net, e);
    assert p !in a;
    assert p in OutputsOf(net)(f) * Inhibitors(net, e);
  }

  // ----- main results

  /** For every declaration and any two orders in which the queue can run dry, the closures agree. */
  ghost predicate SameForEveryOrder(net: Network, ids: set<Id>, ready: (Id, set<Id>) -> bool)
  {
    forall declared, o, p :: Agree(ids, ready, OutputsOf(net), InitialStates(net, declared), o, p)
  }

  lemma SameIffIrrelevant(net: Network, ids: set<Id>, ready: (Id, set<Id>) -> bool)
    ensures SameForEveryOrder(net, ids, ready) <==> OrderIsIrrelevant(ids, ready, OutputsOf(net), Allowed(net))
  {
    if SameForEveryOrder(net, ids, ready) {
      forall a, o, p | Allowed(net)(a) ensures Agree(ids, ready, OutputsOf(net), a, o, p) {
        AllowedAreInitial(net, a);
        var declared :| InitialStates(net, declared) == a;
        assert Agree(ids, ready, OutputsOf(net), InitialStates(net, declared), o, p);
      }
    }
    if OrderIsIrrelevant(ids, ready, OutputsOf(net), Allowed(net)) {
      forall declared, o, p ensures Agree(ids, ready, OutputsOf(net), InitialStates(net, declared), o, p) {
        AllowedAreInitial(net, InitialStates(net, declared));
      }
    }
  }

  lemma SameIffNoConflict(net: Network, ids: set<Id>, ready: (Id, set<Id>) -> bool)
    requires Inhibited(net, ready)
    ensures SameForEveryOrder(net, ids, ready) <==> !Conflicting(net, ids, ready)
  {
    InhibitedReadiness(net, ids, ready);
    SameIffIrrelevant(net, ids, ready);
    SpoiltIffConflict(net, ids, ready);
    OrderIsIrrelevantIff(ids, ready, OutputsOf(net), Allowed(net));
  }

  /** The feasible closure is independent of the queue order iff no two transformations conflict. */
  lemma FeasibleOrderMattersIff(net: Network)
    ensures SameForEveryOrder(net, net.edges.Keys, Feasible(net)) <==> !Conflicting(net, net.edges.Keys, Feasible(net))
  {
    FeasibleIsInhibited(net);
    SameIffNoConflict(net, net.edges.Keys, Feasible(net));
  }

  /** So is the verified closure over any set of feasible transformations. */
  lemma VerifiedOrderMattersIff(net: Network, feasible: set<Id>)
    ensures SameForEveryOrder(net, feasible, Verified(net)) <==> !Conflicting(net, feasible, Verified(net))
  {
    VerifiedIsInhibited(net);
    SameIffNoConflict(net, feasible, Verified(net));
  }

  /** Without inhibitors there is no conflict. */
  lemma NoInhibitorsNoConflict(net: Network, ids: set<Id>, ready: (Id, set<Id>) -> bool)
    requires InhibitorFree(net)
    ensures !Conflicting(net, ids, ready)
  {
  }
}
