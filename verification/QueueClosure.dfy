/**
 * Work-list closure over a set of rules: a rule is applied when it is ready on what is available and
 * then makes its outputs available. Runs, stuck runs, and what does not depend on the queue order.
 */
module QueueClosure {
  import opened Ids

  /** What is available after the rules have been applied in this order. */
  function After(outputs: Id -> set<Id>, initial: set<Id>, order: seq<Id>): set<Id>
  {
    if order == [] then initial else After(outputs, initial, order[..|order| - 1]) + outputs(order[|order| - 1])
  }

  /** Each rule is ready when it is applied. */
  ghost predicate IsRun(ids: set<Id>, ready: (Id, set<Id>) -> bool, outputs: Id -> set<Id>, initial: set<Id>, order: seq<Id>)
  {
    forall i :: 0 <= i < |order| ==> order[i] in ids && ready(order[i], After(outputs, initial, order[..i]))
  }

  /** No rule outside the applied ones is ready. */
  ghost predicate Stuck(ids: set<Id>, ready: (Id, set<Id>) -> bool, applied: set<Id>, available: set<Id>)
  {
    forall id :: id in ids && id !in applied ==> !ready(id, available)
  }

  ghost predicate Monotone(ready: (Id, set<Id>) -> bool)
  {
    forall id, fewer, more :: fewer <= more && ready(id, fewer) ==> ready(id, more)
  }

  ghost predicate Closed(ids: set<Id>, ready: (Id, set<Id>) -> bool, outputs: Id -> set<Id>, places: set<Id>)
  {
    forall id :: id in ids && ready(id, places) ==> outputs(id) <= places
  }

  /** The least closed set above the initial one. */
  ghost predicate IsLeastFixpoint(ids: set<Id>, ready: (Id, set<Id>) -> bool, outputs: Id -> set<Id>,
                                  initial: set<Id>, places: set<Id>)
  {
    && initial <= places && Closed(ids, ready, outputs, places)
    && forall other :: initial <= other && Closed(ids, ready, outputs, other) ==> places <= other
  }

  function Members(order: seq<Id>): set<Id>
  {
    set id | id in order
  }

  lemma RunExtends(ids: set<Id>, ready: (Id, set<Id>) -> bool, outputs: Id -> set<Id>, initial: set<Id>, order: seq<Id>, id: Id)
    requires IsRun(ids, ready, outputs, initial, order) && id in ids && ready(id, After(outputs, initial, order))
    ensures IsRun(ids, ready, outputs, initial, order + [id])
    ensures After(outputs, initial, order + [id]) == After(outputs, initial, order) + outputs(id)
    ensures Members(order + [id]) == Members(order) + {id}
  {
    var more := order + [id];
    assert more[..|order|] == order;
    forall i | 0 <= i < |more| ensures more[i] in ids && ready(more[i], After(outputs, initial, more[..i])) {
      if i < |order| {
        assert more[..i] == order[..i];
      }
    }
  }

  // ----- the work list

  /** A run so far; every rule neither applied nor pending is not ready. */
  ghost predicate Working(ids: set<Id>, ready: (Id, set<Id>) -> bool, outputs: Id -> set<Id>, initial: set<Id>,
                          order: seq<Id>, available: set<Id>, applied: set<Id>, pending: seq<Id>)
  {
    && IsRun(ids, ready, outputs, initial, order)
    && available == After(outputs, initial, order) && applied == Members(order)
    && (forall id :: id in pending ==> id in ids)
    && (forall id :: id in ids && id !in applied ==> id in pending || !ready(id, available))
  }

  lemma HeadAndRest(pending: seq<Id>)
    requires pending != []
    ensures pending == [pending[0]] + pending[1..] && pending[0] in pending
  {
  }

  lemma Drop(ids: set<Id>, ready: (Id, set<Id>) -> bool, outputs: Id -> set<Id>, initial: set<Id>,
             order: seq<Id>, available: set<Id>, applied: set<Id>, id: Id, rest: seq<Id>)
    requires Working(ids, ready, outputs, initial, order, available, applied, [id] + rest)
    requires id in applied || !ready(id, available)
    ensures Working(ids, ready, outputs, initial, order, available, applied, rest)
  {
  }

  /** Applying a ready rule: nothing new, or everything unapplied pending again. */
  lemma Apply(ids: set<Id>, ready: (Id, set<Id>) -> bool, outputs: Id -> set<Id>, initial: set<Id>,
              order: seq<Id>, available: set<Id>, applied: set<Id>, id: Id, rest: seq<Id>, again: seq<Id>)
    requires Working(ids, ready, outputs, initial, order, available, applied, [id] + rest)
    requires id in ids && ready(id, available)
    requires outputs(id) <= available || forall x :: x in ids && x !in applied + {id} ==> x in again
    requires forall x :: x in again ==> x in ids
    ensures Working(ids, ready, outputs, initial, order + [id], available + outputs(id), applied + {id}, rest + again)
  {
    RunExtends(ids, ready, outputs, initial, order, id);
    if outputs(id) <= available {
      assert available + outputs(id) == available;
    }
  }

  lemma NewOutputs(nodes: set<Id>, available: set<Id>, outputs: set<Id>)
    requires outputs <= nodes && outputs - available != {}
    ensures |nodes - (available + outputs)| < |nodes - available|
  {
    var o :| o in outputs - available;
    SubsetCardinality(nodes - (available + outputs), nodes - available);
    assert o in nodes - available;
  }

  lemma NothingNew(available: set<Id>, outputs: set<Id>)
    requires outputs - available == {}
    ensures outputs <= available
  {
    forall o | o in outputs ensures o in available {
      assert o !in outputs - available;
    }
  }

  /** Applies a ready rule; if that makes something new available, everything unapplied is pending again. */
  method ApplyRule(ids: set<Id>, ghost ready: (Id, set<Id>) -> bool, ghost outputs: Id -> set<Id>, ghost initial: set<Id>,
                   ghost order: seq<Id>, available: set<Id>, applied: set<Id>, id: Id, rest: seq<Id>,
                   made: set<Id>, ghost universe: set<Id>)
    returns (ghost order': seq<Id>, available': set<Id>, applied': set<Id>, pending: seq<Id>)
    requires Working(ids, ready, outputs, initial, order, available, applied, [id] + rest)
    requires id in ids && ready(id, available) && made == outputs(id) && available + made <= universe
    ensures Working(ids, ready, outputs, initial, order', available', applied', pending)
    ensures available' <= universe
    ensures |universe - available'| < |universe - available| || (available' == available && pending == rest)
  {
    var again: seq<Id> := [];
    if made - available != {} {
      NewOutputs(universe, available, made);
      again := Listed(ids - (applied + {id}));
    } else {
      NothingNew(available, made);
    }
    Apply(ids, ready, outputs, initial, order, available, applied, id, rest, again);
    order', available', applied', pending := order + [id], available + made, applied + {id}, rest + again;
  }

  /** Rules make only places of a finite universe available. */
  ghost predicate Bounded(ids: set<Id>, ready: (Id, set<Id>) -> bool, outputs: Id -> set<Id>, universe: set<Id>)
  {
    forall id, a :: id in ids && ready(id, a) ==> outputs(id) <= universe
  }

  /** The work-list loop; one of the two closures skips rules that come up again after they were applied. */
  method WorkList(ids: set<Id>, ready: (Id, set<Id>) -> bool, outputs: Id -> set<Id>, initial: set<Id>, skip: bool,
                  ghost universe: set<Id>)
    returns (available: set<Id>, applied: set<Id>, ghost order: seq<Id>)
    requires initial <= universe && Bounded(ids, ready, outputs, universe)
    ensures Working(ids, ready, outputs, initial, order, available, applied, []) && Stuck(ids, ready, applied, available)
  {
    available, applied, order := initial, {}, [];
    var pending := Listed(ids);
    while pending != []
      invariant available <= universe
      invariant Working(ids, ready, outputs, initial, order, available, applied, pending)
      decreases |universe - available|, |pending|
    {
      var id, rest := pending[0], pending[1..];
      HeadAndRest(pending);
      if (skip && id in applied) || !ready(id, available) {
        Drop(ids, ready, outputs, initial, order, available, applied, id, rest);
        pending := rest;
      } else {
        order, available, applied, pending :=
          ApplyRule(ids, ready, outputs, initial, order, available, applied, id, rest, outputs(id), universe);
      }
    }
  }

  lemma {:induction false} AfterContains(outputs: Id -> set<Id>, initial: set<Id>, order: seq<Id>, k: nat)
    requires k <= |order|
    ensures After(outputs, initial, order[..k]) <= After(outputs, initial, order)
    ensures initial <= After(outputs, initial, order)
    ensures k < |order| ==> outputs(order[k]) <= After(outputs, initial, order)
    decreases |order|
  {
    if k < |order| {
      var init := order[..|order| - 1];
      if k < |init| {
        AfterContains(outputs, initial, init, k);
        assert init[..k] == order[..k];
      } else {
        AfterContains(outputs, initial, init, 0);
      }
    } else {
      assert order[..k] == order;
      if order != [] {
        AfterContains(outputs, initial, order[..|order| - 1], 0);
      }
    }
  }

  /** Nothing that becomes available leaves a closed set. */
  lemma {:induction false} RunStaysInClosed(ids: set<Id>, ready: (Id, set<Id>) -> bool, outputs: Id -> set<Id>, initial: set<Id>,
                                            order: seq<Id>, places: set<Id>)
    requires Monotone(ready) && IsRun(ids, ready, outputs, initial, order)
    requires initial <= places && Closed(ids, ready, outputs, places)
    ensures After(outputs, initial, order) <= places
  {
    if order != [] {
      var init, id := order[..|order| - 1], order[|order| - 1];
      forall i | 0 <= i < |init| ensures init[i] in ids && ready(init[i], After(outputs, initial, init[..i])) {
        assert init[..i] == order[..i] && order[i] in ids;
      }
      RunStaysInClosed(ids, ready, outputs, initial, init, places);
      assert ready(id, After(outputs, initial, init));
      assert ready(id, places);
    }
  }

  /** With monotone rules every stuck run ends in the least fixpoint and applies exactly the rules ready there. */
  lemma StuckRunIsLeast(ids: set<Id>, ready: (Id, set<Id>) -> bool, outputs: Id -> set<Id>, initial: set<Id>, order: seq<Id>)
    requires Monotone(ready) && IsRun(ids, ready, outputs, initial, order)
    requires Stuck(ids, ready, Members(order), After(outputs, initial, order))
    ensures IsLeastFixpoint(ids, ready, outputs, initial, After(outputs, initial, order))
    ensures Members(order) == set id | id in ids && ready(id, After(outputs, initial, order))
  {
    var all := After(outputs, initial, order);
    AfterContains(outputs, initial, order, 0);
    forall id | id in order ensures id in ids && outputs(id) <= all && ready(id, all) {
      var k :| 0 <= k < |order| && order[k] == id;
      AfterContains(outputs, initial, order, k);
      assert ready(order[k], After(outputs, initial, order[..k]));
    }
    forall other | initial <= other && Closed(ids, ready, outputs, other) ensures all <= other {
      RunStaysInClosed(ids, ready, outputs, initial, order, other);
    }
  }

  /** The queue order does not matter: two stuck runs of monotone rules agree. */
  lemma OrderDoesNotMatter(ids: set<Id>, ready: (Id, set<Id>) -> bool, outputs: Id -> set<Id>, initial: set<Id>,
                           order: seq<Id>, another: seq<Id>)
    requires Monotone(ready)
    requires IsRun(ids, ready, outputs, initial, order) && Stuck(ids, ready, Members(order), After(outputs, initial, order))
    requires IsRun(ids, ready, outputs, initial, another) && Stuck(ids, ready, Members(another), After(outputs, initial, another))
    ensures After(outputs, initial, order) == After(outputs, initial, another)
    ensures Members(order) == Members(another)
  {
    StuckRunIsLeast(ids, ready, outputs, initial, order);
    StuckRunIsLeast(ids, ready, outputs, initial, another);
  }

  /** A run over fewer rules makes no more available than one that applied all of them. */
  lemma {:induction false} FewerRulesReachLess(outputs: Id -> set<Id>, initial: set<Id>, order: seq<Id>, another: seq<Id>)
    requires Members(order) <= Members(another)
    ensures After(outputs, initial, order) <= After(outputs, initial, another)
  {
    if order == [] {
      AfterContains(outputs, initial, another, 0);
    } else {
      var init, id := order[..|order| - 1], order[|order| - 1];
      assert order == init + [id] && id in Members(order);
      forall x | x in Members(init) ensures x in Members(another) {
        assert x in Members(order);
      }
      FewerRulesReachLess(outputs, initial, init, another);
      var k: nat :| k < |another| && another[k] == id;
      AfterContains(outputs, initial, another, k);
    }
  }
}
