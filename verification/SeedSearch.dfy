/**
 * The memoised search for formation seeds. Memo entries may have been made under any stack of states
 * in progress, and producers may form cycles; every entry still describes sets that suffice.
 */
module SeedSearch {
  import opened Ids
  import opened MinimalSets
  import opened Seeds

  const EXACT_LIMIT: nat := 16
  const MAXIMUM_DEPTH: nat := 24
  const BEAM_WIDTH: nat := 32
  const MAXIMUM_RESULTS: nat := 3

  // ----- candidate sets

  /** Missing states which, added to the available ones, make all goals derivable. */
  ghost predicate Seed(net: Network, available: set<Id>, goals: set<Id>, x: set<Id>)
  {
    x !! available && DerivesAll(net, available + x, goals)
  }

  /** Nothing in the set can be produced. */
  ghost predicate LeafSet(net: Network, x: set<Id>)
  {
    forall s :: s in x ==> Producers(net, s) == {}
  }

  /** Every set of leaves that suffices contains a listed set. */
  ghost predicate CoversLeafSeeds(net: Network, available: set<Id>, goals: set<Id>, sets: seq<set<Id>>)
  {
    forall s :: LeafSet(net, s) && DerivesAll(net, available + s, goals) ==> Covered(sets, s)
  }

  ghost predicate AllSeeds(net: Network, available: set<Id>, strict: bool, goals: set<Id>, sets: seq<set<Id>>)
  {
    forall i :: 0 <= i < |sets| ==> Seed(net, available, goals, sets[i]) && (strict ==> LeafSet(net, sets[i]))
  }

  /** At least one set, all of them seeds; strictly, also leaf sets that cover all seeds made of leaves. */
  ghost predicate Good(net: Network, available: set<Id>, strict: bool, goals: set<Id>, sets: seq<set<Id>>)
  {
    && sets != [] && AllSeeds(net, available, strict, goals, sets)
    && (strict ==> CoversLeafSeeds(net, available, goals, sets))
  }

  lemma NothingNeeded(net: Network, available: set<Id>, strict: bool, goals: set<Id>)
    requires goals <= available
    ensures Good(net, available, strict, goals, [{}])
  {
    assert available + {} == available;
    forall s ensures Covered([{}], s) {
      assert [{}][0] <= s;
    }
  }

  lemma ItselfNeeded(net: Network, available: set<Id>, strict: bool, state: Id)
    requires state !in available && (strict ==> Producers(net, state) == {})
    ensures Good(net, available, strict, {state}, [{state}])
  {
    if strict {
      forall s | LeafSet(net, s) && DerivesAll(net, available + s, {state}) ensures Covered([{state}], s) {
        assert Derives(net, available + s, state);
        if state !in s {
          var id := LastStep(net, available + s, state);
        }
        assert [{state}][0] <= s;
      }
    }
  }

  lemma UnionsAreGood(net: Network, available: set<Id>, strict: bool, goals: set<Id>, more: set<Id>,
                      left: seq<set<Id>>, right: seq<set<Id>>)
    requires Good(net, available, strict, goals, left) && Good(net, available, strict, more, right)
    ensures Good(net, available, strict, goals + more, Unions(left, right))
  {
    var all := Unions(left, right);
    assert IsUnion(left, right, left[0] + right[0]);
    forall k | 0 <= k < |all|
      ensures Seed(net, available, goals + more, all[k]) && (strict ==> LeafSet(net, all[k]))
    {
      assert all[k] in all;
      var i, j :| 0 <= i < |left| && 0 <= j < |right| && all[k] == left[i] + right[j];
      MoreDerivesMore(net, available + left[i], available + all[k], goals);
      MoreDerivesMore(net, available + right[j], available + all[k], more);
    }
    if strict {
      forall s | LeafSet(net, s) && DerivesAll(net, available + s, goals + more) ensures Covered(all, s) {
        UnionCovers(net, available, goals, more, left, right, s);
      }
    }
  }

  lemma UnionCovers(net: Network, available: set<Id>, goals: set<Id>, more: set<Id>,
                    left: seq<set<Id>>, right: seq<set<Id>>, s: set<Id>)
    requires CoversLeafSeeds(net, available, goals, left) && CoversLeafSeeds(net, available, more, right)
    requires LeafSet(net, s) && DerivesAll(net, available + s, goals + more)
    ensures Covered(Unions(left, right), s)
  {
    assert DerivesAll(net, available + s, goals) && DerivesAll(net, available + s, more);
    var i :| 0 <= i < |left| && left[i] <= s;
    var j :| 0 <= j < |right| && right[j] <= s;
    assert IsUnion(left, right, left[i] + right[j]);
    var all := Unions(left, right);
    var k :| 0 <= k < |all| && all[k] == left[i] + right[j];
  }

  lemma MinimalIsGood(net: Network, available: set<Id>, strict: bool, goals: set<Id>, sets: seq<set<Id>>, r: seq<set<Id>>)
    requires Good(net, available, strict, goals, sets) && AreMinimal(r, sets)
    ensures Good(net, available, strict, goals, r)
  {
    assert sets[0] in sets;
    MinimalCovers(r, sets, sets[0]);
    forall i | 0 <= i < |r| ensures Seed(net, available, goals, r[i]) && (strict ==> LeafSet(net, r[i])) {
      assert r[i] in r;
      var j :| 0 <= j < |sets| && sets[j] == r[i];
    }
    if strict {
      forall s | LeafSet(net, s) && DerivesAll(net, available + s, goals) ensures Covered(r, s) {
        var i :| 0 <= i < |sets| && sets[i] <= s;
        MinimalCovers(r, sets, sets[i]);
        var j :| 0 <= j < |r| && r[j] <= sets[i];
        assert r[j] <= s;
      }
    }
  }

  // ----- choosing a producer

  /** Seeds for the state that cover every leaf seed through one of the given producers. */
  ghost predicate Choices(net: Network, available: set<Id>, strict: bool, state: Id, ids: set<Id>, sets: seq<set<Id>>)
  {
    && AllSeeds(net, available, strict, {state}, sets)
    && (strict ==> forall id :: id in ids && id in net ==> CoversLeafSeeds(net, available, Required(net[id]), sets))
  }

  lemma OneMoreProducer(net: Network, available: set<Id>, strict: bool, state: Id, ids: set<Id>, sets: seq<set<Id>>,
                        id: Id, combinations: seq<set<Id>>)
    requires Choices(net, available, strict, state, ids, sets) && id in Producers(net, state)
    requires Good(net, available, strict, Required(net[id]), combinations)
    ensures Choices(net, available, strict, state, ids + {id}, sets + combinations)
  {
    var all := sets + combinations;
    forall i | 0 <= i < |combinations| ensures Seed(net, available, {state}, combinations[i]) {
      ByProducer(net, available + combinations[i], state, id);
    }
    forall s | Covered(sets, s) ensures Covered(all, s) {
      var i :| 0 <= i < |sets| && sets[i] <= s;
      assert all[i] <= s;
    }
    forall s | Covered(combinations, s) ensures Covered(all, s) {
      var i :| 0 <= i < |combinations| && combinations[i] <= s;
      assert all[|sets| + i] <= s;
    }
  }

  lemma AllProducers(net: Network, available: set<Id>, strict: bool, state: Id, sets: seq<set<Id>>)
    requires Choices(net, available, strict, state, Producers(net, state), sets)
    requires sets != [] && state !in available && Producers(net, state) != {}
    ensures Good(net, available, strict, {state}, sets)
  {
    if strict {
      forall s | LeafSet(net, s) && DerivesAll(net, available + s, {state}) ensures Covered(sets, s) {
        assert Derives(net, available + s, state);
        var id := LastStep(net, available + s, state);
        assert CoversLeafSeeds(net, available, Required(net[id]), sets);
      }
    }
  }

  /** The beam keeps only some of the minimal choices; they are still seeds. */
  method Beam(net: Network, available: set<Id>, ghost goals: set<Id>, sets: seq<set<Id>>) returns (beam: seq<set<Id>>)
    requires AllSeeds(net, available, false, goals, sets) && sets != []
    ensures AllSeeds(net, available, false, goals, beam) && beam != []
  {
    var minimal := Minimal(sets);
    MinimalIsGood(net, available, false, goals, sets, minimal);
    beam := Take(minimal, BEAM_WIDTH);
    TakeIsGood(net, available, goals, minimal, BEAM_WIDTH);
  }

  function Take(sets: seq<set<Id>>, k: nat): (r: seq<set<Id>>)
    ensures r <= sets && |r| <= k && (sets != [] && k > 0 ==> r != [])
  {
    if |sets| <= k then sets else sets[..k]
  }

  // ----- unresolved states

  function Needs(net: Network, state: Id): set<Id>
  {
    set id, r | id in Producers(net, state) && r in Required(net[id]) :: r
  }

  ghost predicate BackClosed(net: Network, available: set<Id>, states: set<Id>)
  {
    forall s :: s in states ==> Needs(net, s) <= states + available
  }

  /** The missing states from which a target is reached backwards through eligible producers. */
  ghost predicate IsUnresolved(net: Network, available: set<Id>, targets: set<Id>, states: set<Id>)
  {
    && states !! available && targets <= states + available && BackClosed(net, available, states)
    && forall other :: targets <= other + available && BackClosed(net, available, other) ==> states <= other
  }

  /** Nothing outside the backward-closed sets around the start and the goals has been added. */
  ghost predicate Within(net: Network, available: set<Id>, start: set<Id>, goals: set<Id>, result: set<Id>)
  {
    forall other :: start <= other && goals <= other + available && BackClosed(net, available, other) ==> result <= other
  }

  lemma WithinThroughProducer(net: Network, available: set<Id>, start: set<Id>, state: Id, id: Id, middle: set<Id>, result: set<Id>)
    requires state !in available && id in Producers(net, state)
    requires Within(net, available, start, {state}, middle) && Within(net, available, middle, Required(net[id]), result)
    ensures Within(net, available, start, {state}, result)
  {
    RequiredIsNeeded(net, state, id);
    forall other | start <= other && {state} <= other + available && BackClosed(net, available, other) ensures result <= other {
      assert state in {state} && state in other;
    }
  }

  lemma WithinThroughItem(net: Network, available: set<Id>, start: set<Id>, goals: set<Id>, item: Id, middle: set<Id>, result: set<Id>)
    requires item in goals && Within(net, available, start, goals, middle) && Within(net, available, middle, {item}, result)
    ensures Within(net, available, start, goals, result)
  {
  }

  lemma NeedsWithin(net: Network, state: Id, bound: set<Id>)
    requires forall id :: id in Producers(net, state) ==> Required(net[id]) <= bound
    ensures Needs(net, state) <= bound
  {
  }

  /** Among the missing states, requirements rank below what they help to produce: no cycles. */
  ghost predicate Ranked(net: Network, available: set<Id>, rank: Id -> nat)
  {
    forall id, r, o ::
      (id in net && Eligible(net[id]) && r in Required(net[id]) - available && o in net[id].outputs - available)
      ==> rank(r) < rank(o)
  }

  class Search {
    const net: Network
    const available: set<Id>
    ghost const universe: set<Id>
    ghost const rank: Id -> nat
    var visiting: set<Id>
    var unresolved: set<Id>
    var exact: bool
    var memo: map<Id, seq<set<Id>>>

    ghost predicate Mentioned()
    {
      forall id :: id in net ==> Required(net[id]) <= universe
    }

    constructor (net: Network, available: set<Id>, ghost universe: set<Id>, ghost rank: Id -> nat)
      ensures this.net == net && this.available == available && this.universe == universe && this.rank == rank
      ensures visiting == {} && unresolved == {} && memo == map[]
    {
      this.net, this.available, this.universe, this.rank := net, available, universe, rank;
      visiting, unresolved, exact, memo := {}, {}, true, map[];
    }

    /** Whatever has been collected and is not in progress has all its needs collected. */
    ghost predicate Collected()
      reads this`visiting, this`unresolved
    {
      && visiting <= unresolved && unresolved !! available
      && forall s :: s in unresolved && s !in visiting ==> Needs(net, s) <= unresolved + available
    }

    /** collect: depth-first along the producers, stopping at states in progress. */
    method Collect(state: Id)
      requires Mentioned() && state in universe && Collected()
      modifies this`visiting, this`unresolved
      ensures Collected() && visiting == old(visiting)
      ensures old(unresolved) <= unresolved && state in unresolved + available
      ensures Within(net, available, old(unresolved), {state}, unresolved)
      decreases |universe - visiting|, 0
    {
      if state in available || state in visiting {
        return;
      }
      VisitingMore(universe, visiting, state);
      visiting := visiting + {state};
      unresolved := unresolved + {state};
      CollectProducers(state, old(unresolved));
      NeedsWithin(net, state, unresolved + available);
      visiting := visiting - {state};
      assert visiting == old(visiting);
    }

    method CollectProducers(state: Id, ghost start: set<Id>)
      requires Mentioned() && Collected() && state in visiting && state !in available
      requires Within(net, available, start, {state}, unresolved)
      modifies this`visiting, this`unresolved
      ensures Collected() && visiting == old(visiting) && old(unresolved) <= unresolved
      ensures forall id :: id in Producers(net, state) ==> Required(net[id]) <= unresolved + available
      ensures Within(net, available, start, {state}, unresolved)
      decreases |universe - visiting|, 2
    {
      var producers := Producers(net, state);
      var todo := producers;
      while todo != {}
        invariant todo <= producers && visiting == old(visiting) && Collected() && old(unresolved) <= unresolved
        invariant forall id :: id in producers - todo ==> Required(net[id]) <= unresolved + available
        invariant Within(net, available, start, {state}, unresolved)
        decreases |todo|
      {
        var id :| id in todo;
        ghost var middle := unresolved;
        CollectEach(Required(net[id]));
        WithinThroughProducer(net, available, start, state, id, middle, unresolved);
        todo := todo - {id};
      }
    }

    method CollectEach(states: set<Id>)
      requires Mentioned() && states <= universe && Collected()
      modifies this`visiting, this`unresolved
      ensures Collected() && visiting == old(visiting)
      ensures old(unresolved) <= unresolved && states <= unresolved + available
      ensures Within(net, available, old(unresolved), states, unresolved)
      decreases |universe - visiting|, 1
    {
      var todo := states;
      while todo != {}
        invariant todo <= states && Collected() && visiting == old(visiting)
        invariant old(unresolved) <= unresolved && states - todo <= unresolved + available
        invariant Within(net, available, old(unresolved), states, unresolved)
        decreases |todo|
      {
        var state :| state in todo;
        ghost var middle := unresolved;
        Collect(state);
        WithinThroughItem(net, available, old(unresolved), states, state, middle, unresolved);
        todo := todo - {state};
      }
    }

    ghost predicate Strict()
      reads this`exact
    {
      exact && Ranked(net, available, rank)
    }

    ghost predicate MemoGood()
      reads this`exact, this`memo
    {
      forall s :: s in memo ==> Good(net, available, Strict(), {s}, memo[s])
    }

    /** Without cycles a missing state ranks below everything in progress. */
    ghost predicate BelowStack(stack: set<Id>, state: Id)
    {
      state !in available ==> forall t :: t in stack ==> rank(state) < rank(t)
    }

    /** solve: sets that suffice for one state, whatever is in progress. */
    method Solve(state: Id, stack: set<Id>, depth: nat) returns (r: seq<set<Id>>)
      requires Mentioned() && state in universe && MemoGood()
      requires Strict() ==> BelowStack(stack, state)
      modifies this`memo
      ensures MemoGood() && Good(net, available, Strict(), {state}, r)
      decreases |universe - stack|, 0
    {
      if state in available {
        NothingNeeded(net, available, Strict(), {state});
        return [{}];
      }
      if (!exact && depth >= MAXIMUM_DEPTH) || state in stack {
        ItselfNeeded(net, available, Strict(), state);
        return [{state}];
      }
      if state in memo {
        return memo[state];
      }
      if Producers(net, state) == {} {
        ItselfNeeded(net, available, Strict(), state);
        return [{state}];
      }
      VisitingMore(universe, stack, state);
      var producers := Listed(Producers(net, state));
      r := SolveProducers(state, producers, stack + {state}, depth + 1);
      memo := memo[state := r];
    }

    method SolveProducers(state: Id, producers: seq<Id>, stack: set<Id>, depth: nat) returns (r: seq<set<Id>>)
      requires Mentioned() && MemoGood() && state !in available && Producers(net, state) != {}
      requires forall id :: id in producers <==> id in Producers(net, state)
      requires Strict() ==> forall t :: t in stack ==> rank(state) <= rank(t)
      modifies this`memo
      ensures MemoGood() && Good(net, available, Strict(), {state}, r)
      decreases |universe - stack|, 3
    {
      var choices: seq<set<Id>> := [];
      for i := 0 to |producers|
        invariant MemoGood()
        invariant Choices(net, available, Strict(), state, Firsts(producers, i), choices) && (i > 0 ==> choices != [])
      {
        assert producers[i] in producers;
        choices := AddProducer(state, producers[i], stack, depth, Firsts(producers, i), choices);
      }
      AllFirsts(producers, Producers(net, state));
      AllProducers(net, available, Strict(), state, choices);
      r := Minimal(choices);
      MinimalIsGood(net, available, Strict(), {state}, choices, r);
    }

    /** Extends the choices by those of one producer. */
    method AddProducer(state: Id, id: Id, stack: set<Id>, depth: nat, ghost done: set<Id>, before: seq<set<Id>>)
      returns (choices: seq<set<Id>>)
      requires Mentioned() && MemoGood() && state !in available && id in Producers(net, state)
      requires Strict() ==> forall t :: t in stack ==> rank(state) <= rank(t)
      requires Choices(net, available, Strict(), state, done, before)
      modifies this`memo
      ensures MemoGood() && choices != []
      ensures Choices(net, available, Strict(), state, done + {id}, choices)
      decreases |universe - stack|, 2
    {
      RequirementsRankBelow(net, available, rank, state, id);
      var required := Listed(Required(net[id]));
      var combinations := SolveAll(Required(net[id]), required, stack, depth);
      OneMoreProducer(net, available, Strict(), state, done, before, id, combinations);
      choices := before + combinations;
      if !exact {
        choices := Beam(net, available, {state}, choices);
      }
    }

    /** The combinations of one set for each required state. */
    method SolveAll(ghost goals: set<Id>, required: seq<Id>, stack: set<Id>, depth: nat) returns (combinations: seq<set<Id>>)
      requires Mentioned() && MemoGood() && goals <= universe
      requires forall item :: item in required <==> item in goals
      requires Strict() ==> forall item :: item in goals ==> BelowStack(stack, item)
      modifies this`memo
      ensures MemoGood() && Good(net, available, Strict(), goals, combinations)
      decreases |universe - stack|, 1
    {
      combinations := [{}];
      NothingNeeded(net, available, Strict(), {});
      for i := 0 to |required|
        invariant MemoGood() && Good(net, available, Strict(), Firsts(required, i), combinations)
      {
        ghost var done := Firsts(required, i);
        assert required[i] in required;
        var nextSets := Solve(required[i], stack, depth);
        UnionsAreGood(net, available, Strict(), done, {required[i]}, combinations, nextSets);
        var all := Unions(combinations, nextSets);
        combinations := Minimal(all);
        done := done + {required[i]};
        MinimalIsGood(net, available, Strict(), done, all, combinations);
        if !exact {
          TakeIsGood(net, available, done, combinations, BEAM_WIDTH);
          combinations := Take(combinations, BEAM_WIDTH);
        }
      }
      AllFirsts(required, goals);
    }
  }

  lemma VisitingMore(universe: set<Id>, visiting: set<Id>, state: Id)
    requires state in universe && state !in visiting
    ensures |universe - (visiting + {state})| < |universe - visiting|
  {
    assert universe - (visiting + {state}) == (universe - visiting) - {state};
  }

  lemma RequiredIsNeeded(net: Network, state: Id, id: Id)
    requires id in Producers(net, state)
    ensures Required(net[id]) <= Needs(net, state)
  {
  }

  lemma RequirementsRankBelow(net: Network, available: set<Id>, rank: Id -> nat, state: Id, id: Id)
    requires id in Producers(net, state) && state !in available
    ensures Ranked(net, available, rank) ==>
      forall item :: item in Required(net[id]) && item !in available ==> rank(item) < rank(state)
  {
  }

  lemma TakeIsGood(net: Network, available: set<Id>, goals: set<Id>, sets: seq<set<Id>>, k: nat)
    requires Good(net, available, false, goals, sets) && k > 0
    ensures Good(net, available, false, goals, Take(sets, k))
  {
    var r := Take(sets, k);
    forall i | 0 <= i < |r| ensures Seed(net, available, goals, r[i]) {
      assert r[i] == sets[i];
    }
  }

  // ----- formation_seeds

  /** A seed of leaves none of whose proper parts suffices. */
  ghost predicate IsMinimalLeafSeed(net: Network, available: set<Id>, goals: set<Id>, x: set<Id>)
  {
    && Seed(net, available, goals, x) && LeafSet(net, x)
    && forall y :: y < x ==> !DerivesAll(net, available + y, goals)
  }

  /** In order, all of them. */
  ghost predicate AreMinimalLeafSeeds(net: Network, available: set<Id>, goals: set<Id>, all: seq<set<Id>>)
  {
    Ordered(all) && forall x :: x in all <==> IsMinimalLeafSeed(net, available, goals, x)
  }

  lemma NotCoveredBelow(all: seq<set<Id>>, i: nat, y: set<Id>)
    requires Antichain(all) && i < |all| && y < all[i]
    ensures !Covered(all, y)
  {
    forall j | 0 <= j < |all| ensures !(all[j] <= y) {
      assert j != i ==> !(all[j] <= all[i]);
    }
  }

  lemma ListedIsMinimal(net: Network, available: set<Id>, goals: set<Id>, all: seq<set<Id>>, i: nat)
    requires Good(net, available, true, goals, all) && Antichain(all) && i < |all|
    ensures IsMinimalLeafSeed(net, available, goals, all[i])
  {
    forall y | y < all[i] ensures !DerivesAll(net, available + y, goals) {
      NotCoveredBelow(all, i, y);
      assert LeafSet(net, y);
    }
  }

  lemma NoSmallerSeed(net: Network, available: set<Id>, goals: set<Id>, y: set<Id>, x: set<Id>)
    ensures Seed(net, available, goals, y) && IsMinimalLeafSeed(net, available, goals, x) && y <= x ==> y == x
  {
  }

  lemma MinimalIsListed(net: Network, available: set<Id>, goals: set<Id>, all: seq<set<Id>>, x: set<Id>)
    requires Good(net, available, true, goals, all) && IsMinimalLeafSeed(net, available, goals, x)
    ensures x in all
  {
    var j :| 0 <= j < |all| && all[j] <= x;
    NoSmallerSeed(net, available, goals, all[j], x);
  }

  lemma StrictMinimalIsExact(net: Network, available: set<Id>, goals: set<Id>, all: seq<set<Id>>)
    requires Good(net, available, true, goals, all) && Ordered(all) && Antichain(all)
    ensures AreMinimalLeafSeeds(net, available, goals, all)
  {
    forall i: nat | i < |all| ensures IsMinimalLeafSeed(net, available, goals, all[i]) {
      ListedIsMinimal(net, available, goals, all, i);
    }
    forall x | IsMinimalLeafSeed(net, available, goals, x) ensures x in all {
      MinimalIsListed(net, available, goals, all, x);
    }
  }

  lemma CollectedIsUnresolved(net: Network, available: set<Id>, targets: set<Id>, states: set<Id>)
    requires states !! available && targets <= states + available && BackClosed(net, available, states)
    requires Within(net, available, {}, targets, states)
    ensures IsUnresolved(net, available, targets, states)
  {
  }

  lemma NothingUnresolved(net: Network, available: set<Id>, targets: set<Id>, states: set<Id>)
    requires IsUnresolved(net, available, targets, states)
    ensures states == {} <==> targets <= available
  {
    if targets <= available {
      assert BackClosed(net, available, {});
      assert states <= {};
    }
  }

  function Limit(exact: bool): nat
  {
    if exact then MAXIMUM_RESULTS else BEAM_WIDTH
  }

  /** The last combination step cut down a full list; for a single target without cycles it is the exact one. */
  ghost predicate Combined(net: Network, available: set<Id>, strict: bool, exact: bool, goals: set<Id>,
                           full: seq<set<Id>>, combined: seq<set<Id>>)
  {
    && Good(net, available, false, goals, combined)
    && combined == Take(full, Limit(exact)) && Ordered(full) && Antichain(full)
    && (strict && |goals| == 1 ==> AreMinimalLeafSeeds(net, available, goals, full))
  }

  lemma NotStrict(net: Network, available: set<Id>, strict: bool, goals: set<Id>, sets: seq<set<Id>>)
    requires Good(net, available, strict, goals, sets)
    ensures Good(net, available, false, goals, sets)
  {
  }

  /** Combining with one more target. */
  method Combine(net: Network, available: set<Id>, ghost strict: bool, exact: bool, ghost goals: set<Id>,
                 before: seq<set<Id>>, target: Id, choices: seq<set<Id>>)
    returns (ghost full: seq<set<Id>>, combined: seq<set<Id>>)
    requires Good(net, available, false, goals, before) && target !in goals
    requires goals == {} ==> before == [{}]
    requires Good(net, available, strict, {target}, choices)
    ensures Combined(net, available, strict, exact, goals + {target}, full, combined)
    ensures CombinedWith(before, choices, Limit(exact), combined)
  {
    var minimal := Minimal(Unions(before, choices));
    full := minimal;
    MinimalIsAntichain(minimal, Unions(before, choices));
    if goals == {} {
      NothingNeeded(net, available, strict, {});
      UnionsAreGood(net, available, strict, {}, {target}, [{}], choices);
      assert {} + {target} == {target};
      MinimalIsGood(net, available, strict, {target}, Unions(before, choices), minimal);
      NotStrict(net, available, strict, {target}, minimal);
      if strict {
        StrictMinimalIsExact(net, available, {target}, minimal);
      }
    } else {
      assert |goals + {target}| == |goals| + 1;
      NotStrict(net, available, strict, {target}, choices);
      UnionsAreGood(net, available, false, goals, {target}, before, choices);
      MinimalIsGood(net, available, false, goals + {target}, Unions(before, choices), minimal);
    }
    combined := Take(minimal, Limit(exact));
    TakeIsGood(net, available, goals + {target}, minimal, Limit(exact));
  }

  lemma TakeIsOrderedAntichain(sets: seq<set<Id>>, k: nat)
    requires Ordered(sets) && Antichain(sets)
    ensures Ordered(Take(sets, k)) && Antichain(Take(sets, k))
  {
  }

  // ----- how the lists of the single targets are combined

  /** The minimal unions of a set of the one and a set of the other list, the first limit of them. */
  ghost predicate CombinedWith(before: seq<set<Id>>, list: seq<set<Id>>, limit: nat, r: seq<set<Id>>)
  {
    exists minimal :: AreMinimal(minimal, Unions(before, list)) && r == Take(minimal, limit)
  }

  /** One list after the other, starting from nothing. */
  ghost predicate CombinedFrom(lists: seq<seq<set<Id>>>, limit: nat, r: seq<set<Id>>)
    decreases |lists|
  {
    if lists == [] then r == [{}]
    else
      var init, last := lists[..|lists| - 1], lists[|lists| - 1];
      exists before :: CombinedFrom(init, limit, before) && CombinedWith(before, last, limit, r)
  }

  lemma CombineOneMore(lists: seq<seq<set<Id>>>, limit: nat, before: seq<set<Id>>, list: seq<set<Id>>, r: seq<set<Id>>)
    requires CombinedFrom(lists, limit, before) && CombinedWith(before, list, limit, r)
    ensures CombinedFrom(lists + [list], limit, r)
  {
    assert (lists + [list])[..|lists|] == lists;
  }

  /** One good list for each of the first n targets. */
  ghost predicate ListsFor(net: Network, available: set<Id>, strict: bool, order: seq<Id>, n: nat, lists: seq<seq<set<Id>>>)
    requires n <= |order|
  {
    |lists| == n && forall i :: 0 <= i < n ==> Good(net, available, strict, {order[i]}, lists[i])
  }

  lemma ListForOneMore(net: Network, available: set<Id>, strict: bool, order: seq<Id>, n: nat, lists: seq<seq<set<Id>>>,
                       list: seq<set<Id>>)
    requires n < |order| && ListsFor(net, available, strict, order, n, lists) && Good(net, available, strict, {order[n]}, list)
    ensures ListsFor(net, available, strict, order, n + 1, lists + [list])
  {
  }

  /** The last target of a duplicate-free listing is not among the ones before it. */
  lemma NextIsNew(order: seq<Id>, n: nat)
    requires NoDuplicates(order) && n < |order|
    ensures order[n] !in Firsts(order, n)
  {
    FirstsMembers(order, n, order[n]);
  }

  /**
   * The targets in increasing order, one good list for each, combined one after the other with three minimal unions kept
   * in an exact search and thirty-two in an approximate one; the seeds are the first three minimal ones of the result.
   */
  ghost predicate FromLists(net: Network, available: set<Id>, strict: bool, exact: bool, targets: set<Id>,
                            seeds: seq<set<Id>>, order: seq<Id>, lists: seq<seq<set<Id>>>)
  {
    && StrictlySorted(order) && (forall t :: t in order <==> t in targets) && ListsFor(net, available, strict, order, |order|, lists)
    && exists combined, selected ::
         CombinedFrom(lists, if exact then 3 else 32, combined) && AreMinimal(selected, combined) && seeds == Take(selected, 3)
  }

  ghost predicate AreCombined(net: Network, available: set<Id>, strict: bool, exact: bool, targets: set<Id>, seeds: seq<set<Id>>)
  {
    exists order, lists :: FromLists(net, available, strict, exact, targets, seeds, order, lists)
  }

  /** What the returned seeds are: an ordered antichain of at most three sets, each sufficient for all targets. */
  ghost predicate AreSeeds(net: Network, available: set<Id>, targets: set<Id>, seeds: seq<set<Id>>)
  {
    && |seeds| <= MAXIMUM_RESULTS && Ordered(seeds) && Antichain(seeds)
    && forall i :: 0 <= i < |seeds| ==> Seed(net, available, targets, seeds[i])
  }

  /** The first three of all minimal seeds made of states nobody produces. */
  ghost predicate AreTheFirstMinimalOnes(net: Network, available: set<Id>, targets: set<Id>, seeds: seq<set<Id>>)
  {
    exists all :: AreMinimalLeafSeeds(net, available, targets, all) && seeds == Take(all, MAXIMUM_RESULTS)
  }

  lemma Finish(net: Network, available: set<Id>, strict: bool, exact: bool, targets: set<Id>,
               full: seq<set<Id>>, combined: seq<set<Id>>, selected: seq<set<Id>>)
    requires Combined(net, available, strict, exact, targets, full, combined)
    requires AreMinimal(selected, combined) && (strict ==> exact)
    ensures AreSeeds(net, available, targets, Take(selected, MAXIMUM_RESULTS)) && Take(selected, MAXIMUM_RESULTS) != []
    ensures strict && |targets| == 1 ==> AreTheFirstMinimalOnes(net, available, targets, Take(selected, MAXIMUM_RESULTS))
  {
    TakeIsOrderedAntichain(full, Limit(exact));
    AntichainIsMinimal(selected, combined);
    TakeIsOrderedAntichain(selected, MAXIMUM_RESULTS);
    TakeIsGood(net, available, targets, combined, MAXIMUM_RESULTS);
    if strict && |targets| == 1 {
      assert Take(selected, MAXIMUM_RESULTS) == Take(full, MAXIMUM_RESULTS);
    }
  }

  /**
   * formation_seeds. Seeds exist iff a target is missing; each makes every target derivable, whatever
   * cycles the producers form. For a single target without cycles, an exact search returns the first
   * three of all minimal seeds.
   */
  method FormationSeeds(net: Network, available: set<Id>, targets: set<Id>, ghost rank: Id -> nat)
    returns (seeds: seq<set<Id>>, exact: bool, ghost unresolved: set<Id>)
    ensures IsUnresolved(net, available, targets, unresolved)
    ensures seeds == [] <==> targets <= available
    ensures AreSeeds(net, available, targets, seeds)
    ensures exact <==> |unresolved| <= EXACT_LIMIT
    ensures exact && Ranked(net, available, rank) && |targets| == 1 && seeds != [] ==>
              AreTheFirstMinimalOnes(net, available, targets, seeds)
    ensures seeds != [] ==> AreCombined(net, available, exact && Ranked(net, available, rank), exact, targets, seeds)
  {
    ghost var universe := targets + (set id, r | id in net && r in Required(net[id]) :: r);
    var search := new Search(net, available, universe, rank);
    search.CollectEach(targets);
    unresolved := search.unresolved;
    CollectedIsUnresolved(net, available, targets, unresolved);
    NothingUnresolved(net, available, targets, unresolved);
    if search.unresolved == {} {
      return [], true, unresolved;
    }
    exact := |search.unresolved| <= EXACT_LIMIT;
    search.exact := exact;
    var order := Listed(targets);
    seeds := SolveTargets(search, targets, order);
  }

  /** The state of the combination after the first n targets. */
  ghost predicate TargetsCombined(net: Network, available: set<Id>, strict: bool, exact: bool, order: seq<Id>, n: nat,
                                  lists: seq<seq<set<Id>>>, full: seq<set<Id>>, combined: seq<set<Id>>)
    requires n <= |order|
  {
    && Good(net, available, false, Firsts(order, n), combined) && (n == 0 ==> combined == [{}])
    && ListsFor(net, available, strict, order, n, lists) && CombinedFrom(lists, Limit(exact), combined)
    && (n > 0 ==> Combined(net, available, strict, exact, Firsts(order, n), full, combined))
  }

  method SolveTarget(search: Search, order: seq<Id>, n: nat, ghost lists: seq<seq<set<Id>>>, ghost full: seq<set<Id>>,
                     combined: seq<set<Id>>)
    returns (ghost moreLists: seq<seq<set<Id>>>, ghost moreFull: seq<set<Id>>, more: seq<set<Id>>)
    requires search.Mentioned() && search.MemoGood() && n < |order| && order[n] in search.universe && NoDuplicates(order)
    requires TargetsCombined(search.net, search.available, search.Strict(), search.exact, order, n, lists, full, combined)
    modifies search`memo
    ensures search.MemoGood()
    ensures TargetsCombined(search.net, search.available, search.Strict(), search.exact, order, n + 1, moreLists, moreFull, more)
  {
    NextIsNew(order, n);
    var choices := search.Solve(order[n], {}, 0);
    ListForOneMore(search.net, search.available, search.Strict(), order, n, lists, choices);
    moreFull, more := Combine(search.net, search.available, search.Strict(), search.exact, Firsts(order, n), combined,
                              order[n], choices);
    CombineOneMore(lists, Limit(search.exact), combined, choices, more);
    moreLists := lists + [choices];
  }

  method SolveTargets(search: Search, ghost targets: set<Id>, order: seq<Id>) returns (seeds: seq<set<Id>>)
    requires search.Mentioned() && targets <= search.universe && targets != {} && search.memo == map[]
    requires StrictlySorted(order) && forall t :: t in order <==> t in targets
    modifies search`memo
    ensures AreSeeds(search.net, search.available, targets, seeds) && seeds != []
    ensures search.Strict() && |targets| == 1 ==> AreTheFirstMinimalOnes(search.net, search.available, targets, seeds)
    ensures AreCombined(search.net, search.available, search.Strict(), search.exact, targets, seeds)
  {
    var combined: seq<set<Id>> := [{}];
    ghost var full: seq<set<Id>> := [{}];
    ghost var lists: seq<seq<set<Id>>> := [];
    NothingNeeded(search.net, search.available, false, {});
    SortedHasNoDuplicates(order);
    for i := 0 to |order|
      invariant search.MemoGood()
      invariant TargetsCombined(search.net, search.available, search.Strict(), search.exact, order, i, lists, full, combined)
    {
      assert order[i] in order;
      lists, full, combined := SolveTarget(search, order, i, lists, full, combined);
    }
    AllFirsts(order, targets);
    var selected := Minimal(combined);
    Finish(search.net, search.available, search.Strict(), search.exact, targets, full, combined, selected);
    seeds := Take(selected, MAXIMUM_RESULTS);
    assert FromLists(search.net, search.available, search.Strict(), search.exact, targets, seeds, order, lists);
  }
}
