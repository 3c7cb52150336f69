/** Reachability closure and bounded enumeration of inclusion-minimal transformation cuts. */
module CutSets {
  import opened Ids

  datatype Edge = Edge(inputs: set<Id>, outputs: set<Id>)

  type Network = map<Id, Edge>

  // ----- closure

  /** No remaining transformation with available inputs adds anything. */
  ghost predicate Closed(net: Network, removed: set<Id>, places: set<Id>)
  {
    forall id :: id in net && id !in removed && net[id].inputs <= places ==> net[id].outputs <= places
  }

  /** The least set of places that contains the initial ones and is closed. */
  ghost predicate IsReach(initial: set<Id>, net: Network, removed: set<Id>, reach: set<Id>)
  {
    && initial <= reach && Closed(net, removed, reach)
    && forall places :: initial <= places && Closed(net, removed, places) ==> reach <= places
  }

  function Outputs(net: Network): (s: set<Id>)
    ensures forall id :: id in net ==> net[id].outputs <= s
  {
    set id, p | id in net && p in net[id].outputs :: p
  }

  /** Whatever is closed and contains the available places contains these. */
  ghost predicate Forced(available: set<Id>, net: Network, removed: set<Id>, additions: set<Id>)
  {
    forall places :: available <= places && Closed(net, removed, places) ==> additions <= places
  }

  lemma OutputsAreForced(available: set<Id>, net: Network, removed: set<Id>, additions: set<Id>, id: Id)
    requires Forced(available, net, removed, additions)
    requires id in net && id !in removed && net[id].inputs <= available
    ensures Forced(available, net, removed, additions + net[id].outputs)
  {
  }

  /** One round over the remaining transformations. */
  method Round(available: set<Id>, net: Network, removed: set<Id>) returns (additions: set<Id>)
    ensures additions <= Outputs(net)
    ensures additions <= available ==> Closed(net, removed, available)
    ensures Forced(available, net, removed, additions)
  {
    additions := {};
    var todo := net.Keys - removed;
    while todo != {}
      invariant todo <= net.Keys - removed && additions <= Outputs(net)
      invariant forall id :: id in net.Keys - removed - todo && net[id].inputs <= available ==> net[id].outputs <= additions
      invariant Forced(available, net, removed, additions)
      decreases |todo|
    {
      var id :| id in todo;
      if net[id].inputs <= available {
        OutputsAreForced(available, net, removed, additions, id);
        additions := additions + net[id].outputs;
      }
      todo := todo - {id};
    }
  }

  /** _closure: the least closed set above the initial places. */
  method Closure(initial: set<Id>, net: Network, removed: set<Id>) returns (available: set<Id>)
    ensures IsReach(initial, net, removed, available)
  {
    available := initial;
    while true
      invariant initial <= available
      invariant forall places :: initial <= places && Closed(net, removed, places) ==> available <= places
      decreases |Outputs(net) - available|
    {
      var additions := Round(available, net, removed);
      if additions <= available {
        return;
      }
      MissingShrinks(Outputs(net), available, additions);
      available := available + additions;
    }
  }

  lemma MissingShrinks(universe: set<Id>, available: set<Id>, additions: set<Id>)
    requires additions <= universe && !(additions <= available)
    ensures |universe - (available + additions)| < |universe - available|
  {
    var p :| p in additions && p !in available;
    SubsetCardinality(universe - (available + additions), universe - available);
    assert p in universe - available;
  }

  // ----- cuts

  /** Removing these transformations leaves a target out of some closed set above the initial places. */
  ghost predicate IsCut(initial: set<Id>, net: Network, targets: set<Id>, removed: set<Id>)
  {
    exists places :: initial <= places && Closed(net, removed, places) && !(targets <= places)
  }

  /** In terms of the closure: some target is not reached. */
  lemma CutByClosure(initial: set<Id>, net: Network, targets: set<Id>, removed: set<Id>, reach: set<Id>)
    requires IsReach(initial, net, removed, reach)
    ensures IsCut(initial, net, targets, removed) <==> !(targets <= reach)
  {
  }

  /** Removing more can only cut more. */
  lemma CutsAreUpwardClosed(initial: set<Id>, net: Network, targets: set<Id>, removed: set<Id>, more: set<Id>)
    requires removed <= more && IsCut(initial, net, targets, removed)
    ensures IsCut(initial, net, targets, more)
  {
    var places :| initial <= places && Closed(net, removed, places) && !(targets <= places);
    assert Closed(net, more, places);
  }

  /** A nonempty cut none of whose proper nonempty parts is a cut: what the search looks for. */
  ghost predicate IsMinimalAmongNonempty(initial: set<Id>, net: Network, targets: set<Id>, cut: set<Id>)
  {
    && cut != {} && cut <= net.Keys && IsCut(initial, net, targets, cut)
    && forall part :: part < cut && part != {} ==> !IsCut(initial, net, targets, part)
  }

  ghost predicate IsMinimalCut(initial: set<Id>, net: Network, targets: set<Id>, cut: set<Id>)
  {
    && cut <= net.Keys && IsCut(initial, net, targets, cut)
    && forall part :: part < cut ==> !IsCut(initial, net, targets, part)
  }

  // ----- itertools.combinations

  function Prefixed(first: Id, tails: seq<seq<Id>>): seq<seq<Id>>
  {
    seq(|tails|, i requires 0 <= i < |tails| => [first] + tails[i])
  }

  /** All k-element subsequences in lexicographic order of positions. */
  function Combinations(ids: seq<Id>, k: nat): seq<seq<Id>>
    decreases |ids|
  {
    if k == 0 then [[]]
    else if ids == [] then []
    else Prefixed(ids[0], Combinations(ids[1..], k - 1)) + Combinations(ids[1..], k)
  }

  function AsSet(c: seq<Id>): set<Id>
  {
    set x | x in c
  }

  lemma InCombinations(ids: seq<Id>, k: nat, c: seq<Id>)
    requires ids != [] && k > 0
    ensures c in Combinations(ids, k) <==>
            c in Combinations(ids[1..], k) || (c != [] && c[0] == ids[0] && c[1..] in Combinations(ids[1..], k - 1))
  {
    var tails := Combinations(ids[1..], k - 1);
    InPrefixed(ids[0], tails, c);
  }

  lemma InPrefixed(first: Id, tails: seq<seq<Id>>, c: seq<Id>)
    ensures c in Prefixed(first, tails) <==> c != [] && c[0] == first && c[1..] in tails
  {
    if c in Prefixed(first, tails) {
      var i :| 0 <= i < |tails| && Prefixed(first, tails)[i] == c;
      assert c[1..] == tails[i];
    }
    if c != [] && c[0] == first && c[1..] in tails {
      var i :| 0 <= i < |tails| && tails[i] == c[1..];
      assert Prefixed(first, tails)[i] == c;
    }
  }

  lemma TailOfDistinct(ids: seq<Id>)
    requires ids != [] && NoDuplicates(ids)
    ensures NoDuplicates(ids[1..]) && forall x :: x in ids[1..] ==> x in ids
  {
  }

  lemma {:induction false} CombinationsAreSubsets(ids: seq<Id>, k: nat, c: seq<Id>)
    requires NoDuplicates(ids) && c in Combinations(ids, k)
    ensures NoDuplicates(c) && |c| == k && forall x :: x in c ==> x in ids
    decreases |ids|
  {
    if k > 0 && ids != [] {
      InCombinations(ids, k, c);
      TailOfDistinct(ids);
      var tail := ids[1..];
      if c in Combinations(tail, k) {
        CombinationsAreSubsets(tail, k, c);
      } else {
        CombinationsAreSubsets(tail, k - 1, c[1..]);
        PrependDistinct(ids, c);
      }
    }
  }

  lemma PrependDistinct(ids: seq<Id>, c: seq<Id>)
    requires ids != [] && c != [] && NoDuplicates(ids) && c[0] == ids[0] && NoDuplicates(c[1..])
    requires forall x :: x in c[1..] ==> x in ids[1..]
    ensures NoDuplicates(c) && forall x :: x in c ==> x in ids
  {
    assert forall i :: 1 <= i < |c| ==> c[i] in c[1..];
    assert c == [c[0]] + c[1..];
  }

  lemma {:induction false} SubsetsAreCombinations(ids: seq<Id>, chosen: set<Id>) returns (c: seq<Id>)
    requires forall x :: x in chosen ==> x in ids
    ensures c in Combinations(ids, |chosen|) && AsSet(c) == chosen
    decreases |ids|
  {
    if chosen == {} {
      c := [];
    } else if ids[0] in chosen {
      MembersOfTail(ids, chosen - {ids[0]});
      var tail := SubsetsAreCombinations(ids[1..], chosen - {ids[0]});
      c := PrependChosen(ids[0], chosen, tail);
      WithFirst(ids, |chosen|, c);
    } else {
      MembersOfTail(ids, chosen);
      c := SubsetsAreCombinations(ids[1..], chosen);
      WithoutFirst(ids, |chosen|, c);
    }
  }

  lemma WithFirst(ids: seq<Id>, k: nat, c: seq<Id>)
    requires ids != [] && k > 0 && c != [] && c[0] == ids[0] && c[1..] in Combinations(ids[1..], k - 1)
    ensures c in Combinations(ids, k)
  {
    InCombinations(ids, k, c);
  }

  lemma WithoutFirst(ids: seq<Id>, k: nat, c: seq<Id>)
    requires ids != [] && k > 0 && c in Combinations(ids[1..], k)
    ensures c in Combinations(ids, k)
  {
    InCombinations(ids, k, c);
  }

  lemma MembersOfTail(ids: seq<Id>, chosen: set<Id>)
    requires ids != [] && ids[0] !in chosen && forall x :: x in chosen ==> x in ids
    ensures forall x :: x in chosen ==> x in ids[1..]
  {
    assert ids == [ids[0]] + ids[1..];
  }

  lemma PrependChosen(first: Id, chosen: set<Id>, tail: seq<Id>) returns (c: seq<Id>)
    requires first in chosen && AsSet(tail) == chosen - {first}
    ensures c != [] && c[0] == first && c[1..] == tail && AsSet(c) == chosen
  {
    c := [first] + tail;
    assert AsSet(c) == {first} + AsSet(tail);
  }

  // ----- the search

  datatype Report = Report(cuts: seq<seq<Id>>, complete: bool, operations: int)

  /** How many candidates there are of the sizes below size. */
  function CandidatesBelow(ids: seq<Id>, size: nat): nat
  {
    if size <= 1 then 0 else CandidatesBelow(ids, size - 1) + |Combinations(ids, size - 1)|
  }

  function Bound(maximum: int, ids: seq<Id>): nat
  {
    var smaller := if maximum < |ids| then maximum else |ids|;
    if smaller < 0 then 0 else smaller
  }

  /** The cuts listed so far are minimal and cover every cut examined so far. */
  ghost predicate Covers(initial: set<Id>, net: Network, targets: set<Id>, cuts: seq<seq<Id>>, examined: set<Id>)
  {
    IsCut(initial, net, targets, examined) ==> Contains(cuts, examined)
  }

  predicate Contains(cuts: seq<seq<Id>>, candidate: set<Id>)
  {
    exists i :: 0 <= i < |cuts| && AsSet(cuts[i]) <= candidate
  }

  ghost predicate AllMinimal(initial: set<Id>, net: Network, targets: set<Id>, cuts: seq<seq<Id>>)
  {
    forall i :: 0 <= i < |cuts| ==> IsMinimalAmongNonempty(initial, net, targets, AsSet(cuts[i]))
  }

  ghost predicate CoversSmaller(initial: set<Id>, net: Network, targets: set<Id>, cuts: seq<seq<Id>>, size: nat)
  {
    forall s :: s <= net.Keys && 0 < |s| < size ==> Covers(initial, net, targets, cuts, s)
  }

  /** A candidate that contains no listed cut and is a cut is minimal. */
  lemma NewCutIsMinimal(initial: set<Id>, net: Network, targets: set<Id>, cuts: seq<seq<Id>>, candidate: set<Id>)
    requires candidate <= net.Keys && candidate != {} && IsCut(initial, net, targets, candidate)
    requires CoversSmaller(initial, net, targets, cuts, |candidate|) && !Contains(cuts, candidate)
    ensures IsMinimalAmongNonempty(initial, net, targets, candidate)
  {
    forall part | part < candidate && part != {} ensures !IsCut(initial, net, targets, part) {
      SubsetCardinality(part, candidate);
      assert Covers(initial, net, targets, cuts, part);
    }
  }

  lemma ContainsGrows(cuts: seq<seq<Id>>, more: seq<seq<Id>>, s: set<Id>)
    requires Contains(cuts, s)
    ensures Contains(cuts + more, s)
  {
    var i :| 0 <= i < |cuts| && AsSet(cuts[i]) <= s;
    assert (cuts + more)[i] == cuts[i];
  }

  ghost predicate AllWithin(cuts: seq<seq<Id>>, bound: nat)
  {
    forall i :: 0 <= i < |cuts| ==> |AsSet(cuts[i])| <= bound
  }

  ghost predicate CoversFirst(initial: set<Id>, net: Network, targets: set<Id>, cuts: seq<seq<Id>>,
                              candidates: seq<seq<Id>>, n: nat)
    requires n <= |candidates|
  {
    forall i :: 0 <= i < n ==> Covers(initial, net, targets, cuts, AsSet(candidates[i]))
  }

  lemma CoverageGrows(initial: set<Id>, net: Network, targets: set<Id>, cuts: seq<seq<Id>>, more: seq<seq<Id>>,
                      candidates: seq<seq<Id>>, n: nat, size: nat)
    requires n <= |candidates| && cuts <= more
    requires CoversSmaller(initial, net, targets, cuts, size)
    requires CoversFirst(initial, net, targets, cuts, candidates, n)
    ensures CoversSmaller(initial, net, targets, more, size)
    ensures CoversFirst(initial, net, targets, more, candidates, n)
  {
    forall s | Contains(cuts, s) ensures Contains(more, s) {
      ContainsGrows(cuts, more[|cuts|..], s);
      assert more == cuts + more[|cuts|..];
    }
  }

  /** One candidate: skipped when it contains a listed cut, listed when it is a cut itself. */
  method ConsiderCandidate(initial: set<Id>, net: Network, targets: set<Id>, cuts: seq<seq<Id>>, candidate: seq<Id>)
    returns (more: seq<seq<Id>>)
    requires candidate != [] && NoDuplicates(candidate) && AsSet(candidate) <= net.Keys
    requires AllMinimal(initial, net, targets, cuts)
    requires CoversSmaller(initial, net, targets, cuts, |AsSet(candidate)|)
    ensures more == cuts || more == cuts + [candidate]
    ensures AllMinimal(initial, net, targets, more) && Covers(initial, net, targets, more, AsSet(candidate))
  {
    var removed := AsSet(candidate);
    assert candidate[0] in removed;
    more := cuts;
    if !Contains(cuts, removed) {
      var reach := Closure(initial, net, removed);
      CutByClosure(initial, net, targets, removed, reach);
      if !(targets <= reach) {
        NewCutIsMinimal(initial, net, targets, cuts, removed);
        more := cuts + [candidate];
        assert AsSet(more[|cuts|]) <= removed;
      }
    }
  }

  /** A nonempty duplicate-free listing of size transformations. */
  ghost predicate IsCandidate(net: Network, size: nat, c: seq<Id>)
  {
    c != [] && NoDuplicates(c) && AsSet(c) <= net.Keys && |AsSet(c)| == size
  }

  lemma CombinationsAreCandidates(ids: seq<Id>, net: Network, size: nat)
    requires NoDuplicates(ids) && (forall x :: x in ids <==> x in net) && size > 0
    ensures forall c :: c in Combinations(ids, size) ==> IsCandidate(net, size, c)
  {
    forall c | c in Combinations(ids, size) ensures IsCandidate(net, size, c) {
      CombinationsAreSubsets(ids, size, c);
      NoDuplicatesCardinality(c, AsSet(c));
    }
  }

  /** All candidates of one size, until the budget is spent. */
  method SearchSize(initial: set<Id>, net: Network, targets: set<Id>, before: seq<seq<Id>>, size: nat,
                    candidates: seq<seq<Id>>, spent: nat, budget: int)
    returns (cuts: seq<seq<Id>>, operations: nat, exhausted: bool)
    requires size > 0 && forall c :: c in candidates ==> IsCandidate(net, size, c)
    requires AllMinimal(initial, net, targets, before) && AllWithin(before, size)
    requires CoversSmaller(initial, net, targets, before, size) && (spent == 0 || spent <= budget)
    ensures AllMinimal(initial, net, targets, cuts) && AllWithin(cuts, size)
    ensures !exhausted ==> CoversSmaller(initial, net, targets, cuts, size)
                           && CoversFirst(initial, net, targets, cuts, candidates, |candidates|)
    ensures !exhausted ==> operations == spent + |candidates| && (operations == 0 || operations <= budget)
    ensures exhausted ==> budget < operations && 0 < operations <= spent + |candidates|
  {
    cuts, operations, exhausted := before, spent, false;
    for j := 0 to |candidates|
      invariant !exhausted && operations == spent + j && (operations == 0 || operations <= budget)
      invariant AllMinimal(initial, net, targets, cuts) && AllWithin(cuts, size)
      invariant CoversSmaller(initial, net, targets, cuts, size)
      invariant CoversFirst(initial, net, targets, cuts, candidates, j)
    {
      operations := operations + 1;
      if operations > budget {
        exhausted := true;
        return;
      }
      assert candidates[j] in candidates;
      var more := ConsiderCandidate(initial, net, targets, cuts, candidates[j]);
      CoverageGrows(initial, net, targets, cuts, more, candidates, j, size);
      cuts := more;
    }
  }

  /** When all combinations of a size are covered, all sets of that size are. */
  lemma SizeIsCovered(initial: set<Id>, net: Network, targets: set<Id>, cuts: seq<seq<Id>>, ids: seq<Id>, size: nat)
    requires NoDuplicates(ids) && forall x :: x in ids <==> x in net
    requires CoversSmaller(initial, net, targets, cuts, size)
    requires forall i :: 0 <= i < |Combinations(ids, size)| ==>
                           Covers(initial, net, targets, cuts, AsSet(Combinations(ids, size)[i]))
    ensures CoversSmaller(initial, net, targets, cuts, size + 1)
  {
    forall s | s <= net.Keys && 0 < |s| < size + 1 ensures Covers(initial, net, targets, cuts, s) {
      if |s| == size {
        var c := SubsetsAreCombinations(ids, s);
        var i :| 0 <= i < |Combinations(ids, size)| && Combinations(ids, size)[i] == c;
        assert Covers(initial, net, targets, cuts, AsSet(Combinations(ids, size)[i]));
      }
    }
  }

  lemma {:induction false} CandidatesGrow(ids: seq<Id>, a: nat, b: nat)
    requires a <= b
    ensures CandidatesBelow(ids, a) <= CandidatesBelow(ids, b)
    decreases b
  {
    if a < b {
      CandidatesGrow(ids, a, b - 1);
    }
  }

  method SizeStep(initial: set<Id>, net: Network, targets: set<Id>, before: seq<seq<Id>>, ids: seq<Id>, size: nat,
                  spent: nat, budget: int, ghost bound: nat) returns (cuts: seq<seq<Id>>, operations: nat, exhausted: bool)
    requires NoDuplicates(ids) && (forall x :: x in ids <==> x in net) && size > 0
    requires AllMinimal(initial, net, targets, before) && AllWithin(before, size)
    requires CoversSmaller(initial, net, targets, before, size)
    requires spent == CandidatesBelow(ids, size) && (spent == 0 || spent <= budget) && size <= bound
    ensures AllMinimal(initial, net, targets, cuts) && AllWithin(cuts, size)
    ensures !exhausted ==> CoversSmaller(initial, net, targets, cuts, size + 1)
    ensures !exhausted ==> operations == CandidatesBelow(ids, size + 1) && (operations == 0 || operations <= budget)
    ensures exhausted ==> budget < operations && 0 < operations <= CandidatesBelow(ids, bound + 1)
  {
    CandidatesGrow(ids, size + 1, bound + 1);
    var candidates := Combinations(ids, size);
    CombinationsAreCandidates(ids, net, size);
    cuts, operations, exhausted := SearchSize(initial, net, targets, before, size, candidates, spent, budget);
    if !exhausted {
      SizeIsCovered(initial, net, targets, cuts, ids, size);
    }
  }

  /** The loop over sizes, for any duplicate-free listing of the transformations and the total of its candidates. */
  method Search(initial: set<Id>, net: Network, targets: set<Id>, ids: seq<Id>, bound: nat, budget: int,
                ghost total: nat) returns (r: Report)
    requires NoDuplicates(ids) && forall x :: x in ids <==> x in net
    requires total == CandidatesBelow(ids, bound + 1)
    ensures AllMinimal(initial, net, targets, r.cuts) && AllWithin(r.cuts, bound)
    ensures r.complete ==> CoversSmaller(initial, net, targets, r.cuts, bound + 1)
    ensures r.complete <==> total == 0 || total <= budget
    ensures r.operations == if total < budget then total else budget
  {
    var cuts: seq<seq<Id>> := [];
    var operations: nat := 0;
    for size := 1 to bound + 1
      invariant AllMinimal(initial, net, targets, cuts) && AllWithin(cuts, size) && AllWithin(cuts, bound)
      invariant CoversSmaller(initial, net, targets, cuts, size)
      invariant operations == CandidatesBelow(ids, size) && (operations == 0 || operations <= budget)
    {
      var exhausted;
      cuts, operations, exhausted := SizeStep(initial, net, targets, cuts, ids, size, operations, budget, bound);
      if exhausted {
        return Report(cuts, false, budget);
      }
    }
    r := Report(cuts, true, if operations < budget then operations else budget);
  }

  /** How many candidates the call has to examine. */
  function CandidateTotal(net: Network, maximum: int): nat
  {
    CandidatesBelow(Sorted(net.Keys), Bound(maximum, Sorted(net.Keys)) + 1)
  }

  /** bounded_minimal_cut_sets */
  method MinimalCutSets(initial: set<Id>, net: Network, targets: set<Id>, maximum: int, budget: int) returns (r: Report)
    ensures AllMinimal(initial, net, targets, r.cuts) && AllWithin(r.cuts, Bound(maximum, Sorted(net.Keys)))
    ensures r.complete ==> CoversSmaller(initial, net, targets, r.cuts, Bound(maximum, Sorted(net.Keys)) + 1)
    ensures r.complete <==> CandidateTotal(net, maximum) == 0 || CandidateTotal(net, maximum) <= budget
    ensures r.operations == if CandidateTotal(net, maximum) < budget then CandidateTotal(net, maximum) else budget
  {
    var ids := Sorted(net.Keys);
    SortedHasNoDuplicates(ids);
    r := Search(initial, net, targets, ids, Bound(maximum, ids), budget, CandidateTotal(net, maximum));
  }

  // ----- what a complete report means

  /** Within the bound a nonempty set is a cut exactly when it contains a listed one. */
  lemma CutIffContainsListed(initial: set<Id>, net: Network, targets: set<Id>, cuts: seq<seq<Id>>, bound: nat, s: set<Id>)
    requires AllMinimal(initial, net, targets, cuts) && CoversSmaller(initial, net, targets, cuts, bound + 1)
    requires s <= net.Keys && 0 < |s| <= bound
    ensures IsCut(initial, net, targets, s) <==> Contains(cuts, s)
  {
    assert Covers(initial, net, targets, cuts, s);
    if Contains(cuts, s) {
      var i :| 0 <= i < |cuts| && AsSet(cuts[i]) <= s;
      CutsAreUpwardClosed(initial, net, targets, AsSet(cuts[i]), s);
    }
  }

  /** The bound admits exactly the sets of transformations of at most the maximum size. */
  lemma BoundIsExact(net: Network, maximum: int, s: set<Id>)
    requires s <= net.Keys && s != {}
    ensures |s| <= Bound(maximum, Sorted(net.Keys)) <==> |s| <= maximum
  {
    SubsetCardinality(s, net.Keys);
  }

  /** A complete report decides every nonempty set of at most the maximum size. */
  lemma CompleteReportDecidesCuts(initial: set<Id>, net: Network, targets: set<Id>, cuts: seq<seq<Id>>, maximum: int, s: set<Id>)
    requires AllMinimal(initial, net, targets, cuts)
    requires CoversSmaller(initial, net, targets, cuts, Bound(maximum, Sorted(net.Keys)) + 1)
    requires s <= net.Keys && s != {} && |s| <= maximum
    ensures IsCut(initial, net, targets, s) <==> Contains(cuts, s)
  {
    BoundIsExact(net, maximum, s);
    CutIffContainsListed(initial, net, targets, cuts, Bound(maximum, Sorted(net.Keys)), s);
  }

  /** A complete report lists exactly the minimal nonempty cuts within the bound. */
  lemma ListedAreTheMinimalCuts(initial: set<Id>, net: Network, targets: set<Id>, cuts: seq<seq<Id>>, bound: nat, s: set<Id>)
    requires AllMinimal(initial, net, targets, cuts) && CoversSmaller(initial, net, targets, cuts, bound + 1)
    requires forall i :: 0 <= i < |cuts| ==> |AsSet(cuts[i])| <= bound
    ensures (exists i :: 0 <= i < |cuts| && AsSet(cuts[i]) == s) <==>
            IsMinimalAmongNonempty(initial, net, targets, s) && |s| <= bound
  {
    if IsMinimalAmongNonempty(initial, net, targets, s) && |s| <= bound {
      assert s != {} && |s| > 0;
      CutIffContainsListed(initial, net, targets, cuts, bound, s);
      var i :| 0 <= i < |cuts| && AsSet(cuts[i]) <= s;
      assert IsMinimalAmongNonempty(initial, net, targets, AsSet(cuts[i]));
    }
  }

  /**
   * A nonempty cut the search calls minimal is inclusion-minimal if and only if the targets are reachable with
   * nothing removed; otherwise the empty cut is the only minimal one and every listed cut is spurious.
   */
  lemma MinimalIffTargetsReachable(initial: set<Id>, net: Network, targets: set<Id>, s: set<Id>, reach: set<Id>)
    requires IsMinimalAmongNonempty(initial, net, targets, s) && IsReach(initial, net, {}, reach)
    ensures IsMinimalCut(initial, net, targets, s) <==> targets <= reach
    ensures !(targets <= reach) ==> IsMinimalCut(initial, net, targets, {})
  {
    assert {} < s;
    CutByClosure(initial, net, targets, {}, reach);
  }

  /** With an unreachable target every transformation is reported as a cut, although the empty set already cuts. */
  lemma UnreachableTargetMakesSingletonsCuts(initial: set<Id>, net: Network, targets: set<Id>, id: Id)
    requires id in net && IsCut(initial, net, targets, {})
    ensures IsMinimalAmongNonempty(initial, net, targets, {id}) && !IsMinimalCut(initial, net, targets, {id})
  {
    CutsAreUpwardClosed(initial, net, targets, {}, {id});
    assert {} < {id};
    assert forall part: set<Id> :: part < {id} ==> part == {} by {
      forall part: set<Id> | part < {id} ensures part == {} {
        SubsetCardinality(part, {id});
      }
    }
  }
}
