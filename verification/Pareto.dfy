/** Selection by dominance: nondominated candidates, and the primary of the v0.4 and v0.5 planners. */
module Pareto {
  import opened Ids

  ghost predicate StrictOrder<T(!new)>(d: (T, T) -> bool)
  {
    && (forall x :: !d(x, x))
    && (forall x, y, z :: d(x, y) && d(y, z) ==> d(x, z))
  }

  /** not any(dominates(other, item) for other in items if other is not item) */
  predicate NondominatedAt<T>(items: seq<T>, d: (T, T) -> bool, i: nat)
    requires i < |items|
  {
    forall j :: 0 <= j < |items| && j != i ==> !d(items[j], items[i])
  }

  /** all(item is other or dominates(item, other) for other in items) */
  predicate StrictAt<T>(items: seq<T>, d: (T, T) -> bool, i: nat)
    requires i < |items|
  {
    forall j :: 0 <= j < |items| && j != i ==> d(items[i], items[j])
  }

  function Nondominated<T>(items: seq<T>, d: (T, T) -> bool): seq<nat>
  {
    Where(|items|, (i: nat) => i < |items| && NondominatedAt(items, d, i))
  }

  function StrictWinners<T>(items: seq<T>, d: (T, T) -> bool): seq<nat>
  {
    Where(|items|, (i: nat) => i < |items| && StrictAt(items, d, i))
  }

  // ----- what dominance leaves undominated

  ghost function Dominators<T>(items: seq<T>, d: (T, T) -> bool, i: nat): set<nat>
    requires i < |items|
  {
    set j: nat | j < |items| && d(items[j], items[i])
  }

  /** In a finite set under a strict order every dominated candidate is dominated by a nondominated one. */
  lemma {:induction false} DominatedByNondominated<T(!new)>(items: seq<T>, d: (T, T) -> bool, i: nat) returns (k: nat)
    requires StrictOrder(d) && i < |items| && !NondominatedAt(items, d, i)
    ensures k < |items| && NondominatedAt(items, d, k) && d(items[k], items[i])
    decreases |Dominators(items, d, i)|
  {
    var j :| 0 <= j < |items| && j != i && d(items[j], items[i]);
    if NondominatedAt(items, d, j) {
      k := j;
    } else {
      assert j in Dominators(items, d, i) && j !in Dominators(items, d, j);
      forall m | m in Dominators(items, d, j) ensures m in Dominators(items, d, i) {
      }
      SubsetCardinality(Dominators(items, d, j), Dominators(items, d, i));
      k := DominatedByNondominated(items, d, j);
    }
  }

  // ----- v0.4: the primary is a strict winner among all eligible candidates

  datatype Selection = Overflow | Selected(primary: Option<nat>, alternatives: seq<nat>)

  function SelectV4<T>(items: seq<T>, d: (T, T) -> bool, cap: int): Selection
  {
    var front := Nondominated(items, d);
    if |front| > cap then Overflow
    else
      var primary := OnlyOne(StrictWinners(items, d));
      Selected(primary, if primary.Some? then [] else if |front| <= 3 then front else front[..3])
  }

  /** A candidate wins strictly exactly when it is the only nondominated one. */
  lemma StrictIffOnlyNondominated<T(!new)>(items: seq<T>, d: (T, T) -> bool, p: nat)
    requires StrictOrder(d) && p < |items|
    ensures StrictAt(items, d, p) <==>
            NondominatedAt(items, d, p) && forall i :: 0 <= i < |items| && NondominatedAt(items, d, i) ==> i == p
  {
    if StrictAt(items, d, p) {
      forall j | 0 <= j < |items| && j != p ensures !d(items[j], items[p]) && !NondominatedAt(items, d, j) {
        assert d(items[p], items[j]);
      }
    }
    if NondominatedAt(items, d, p) && forall i :: 0 <= i < |items| && NondominatedAt(items, d, i) ==> i == p {
      forall j | 0 <= j < |items| && j != p ensures d(items[p], items[j]) {
        var k := DominatedByNondominated(items, d, j);
      }
    }
  }

  /**
   * The v0.4 primary exists if and only if exactly one eligible candidate is nondominated;
   * it is that candidate and dominates every other one.
   */
  lemma PrimaryV4<T(!new)>(items: seq<T>, d: (T, T) -> bool, p: nat)
    requires StrictOrder(d)
    ensures OnlyOne(StrictWinners(items, d)) == Some(p) <==> Nondominated(items, d) == [p]
    ensures OnlyOne(StrictWinners(items, d)).None? <==> |Nondominated(items, d)| != 1
    ensures Nondominated(items, d) == [p] ==>
              p < |items| && forall j :: 0 <= j < |items| && j != p ==> d(items[p], items[j])
  {
    var front, winners := Nondominated(items, d), StrictWinners(items, d);
    if |winners| == 1 {
      var w := winners[0];
      assert w in winners;
      StrictIffOnlyNondominated(items, d, w);
      SingletonByMembers(front, w);
    }
    assert Nondominated(items, d) == [p] ==> p in front;
    if |front| == 1 {
      var w := front[0];
      assert w in front;
      StrictIffOnlyNondominated(items, d, w);
      forall i: nat | i < |items| && NondominatedAt(items, d, i) ensures i == w {
        assert i in front;
      }
      assert w in winners;
      forall i: nat | i in winners ensures i == w {
        StrictIffOnlyNondominated(items, d, i);
      }
      SingletonByMembers(winners, w);
    }
  }

  /** Nothing where there are no candidates, otherwise two or three nondominated ones in their order. */
  ghost predicate Offered<T>(items: seq<T>, d: (T, T) -> bool, alternatives: seq<nat>)
  {
    && (items == [] ==> alternatives == []) && (items != [] ==> 2 <= |alternatives| <= 3)
    && (forall k :: 0 <= k < |alternatives| ==> alternatives[k] < |items| && NondominatedAt(items, d, alternatives[k]))
    && Increasing(alternatives)
  }

  lemma SomeNondominated<T(!new)>(items: seq<T>, d: (T, T) -> bool)
    requires StrictOrder(d)
    ensures Nondominated(items, d) == [] <==> items == []
  {
    if items != [] {
      var k: nat := 0;
      if !NondominatedAt(items, d, 0) {
        k := DominatedByNondominated(items, d, 0);
      }
      assert k in Nondominated(items, d);
    }
    if Nondominated(items, d) != [] {
      assert Nondominated(items, d)[0] in Nondominated(items, d);
    }
  }

  lemma FirstOfFront<T(!new)>(items: seq<T>, d: (T, T) -> bool)
    requires StrictOrder(d) && |Nondominated(items, d)| != 1
    ensures var front := Nondominated(items, d);
            Offered(items, d, if |front| <= 3 then front else front[..3])
  {
    var front := Nondominated(items, d);
    SomeNondominated(items, d);
    forall k | 0 <= k < |front| ensures front[k] < |items| && NondominatedAt(items, d, front[k]) {
      assert front[k] in front;
    }
  }

  /** The whole selection of v0.4 under any strict order. */
  lemma SelectionV4IsExact<T(!new)>(items: seq<T>, d: (T, T) -> bool, cap: int, p: nat)
    requires StrictOrder(d)
    ensures SelectV4(items, d, cap).Overflow? <==> |Nondominated(items, d)| > cap
    ensures SelectV4(items, d, cap) == Selected(Some(p), []) <==> cap >= 1 && Nondominated(items, d) == [p]
    ensures Nondominated(items, d) == [p] ==>
              p < |items| && forall j :: 0 <= j < |items| && j != p ==> d(items[p], items[j])
    ensures SelectV4(items, d, cap) == Selected(None, []) ==> items == []
    ensures SelectV4(items, d, cap).Selected? ==>
              SelectV4(items, d, cap).primary.Some? || Offered(items, d, SelectV4(items, d, cap).alternatives)
  {
    PrimaryV4(items, d, p);
    SomeNondominated(items, d);
    if |Nondominated(items, d)| != 1 {
      FirstOfFront(items, d);
    }
  }

  // ----- v0.5: a strict winner among the nondominated that reaches the targets on every branch

  /** front lists the nondominated positions in whatever order they were sorted into. */
  function WinnersV5<T>(items: seq<T>, d: (T, T) -> bool, front: seq<nat>, reaches: T -> bool): seq<nat>
    requires forall k :: 0 <= k < |front| ==> front[k] < |items|
  {
    Where(|front|, (i: nat) =>
      i < |front| && (forall j :: 0 <= j < |front| && j != i ==> d(items[front[i]], items[front[j]]))
      && reaches(items[front[i]]))
  }

  function PrimaryOfV5<T>(items: seq<T>, d: (T, T) -> bool, front: seq<nat>, reaches: T -> bool): Option<nat>
    requires forall k :: 0 <= k < |front| ==> front[k] < |items|
  {
    var winners := WinnersV5(items, d, front, reaches);
    assert |winners| == 1 ==> winners[0] in winners;
    if |winners| == 1 then Some(front[winners[0]]) else None
  }

  /**
   * The v0.5 primary exists if and only if exactly one eligible candidate is nondominated and it reaches
   * all targets on every branch; it then dominates every other eligible candidate.
   */
  lemma PrimaryV5<T(!new)>(items: seq<T>, d: (T, T) -> bool, front: seq<nat>, reaches: T -> bool, p: nat)
    requires StrictOrder(d) && NoDuplicates(front)
    requires forall k :: 0 <= k < |front| ==> front[k] < |items|
    requires forall i: nat :: i in front <==> i in Nondominated(items, d)
    ensures PrimaryOfV5(items, d, front, reaches) == Some(p) <==>
            p < |items| && Nondominated(items, d) == [p] && reaches(items[p])
    ensures PrimaryOfV5(items, d, front, reaches) == Some(p) ==>
              forall j :: 0 <= j < |items| && j != p ==> d(items[p], items[j])
  {
    var winners := WinnersV5(items, d, front, reaches);
    if |winners| == 1 {
      var w := winners[0];
      assert w in winners;
      forall i: nat | i in front ensures i == front[w] {
        var k :| 0 <= k < |front| && front[k] == i;
        assert front[w] in front && NondominatedAt(items, d, i);
      }
      assert front[w] in front;
      SingletonByMembers(front, front[w]);
      SingletonByMembers(Nondominated(items, d), front[w]);
    }
    if p < |items| && Nondominated(items, d) == [p] && reaches(items[p]) {
      assert p in Nondominated(items, d);
      SingletonByMembers(front, p);
      assert 0 in winners;
      SingletonByMembers(winners, 0);
      PrimaryV4(items, d, p);
    }
    if PrimaryOfV5(items, d, front, reaches) == Some(p) {
      PrimaryV4(items, d, p);
    }
  }
}
