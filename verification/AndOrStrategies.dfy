/** Strong trees against abstract strategies: without pruning the two are the same thing. */
module AndOrStrategies {
  import opened Ids
  import opened AndOr

  /** A strategy picks an action from the state reached and the number of actions left. */
  type Positional<!S, !A> = (S, int) -> Option<A>

  /** No repeated action is ever cut off as a non-progress cycle. */
  ghost predicate NeverBlocks<S(!new), A(!new), K>(g: Game<S, A, K>)
  {
    forall s, a :: a in g.choices(s) ==> g.repeatable(a)
  }

  /** Taking a in s and then following sigma against these outcomes reaches the target, by choices only. */
  ghost predicate PlayWins<S, A, K>(g: Game<S, A, K>, sigma: Positional<S, A>, s: S, a: A, depth: nat,
                                    names: seq<BranchName>)
    requires |names| == depth
    decreases depth
  {
    && depth >= 1
    && var s' := g.next(s, a, names[0]);
       || g.reached(s')
       || (&& depth >= 2 && sigma(s', depth - 1).Some? && sigma(s', depth - 1).value in g.choices(s')
           && PlayWins(g, sigma, s', sigma(s', depth - 1).value, depth - 1, names[1..]))
  }

  /** sigma wins against every sequence of outcomes. */
  ghost predicate Forces<S, A, K>(g: Game<S, A, K>, sigma: Positional<S, A>, s: S, a: A, depth: nat)
  {
    forall names: seq<BranchName> :: |names| == depth ==> PlayWins(g, sigma, s, a, depth, names)
  }

  lemma ForcesAfter<S, A, K>(g: Game<S, A, K>, sigma: Positional<S, A>, s: S, a: A, depth: nat, name: BranchName)
    requires Forces(g, sigma, s, a, depth) && depth >= 1 && !g.reached(g.next(s, a, name))
    ensures var s' := g.next(s, a, name);
            && depth >= 2 && sigma(s', depth - 1).Some? && sigma(s', depth - 1).value in g.choices(s')
            && Forces(g, sigma, s', sigma(s', depth - 1).value, depth - 1)
  {
    var s' := g.next(s, a, name);
    var any := [name] + seq(depth - 1, _ => Success);
    assert PlayWins(g, sigma, s, a, depth, any);
    var c := sigma(s', depth - 1).value;
    forall rest: seq<BranchName> | |rest| == depth - 1 ensures PlayWins(g, sigma, s', c, depth - 1, rest) {
      assert PlayWins(g, sigma, s, a, depth, [name] + rest);
      assert ([name] + rest)[1..] == rest;
    }
  }

  /** A winning strategy shows up as a strong tree. */
  lemma {:induction false} ForcesMakesStrong<S(!new), A(!new), K>(g: Game<S, A, K>, sigma: Positional<S, A>, s: S, a: A,
                                                                 depth: nat, visited: set<K>)
    requires NeverBlocks(g) && g.repeatable(a) && depth >= 1 && Forces(g, sigma, s, a, depth)
    ensures Tree(g, s, a, depth, visited).strong
    decreases depth, 1
  {
    forall name: BranchName ensures Good(Tree(g, s, a, depth, visited).outcomes[name]) {
      TreeOutcome(g, s, a, depth, visited, name);
      ForcesMakesGood(g, sigma, s, a, depth, visited, name);
    }
  }

  lemma {:induction false} ForcesMakesGood<S(!new), A(!new), K>(g: Game<S, A, K>, sigma: Positional<S, A>, s: S, a: A,
                                                               depth: nat, visited: set<K>, name: BranchName)
    requires NeverBlocks(g) && g.repeatable(a) && depth >= 1 && Forces(g, sigma, s, a, depth)
    ensures Good(OutcomeAt(g, g.next(s, a, name), a, depth, visited))
    decreases depth, 0
  {
    var s' := g.next(s, a, name);
    if !g.reached(s') {
      ForcesAfter(g, sigma, s, a, depth, name);
      var c := sigma(s', depth - 1).value;
      ForcesMakesStrong(g, sigma, s', c, depth - 1, visited + {g.key(a, s')});
      ChildMakesGood(g, s', a, depth, visited, c);
    }
  }

  ghost predicate Winnable<S, A, K(!new)>(g: Game<S, A, K>, s: S, a: A, depth: int)
  {
    exists visited: set<K> :: Tree(g, s, a, depth, visited).strong
  }

  /** The strategy that takes some action with a strong tree wherever there is one. */
  ghost function Best<S, A, K(!new)>(g: Game<S, A, K>): Positional<S, A>
  {
    (s, depth) =>
      if exists a :: a in g.choices(s) && Winnable(g, s, a, depth)
      then var a :| a in g.choices(s) && Winnable(g, s, a, depth); Some(a)
      else None
  }

  lemma PlayContinues<S, A, K>(g: Game<S, A, K>, sigma: Positional<S, A>, s: S, a: A, depth: nat,
                               names: seq<BranchName>, c: A)
    requires depth >= 2 && |names| == depth
    requires sigma(g.next(s, a, names[0]), depth - 1) == Some(c) && c in g.choices(g.next(s, a, names[0]))
    requires PlayWins(g, sigma, g.next(s, a, names[0]), c, depth - 1, names[1..])
    ensures PlayWins(g, sigma, s, a, depth, names)
  {
  }

  /** A winnable action leads to the target or to a choice of Best that is winnable again. */
  lemma BestContinues<S, A, K(!new)>(g: Game<S, A, K>, s: S, a: A, depth: int, name: BranchName) returns (c: A)
    requires Winnable(g, s, a, depth) && !g.reached(g.next(s, a, name))
    ensures depth >= 2 && c in g.choices(g.next(s, a, name))
    ensures Best(g)(g.next(s, a, name), depth - 1) == Some(c) && Winnable(g, g.next(s, a, name), c, depth - 1)
  {
    var s' := g.next(s, a, name);
    var visited: set<K> :| Tree(g, s, a, depth, visited).strong;
    TreeOutcome(g, s, a, depth, visited, name);
    var child, later := StrongChild(g, s', a, depth, visited);
    assert Winnable(g, s', child, depth - 1);
    c := Best(g)(s', depth - 1).value;
  }

  /** A strong tree, pruned or not, comes with a strategy that wins every abstract play. */
  lemma {:induction false} WinnableForces<S, A, K(!new)>(g: Game<S, A, K>, s: S, a: A, depth: nat,
                                                        names: seq<BranchName>)
    requires depth >= 1 && Winnable(g, s, a, depth) && |names| == depth
    ensures PlayWins(g, Best(g), s, a, depth, names)
    decreases depth
  {
    var s' := g.next(s, a, names[0]);
    if !g.reached(s') {
      var c := BestContinues(g, s, a, depth, names[0]);
      WinnableForces(g, s', c, depth - 1, names[1..]);
      PlayContinues(g, Best(g), s, a, depth, names, c);
    }
  }

  /** Without pruning, strong means exactly that some strategy wins every abstract play. */
  lemma StrongIffStrategyExists<S(!new), A(!new), K(!new)>(g: Game<S, A, K>, s: S, a: A, depth: nat, visited: set<K>)
    requires NeverBlocks(g) && g.repeatable(a) && depth >= 1
    ensures Tree(g, s, a, depth, visited).strong <==> exists sigma :: Forces(g, sigma, s, a, depth)
  {
    if Tree(g, s, a, depth, visited).strong {
      forall names: seq<BranchName> | |names| == depth ensures PlayWins(g, Best(g), s, a, depth, names) {
        assert Winnable(g, s, a, depth);
        WinnableForces(g, s, a, depth, names);
      }
      assert Forces(g, Best(g), s, a, depth);
    }
    if sigma :| Forces(g, sigma, s, a, depth) {
      ForcesMakesStrong(g, sigma, s, a, depth, visited);
    }
  }

  /** h plays like g with at least its choices. */
  ghost predicate Extends<S(!new), A(!new), K>(g: Game<S, A, K>, h: Game<S, A, K>)
  {
    && (forall s, a, name :: g.next(s, a, name) == h.next(s, a, name))
    && (forall s :: g.reached(s) == h.reached(s))
    && (forall s, a :: a in g.choices(s) ==> a in h.choices(s))
  }

  lemma {:induction false} PlayExtends<S(!new), A(!new), K>(g: Game<S, A, K>, h: Game<S, A, K>, sigma: Positional<S, A>,
                                                           s: S, a: A, depth: nat, names: seq<BranchName>)
    requires Extends(g, h) && |names| == depth && PlayWins(g, sigma, s, a, depth, names)
    ensures PlayWins(h, sigma, s, a, depth, names)
    decreases depth
  {
    var s' := g.next(s, a, names[0]);
    if !g.reached(s') {
      PlayExtends(g, h, sigma, s', sigma(s', depth - 1).value, depth - 1, names[1..]);
    }
  }

  /** More choices never hurt. */
  lemma ForcesExtends<S(!new), A(!new), K>(g: Game<S, A, K>, h: Game<S, A, K>, sigma: Positional<S, A>, s: S, a: A,
                                           depth: nat)
    requires Extends(g, h) && Forces(g, sigma, s, a, depth)
    ensures Forces(h, sigma, s, a, depth)
  {
    forall names: seq<BranchName> | |names| == depth ensures PlayWins(h, sigma, s, a, depth, names) {
      PlayExtends(g, h, sigma, s, a, depth, names);
    }
  }
}
