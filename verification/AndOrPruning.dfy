/** What a tree with a visited set decides: strategies that never repeat a non-repeatable action at a visited key. */
module AndOrPruning {
  import opened AndOr
  import opened AndOrStrategies
  import opened Ids

  /** A strategy may also look at the keys visited so far. */
  type Remembering<!S, !A, !K> = (S, set<K>, int) -> Option<A>

  /** As PlayWins, but the play is also lost when an action that must not repeat leads to a key already visited. */
  ghost predicate FreshPlayWins<S, A, K>(g: Game<S, A, K>, sigma: Remembering<S, A, K>, s: S, a: A, visited: set<K>,
                                         depth: nat, names: seq<BranchName>)
    requires |names| == depth
    decreases depth
  {
    && depth >= 1
    && var s' := g.next(s, a, names[0]);
       var later := visited + {g.key(a, s')};
       || g.reached(s')
       || (&& depth >= 2 && (g.key(a, s') in visited ==> g.repeatable(a))
           && sigma(s', later, depth - 1).Some? && sigma(s', later, depth - 1).value in g.choices(s')
           && FreshPlayWins(g, sigma, s', sigma(s', later, depth - 1).value, later, depth - 1, names[1..]))
  }

  ghost predicate ForcesFresh<S, A, K>(g: Game<S, A, K>, sigma: Remembering<S, A, K>, s: S, a: A, visited: set<K>, depth: nat)
  {
    forall names: seq<BranchName> :: |names| == depth ==> FreshPlayWins(g, sigma, s, a, visited, depth, names)
  }

  // ----- what makes a tree strong, without the tree

  ghost predicate StrongAt<S, A, K>(g: Game<S, A, K>, s: S, a: A, depth: int, visited: set<K>)
    decreases depth, 1
  {
    forall name: BranchName :: GoodAt(g, g.next(s, a, name), a, depth, visited)
  }

  /** At the target, or not blocked and with a choice that is strong under the extended visited set. */
  ghost predicate GoodAt<S, A, K>(g: Game<S, A, K>, s: S, a: A, depth: int, visited: set<K>)
    decreases depth, 0
  {
    || g.reached(s)
    || (depth >= 2 && (g.key(a, s) in visited ==> g.repeatable(a)) && HasStrongChoice(g, s, depth - 1, visited + {g.key(a, s)}))
  }

  ghost predicate HasStrongChoice<S, A, K>(g: Game<S, A, K>, s: S, depth: int, visited: set<K>)
    decreases depth, 2
  {
    exists i :: 0 <= i < |g.choices(s)| && StrongAt(g, s, g.choices(s)[i], depth, visited)
  }

  lemma {:induction false} TreeIsStrongAt<S, A, K>(g: Game<S, A, K>, s: S, a: A, depth: int, visited: set<K>)
    ensures Tree(g, s, a, depth, visited).strong <==> StrongAt(g, s, a, depth, visited)
    decreases depth, 1
  {
    forall name: BranchName
      ensures Good(Tree(g, s, a, depth, visited).outcomes[name]) <==> GoodAt(g, g.next(s, a, name), a, depth, visited)
    {
      TreeOutcome(g, s, a, depth, visited, name);
      OutcomeIsGoodAt(g, g.next(s, a, name), a, depth, visited);
    }
  }

  lemma {:induction false} OutcomeIsGoodAt<S, A, K>(g: Game<S, A, K>, s: S, a: A, depth: int, visited: set<K>)
    ensures Good(OutcomeAt(g, s, a, depth, visited)) <==> GoodAt(g, s, a, depth, visited)
    decreases depth, 0
  {
    if !g.reached(s) && depth >= 2 && (g.key(a, s) in visited ==> g.repeatable(a)) {
      var later := visited + {g.key(a, s)};
      var nodes := Continuations(g, s, a, depth, visited, later);
      ChildrenAreStrongAt(g, s, g.choices(s), depth - 1, later, nodes);
      ContinuesIsGoodAt(g, s, a, depth, visited);
    } else {
      StopsIsGoodAt(g, s, a, depth, visited);
    }
  }

  ghost predicate AreTrees<S, A, K>(nodes: seq<Node<A>>, g: Game<S, A, K>, s: S, actions: seq<A>, depth: int, visited: set<K>)
  {
    |nodes| == |actions| && forall i :: 0 <= i < |nodes| ==> nodes[i] == Tree(g, s, actions[i], depth, visited)
  }

  lemma Continuations<S, A, K>(g: Game<S, A, K>, s: S, a: A, depth: int, visited: set<K>, later: set<K>)
    returns (nodes: seq<Node<A>>)
    requires !g.reached(s) && depth >= 2 && (g.key(a, s) in visited ==> g.repeatable(a)) && later == visited + {g.key(a, s)}
    ensures Good(OutcomeAt(g, s, a, depth, visited)) <==> HasStrong(nodes)
    ensures AreTrees(nodes, g, s, g.choices(s), depth - 1, later)
  {
    OutcomeContinues(g, s, a, depth, visited);
    nodes := Children(g, s, g.choices(s), depth - 1, later);
  }

  lemma StopsIsGoodAt<S, A, K>(g: Game<S, A, K>, s: S, a: A, depth: int, visited: set<K>)
    requires g.reached(s) || depth <= 1 || (g.key(a, s) in visited && !g.repeatable(a))
    ensures Good(OutcomeAt(g, s, a, depth, visited)) <==> g.reached(s)
    ensures GoodAt(g, s, a, depth, visited) <==> g.reached(s)
  {
  }

  lemma ContinuesIsGoodAt<S, A, K>(g: Game<S, A, K>, s: S, a: A, depth: int, visited: set<K>)
    requires !g.reached(s) && depth >= 2 && (g.key(a, s) in visited ==> g.repeatable(a))
    ensures GoodAt(g, s, a, depth, visited) <==> HasStrongChoice(g, s, depth - 1, visited + {g.key(a, s)})
  {
  }

  lemma ChildrenAreStrongAt<S, A, K>(g: Game<S, A, K>, s: S, actions: seq<A>, depth: int, visited: set<K>, nodes: seq<Node<A>>)
    requires AreTrees(nodes, g, s, actions, depth, visited)
    ensures actions == g.choices(s) ==> (HasStrong(nodes) <==> HasStrongChoice(g, s, depth, visited))
    decreases depth, 2
  {
    forall i | 0 <= i < |nodes| ensures nodes[i].strong <==> StrongAt(g, s, actions[i], depth, visited) {
      TreeIsStrongAt(g, s, actions[i], depth, visited);
    }
  }

  /** The choice behind a good outcome short of the target. */
  lemma StrongChoice<S, A, K>(g: Game<S, A, K>, s: S, a: A, depth: int, visited: set<K>) returns (c: A)
    requires GoodAt(g, s, a, depth, visited) && !g.reached(s)
    ensures depth >= 2 && (g.key(a, s) in visited ==> g.repeatable(a)) && c in g.choices(s)
    ensures StrongAt(g, s, c, depth - 1, visited + {g.key(a, s)})
  {
    var i :| 0 <= i < |g.choices(s)| && StrongAt(g, s, g.choices(s)[i], depth - 1, visited + {g.key(a, s)});
    c := g.choices(s)[i];
  }

  lemma ChoiceMakesGood<S, A, K>(g: Game<S, A, K>, s: S, a: A, depth: int, visited: set<K>, c: A)
    requires depth >= 2 && (g.key(a, s) in visited ==> g.repeatable(a)) && c in g.choices(s)
    requires StrongAt(g, s, c, depth - 1, visited + {g.key(a, s)})
    ensures GoodAt(g, s, a, depth, visited)
  {
    var i :| 0 <= i < |g.choices(s)| && g.choices(s)[i] == c;
    assert HasStrongChoice(g, s, depth - 1, visited + {g.key(a, s)});
  }

  lemma StrongOutcome<S, A, K>(g: Game<S, A, K>, s: S, a: A, depth: int, visited: set<K>, name: BranchName)
    requires StrongAt(g, s, a, depth, visited)
    ensures GoodAt(g, g.next(s, a, name), a, depth, visited)
  {
  }

  // ----- from strategies to trees

  lemma ForcesFreshAfter<S, A, K>(g: Game<S, A, K>, sigma: Remembering<S, A, K>, s: S, a: A, visited: set<K>, depth: nat,
                                  name: BranchName)
    requires ForcesFresh(g, sigma, s, a, visited, depth) && depth >= 1 && !g.reached(g.next(s, a, name))
    ensures var s' := g.next(s, a, name);
            var later := visited + {g.key(a, s')};
            && depth >= 2 && (g.key(a, s') in visited ==> g.repeatable(a))
            && sigma(s', later, depth - 1).Some? && sigma(s', later, depth - 1).value in g.choices(s')
            && ForcesFresh(g, sigma, s', sigma(s', later, depth - 1).value, later, depth - 1)
  {
    var s' := g.next(s, a, name);
    var later := visited + {g.key(a, s')};
    var any := [name] + seq(depth - 1, _ => Success);
    assert FreshPlayWins(g, sigma, s, a, visited, depth, any);
    var c := sigma(s', later, depth - 1).value;
    forall rest: seq<BranchName> | |rest| == depth - 1 ensures FreshPlayWins(g, sigma, s', c, later, depth - 1, rest) {
      assert FreshPlayWins(g, sigma, s, a, visited, depth, [name] + rest);
      assert ([name] + rest)[1..] == rest;
    }
  }

  lemma {:induction false} ForcesFreshMakesStrong<S, A, K>(g: Game<S, A, K>, sigma: Remembering<S, A, K>, s: S, a: A,
                                                          visited: set<K>, depth: nat)
    requires depth >= 1 && ForcesFresh(g, sigma, s, a, visited, depth)
    ensures StrongAt(g, s, a, depth, visited)
    decreases depth
  {
    forall name: BranchName ensures GoodAt(g, g.next(s, a, name), a, depth, visited) {
      var s' := g.next(s, a, name);
      if !g.reached(s') {
        var later := visited + {g.key(a, s')};
        ForcesFreshAfter(g, sigma, s, a, visited, depth, name);
        var c := sigma(s', later, depth - 1).value;
        ForcesFreshMakesStrong(g, sigma, s', c, later, depth - 1);
        ChoiceMakesGood(g, s', a, depth, visited, c);
      }
    }
  }

  // ----- from trees to strategies

  /** The strategy that takes some action that is strong under what has been visited. */
  ghost function BestFresh<S, A(!new), K>(g: Game<S, A, K>): Remembering<S, A, K>
  {
    (s, visited, depth) =>
      if exists a :: a in g.choices(s) && StrongAt(g, s, a, depth, visited)
      then var a :| a in g.choices(s) && StrongAt(g, s, a, depth, visited); Some(a)
      else None
  }

  lemma BestFreshContinues<S, A(!new), K>(g: Game<S, A, K>, s: S, a: A, visited: set<K>, depth: int, name: BranchName)
    returns (c: A)
    requires StrongAt(g, s, a, depth, visited) && !g.reached(g.next(s, a, name))
    ensures var s' := g.next(s, a, name);
            var later := visited + {g.key(a, s')};
            && depth >= 2 && (g.key(a, s') in visited ==> g.repeatable(a)) && c in g.choices(s')
            && BestFresh(g)(s', later, depth - 1) == Some(c) && StrongAt(g, s', c, depth - 1, later)
  {
    var s' := g.next(s, a, name);
    StrongOutcome(g, s, a, depth, visited, name);
    var child := StrongChoice(g, s', a, depth, visited);
    c := BestFresh(g)(s', visited + {g.key(a, s')}, depth - 1).value;
  }

  lemma FreshPlayContinues<S, A, K>(g: Game<S, A, K>, sigma: Remembering<S, A, K>, s: S, a: A, visited: set<K>, depth: nat,
                                    names: seq<BranchName>, c: A, later: set<K>)
    requires depth >= 2 && |names| == depth && later == visited + {g.key(a, g.next(s, a, names[0]))}
    requires g.key(a, g.next(s, a, names[0])) in visited ==> g.repeatable(a)
    requires sigma(g.next(s, a, names[0]), later, depth - 1) == Some(c) && c in g.choices(g.next(s, a, names[0]))
    requires FreshPlayWins(g, sigma, g.next(s, a, names[0]), c, later, depth - 1, names[1..])
    ensures FreshPlayWins(g, sigma, s, a, visited, depth, names)
  {
  }

  lemma {:induction false} StrongForcesFresh<S, A(!new), K>(g: Game<S, A, K>, s: S, a: A, visited: set<K>, depth: nat,
                                                           names: seq<BranchName>)
    requires depth >= 1 && |names| == depth && StrongAt(g, s, a, depth, visited)
    ensures FreshPlayWins(g, BestFresh(g), s, a, visited, depth, names)
    decreases depth
  {
    var s' := g.next(s, a, names[0]);
    if !g.reached(s') {
      var later := visited + {g.key(a, s')};
      var c := BestFreshContinues(g, s, a, visited, depth, names[0]);
      StrongForcesFresh(g, s', c, later, depth - 1, names[1..]);
      FreshPlayContinues(g, BestFresh(g), s, a, visited, depth, names, c, later);
    }
  }

  /** For every game and visited set: strong exactly when some strategy wins every play without forbidden repetition. */
  lemma StrongIffFreshStrategyExists<S(!new), A(!new), K(!new)>(g: Game<S, A, K>, s: S, a: A, depth: nat, visited: set<K>)
    requires depth >= 1
    ensures Tree(g, s, a, depth, visited).strong <==> exists sigma :: ForcesFresh(g, sigma, s, a, visited, depth)
  {
    TreeIsStrongAt(g, s, a, depth, visited);
    if StrongAt(g, s, a, depth, visited) {
      forall names: seq<BranchName> | |names| == depth ensures FreshPlayWins(g, BestFresh(g), s, a, visited, depth, names) {
        StrongForcesFresh(g, s, a, visited, depth, names);
      }
      assert ForcesFresh(g, BestFresh(g), s, a, visited, depth);
    }
    if sigma :| ForcesFresh(g, sigma, s, a, visited, depth) {
      ForcesFreshMakesStrong(g, sigma, s, a, visited, depth);
    }
  }

  // ----- winning without the visited set

  /** The same game with every action repeatable: nothing is pruned. */
  function Free<S, A, K>(g: Game<S, A, K>): Game<S, A, K>
  {
    g.(repeatable := (a: A) => true)
  }

  ghost predicate Wins<S, A, K>(g: Game<S, A, K>, s: S, a: A, depth: int)
  {
    StrongAt(Free(g), s, a, depth, {})
  }

  /** Winning is having a strategy for the abstract plays. */
  lemma WinsIffForces<S(!new), A(!new), K(!new)>(g: Game<S, A, K>, s: S, a: A, depth: nat, visited: set<K>)
    requires depth >= 1
    ensures Wins(g, s, a, depth) <==> exists sigma :: Forces(g, sigma, s, a, depth)
    ensures Wins(g, s, a, depth) <==> StrongAt(Free(g), s, a, depth, visited)
  {
    TreeIsStrongAt(Free(g), s, a, depth, {});
    TreeIsStrongAt(Free(g), s, a, depth, visited);
    StrongIffStrategyExists(Free(g), s, a, depth, {});
    StrongIffStrategyExists(Free(g), s, a, depth, visited);
    if sigma :| Forces(g, sigma, s, a, depth) {
      ForcesExtends(g, Free(g), sigma, s, a, depth);
    }
    if sigma :| Forces(Free(g), sigma, s, a, depth) {
      ForcesExtends(Free(g), g, sigma, s, a, depth);
    }
  }

  /** Some choice wins from the state within so many actions. */
  ghost predicate CanWin<S, A, K>(g: Game<S, A, K>, s: S, depth: int)
  {
    depth >= 1 && exists c :: c in g.choices(s) && Wins(g, s, c, depth)
  }

  lemma WinsGoesOn<S(!new), A(!new), K(!new)>(g: Game<S, A, K>, s: S, a: A, depth: int, name: BranchName)
    requires Wins(g, s, a, depth) && !g.reached(g.next(s, a, name))
    ensures depth >= 2 && CanWin(g, g.next(s, a, name), depth - 1)
  {
    var f, s' := Free(g), g.next(s, a, name);
    StrongOutcome(f, s, a, depth, {}, name);
    var c := StrongChoice(f, s', a, depth, {});
    WinsIffForces(g, s', c, depth - 1, {} + {g.key(a, s')});
  }

  /** Strong stays strong with more depth. */
  lemma {:induction false} StrongWithMoreDepth<S, A, K>(g: Game<S, A, K>, s: S, a: A, depth: int, more: int, visited: set<K>)
    requires StrongAt(g, s, a, depth, visited) && depth <= more
    ensures StrongAt(g, s, a, more, visited)
    decreases depth
  {
    forall name: BranchName ensures GoodAt(g, g.next(s, a, name), a, more, visited) {
      var s' := g.next(s, a, name);
      StrongOutcome(g, s, a, depth, visited, name);
      if !g.reached(s') {
        var c := StrongChoice(g, s', a, depth, visited);
        StrongWithMoreDepth(g, s', c, depth - 1, more - 1, visited + {g.key(a, s')});
        ChoiceMakesGood(g, s', a, more, visited, c);
      }
    }
  }

  lemma CanWinWithMore<S, A, K>(g: Game<S, A, K>, s: S, depth: int, more: int)
    requires CanWin(g, s, depth) && depth <= more
    ensures CanWin(g, s, more)
  {
    var c :| c in g.choices(s) && Wins(g, s, c, depth);
    StrongWithMoreDepth(Free(g), s, c, depth, more, {});
  }

  lemma LeastDepth<S, A, K>(g: Game<S, A, K>, s: S, depth: nat) returns (least: nat)
    requires CanWin(g, s, depth)
    ensures 1 <= least <= depth && CanWin(g, s, least) && !CanWin(g, s, least - 1)
  {
    least := depth;
    while CanWin(g, s, least - 1)
      invariant 1 <= least <= depth && CanWin(g, s, least)
      decreases least
    {
      least := least - 1;
    }
  }

  // ----- when pruning loses nothing

  /** The invariant is kept by choices. */
  ghost predicate Kept<S(!new), A(!new), K>(g: Game<S, A, K>, inv: S -> bool)
  {
    forall s, a, name :: inv(s) && a in g.choices(s) ==> inv(g.next(s, a, name))
  }

  /** States that a non-repeatable action can be pruned for are won in the same numbers of actions. */
  ghost predicate KeysDecideWinning<S(!new), A(!new), K>(g: Game<S, A, K>, inv: S -> bool)
  {
    forall a, b, s, t, d :: inv(s) && inv(t) && !g.repeatable(b) && g.key(a, s) == g.key(b, t) && CanWin(g, t, d)
      ==> CanWin(g, s, d)
  }

  /** Nothing visited so far can be won in fewer actions than are left. */
  ghost predicate Behind<S(!new), A(!new), K>(g: Game<S, A, K>, inv: S -> bool, visited: set<K>, depth: int)
  {
    forall b, t :: inv(t) && !g.repeatable(b) && g.key(b, t) in visited ==> !CanWin(g, t, depth - 1)
  }

  lemma NotInFewer<S, A, K>(g: Game<S, A, K>, s: S, fewer: int, depth: int)
    requires !CanWin(g, s, depth) && fewer <= depth
    ensures !CanWin(g, s, fewer)
  {
    if CanWin(g, s, fewer) {
      CanWinWithMore(g, s, fewer, depth);
    }
  }

  lemma StillBehind<S(!new), A(!new), K(!new)>(g: Game<S, A, K>, inv: S -> bool, visited: set<K>, depth: nat, a: A, s: S, least: nat)
    requires KeysDecideWinning(g, inv) && Behind(g, inv, visited, depth) && inv(s)
    requires least <= depth - 1 && !CanWin(g, s, least - 1)
    ensures Behind(g, inv, visited + {g.key(a, s)}, least)
  {
    forall b, t | inv(t) && !g.repeatable(b) && g.key(b, t) in visited + {g.key(a, s)} ensures !CanWin(g, t, least - 1) {
      if g.key(b, t) in visited {
        NotInFewer(g, t, least - 1, depth - 1);
      }
    }
  }

  /** Following least numbers of actions never comes back to a visited key. */
  lemma {:induction false} WinsMakesStrong<S(!new), A(!new), K(!new)>(g: Game<S, A, K>, inv: S -> bool, s: S, a: A, depth: nat,
                                                                     visited: set<K>)
    requires KeysDecideWinning(g, inv) && Kept(g, inv) && (forall name :: inv(g.next(s, a, name)))
    requires depth >= 1 && Wins(g, s, a, depth) && Behind(g, inv, visited, depth)
    ensures StrongAt(g, s, a, depth, visited)
    decreases depth
  {
    forall name: BranchName ensures GoodAt(g, g.next(s, a, name), a, depth, visited) {
      var s' := g.next(s, a, name);
      if !g.reached(s') {
        WinsGoesOn(g, s, a, depth, name);
        var least := LeastDepth(g, s', depth - 1);
        var c :| c in g.choices(s') && Wins(g, s', c, least);
        StillBehind(g, inv, visited, depth, a, s', least);
        WinsMakesStrong(g, inv, s', c, least, visited + {g.key(a, s')});
        StrongWithMoreDepth(g, s', c, least, depth - 1, visited + {g.key(a, s')});
        ChoiceMakesGood(g, s', a, depth, visited, c);
      }
    }
  }

  lemma StrongWins<S(!new), A(!new), K(!new)>(g: Game<S, A, K>, s: S, a: A, depth: nat, visited: set<K>)
    requires depth >= 1 && Tree(g, s, a, depth, visited).strong
    ensures exists sigma :: Forces(g, sigma, s, a, depth)
  {
    forall names: seq<BranchName> | |names| == depth ensures PlayWins(g, Best(g), s, a, depth, names) {
      assert Winnable(g, s, a, depth);
      WinnableForces(g, s, a, depth, names);
    }
    assert Forces(g, Best(g), s, a, depth);
  }

  /** If keys decide winning, the pruned tree is strong exactly when some strategy wins every abstract play. */
  lemma PruningLosesNothing<S(!new), A(!new), K(!new)>(g: Game<S, A, K>, inv: S -> bool, s: S, a: A, depth: nat)
    requires KeysDecideWinning(g, inv) && Kept(g, inv) && (forall name :: inv(g.next(s, a, name))) && depth >= 1
    ensures Tree(g, s, a, depth, {}).strong <==> exists sigma :: Forces(g, sigma, s, a, depth)
  {
    WinsIffForces(g, s, a, depth, {});
    TreeIsStrongAt(g, s, a, depth, {});
    if Wins(g, s, a, depth) {
      WinsMakesStrong(g, inv, s, a, depth, {});
    }
    if Tree(g, s, a, depth, {}).strong {
      StrongWins(g, s, a, depth, {});
    }
  }

  // ----- when the key sees everything that matters

  /** Equal views: the same choices, both or neither at the target, and equal views again after every step. */
  ghost predicate SameView<S, A(!new), K, V>(g: Game<S, A, K>, view: S -> V, s: S, t: S)
  {
    && g.choices(s) == g.choices(t) && g.reached(s) == g.reached(t)
    && forall a, name :: view(g.next(s, a, name)) == view(g.next(t, a, name))
  }

  ghost predicate ViewDecides<S(!new), A(!new), K, V>(g: Game<S, A, K>, inv: S -> bool, view: S -> V)
  {
    forall s, t :: inv(s) && inv(t) && view(s) == view(t) ==> SameView(g, view, s, t)
  }

  ghost predicate KeyShowsView<S(!new), A(!new), K, V>(g: Game<S, A, K>, view: S -> V)
  {
    forall a, b, s, t :: g.key(a, s) == g.key(b, t) ==> view(s) == view(t)
  }

  lemma {:induction false} SameViewWins<S(!new), A(!new), K, V>(g: Game<S, A, K>, inv: S -> bool, view: S -> V, s: S, t: S,
                                                               a: A, depth: int, visited: set<K>, other: set<K>)
    requires ViewDecides(g, inv, view) && Kept(g, inv) && SameView(g, view, s, t)
    requires forall name :: inv(g.next(s, a, name)) && inv(g.next(t, a, name))
    requires StrongAt(Free(g), s, a, depth, visited)
    ensures StrongAt(Free(g), t, a, depth, other)
    decreases depth
  {
    var f := Free(g);
    forall name: BranchName ensures GoodAt(f, f.next(t, a, name), a, depth, other) {
      var s', t' := f.next(s, a, name), f.next(t, a, name);
      assert SameView(g, view, s', t');
      StrongOutcome(f, s, a, depth, visited, name);
      if !f.reached(s') {
        var c := StrongChoice(f, s', a, depth, visited);
        SameViewWins(g, inv, view, s', t', c, depth - 1, visited + {g.key(a, s')}, other + {g.key(a, t')});
        ChoiceMakesGood(f, t', a, depth, other, c);
      }
    }
  }

  lemma ViewMakesKeysDecide<S(!new), A(!new), K(!new), V>(g: Game<S, A, K>, inv: S -> bool, view: S -> V)
    requires ViewDecides(g, inv, view) && KeyShowsView(g, view) && Kept(g, inv)
    ensures KeysDecideWinning(g, inv)
  {
    forall a, b, s, t, d | inv(s) && inv(t) && !g.repeatable(b) && g.key(a, s) == g.key(b, t) && CanWin(g, t, d)
      ensures CanWin(g, s, d)
    {
      var c :| c in g.choices(t) && Wins(g, t, c, d);
      assert SameView(g, view, t, s);
      SameViewWins(g, inv, view, t, s, c, d, {}, {});
    }
  }

  /** Within two actions and with nothing visited there is nothing to prune. */
  lemma NothingToPruneWithinTwo<S(!new), A(!new), K(!new)>(g: Game<S, A, K>, s: S, a: A, depth: nat)
    requires 1 <= depth <= 2
    ensures Tree(g, s, a, depth, {}).strong <==> exists sigma :: Forces(g, sigma, s, a, depth)
  {
    WinsIffForces(g, s, a, depth, {});
    TreeIsStrongAt(g, s, a, depth, {});
    if Wins(g, s, a, depth) {
      forall name: BranchName ensures GoodAt(g, g.next(s, a, name), a, depth, {}) {
        var s' := g.next(s, a, name);
        if !g.reached(s') {
          WinsGoesOn(g, s, a, depth, name);
          var c :| c in g.choices(s') && Wins(g, s', c, depth - 1);
          LastActionIsFree(g, s', c, {} + {g.key(a, s')});
          ChoiceMakesGood(g, s', a, depth, {}, c);
        }
      }
    }
    if Tree(g, s, a, depth, {}).strong {
      StrongWins(g, s, a, depth, {});
    }
  }

  lemma LastActionIsFree<S(!new), A(!new), K(!new)>(g: Game<S, A, K>, s: S, a: A, visited: set<K>)
    requires Wins(g, s, a, 1)
    ensures StrongAt(g, s, a, 1, visited)
  {
    forall name: BranchName ensures GoodAt(g, g.next(s, a, name), a, 1, visited) {
      if !g.reached(g.next(s, a, name)) {
        WinsGoesOn(g, s, a, 1, name);
      }
    }
  }
}
