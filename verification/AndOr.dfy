/** AND-OR policy trees over four outcomes, independent of what states and actions are. */
module AndOr {

  datatype BranchName = Success | Partial | Failure | Timeout

  const BRANCHES: seq<BranchName> := [Success, Partial, Failure, Timeout]

  datatype Node<+A> = Node(action: A, outcomes: map<BranchName, Outcome<A>>, strong: bool)

  datatype Outcome<+A> = Reached | HorizonEnd | NonProgressCycle | Continued(children: seq<Node<A>>)

  /**
   * The abstract game: the continuations considered in a state, the pessimistic successor, the target test,
   * and the key under which a repeated action in a seen state counts as no progress.
   */
  datatype Game<!S, !A, !K> = Game(choices: S -> seq<A>, next: (S, A, BranchName) -> S, reached: S -> bool,
                                   key: (A, S) -> K, repeatable: A -> bool)

  lemma AllBranches(name: BranchName)
    ensures name in BRANCHES
  {
    assert BRANCHES[0] == Success && BRANCHES[1] == Partial && BRANCHES[2] == Failure && BRANCHES[3] == Timeout;
  }

  predicate HasStrong<A>(children: seq<Node<A>>)
  {
    exists i :: 0 <= i < |children| && children[i].strong
  }

  predicate Good<A>(o: Outcome<A>)
  {
    o.Reached? || (o.Continued? && HasStrong(o.children))
  }

  /** The node of action a taken in state s. */
  function Tree<S, A, K(==)>(g: Game<S, A, K>, s: S, a: A, depth: int, visited: set<K>): (node: Node<A>)
    decreases depth, 1, 0
  {
    var outcomes := map name: BranchName | true :: OutcomeAt(g, g.next(s, a, name), a, depth, visited);
    Node(a, outcomes, forall name: BranchName :: Good(outcomes[name]))
  }

  /** What happens once a has led to state s. */
  function OutcomeAt<S, A, K(==)>(g: Game<S, A, K>, s: S, a: A, depth: int, visited: set<K>): (o: Outcome<A>)
    decreases depth, 0, 0
  {
    if g.reached(s) then Reached
    else if depth <= 1 then HorizonEnd
    else if g.key(a, s) in visited && !g.repeatable(a) then NonProgressCycle
    else Continued(Children(g, s, g.choices(s), depth - 1, visited + {g.key(a, s)}))
  }

  function Children<S, A, K(==)>(g: Game<S, A, K>, s: S, actions: seq<A>, depth: int, visited: set<K>)
    : (nodes: seq<Node<A>>)
    requires depth >= 1
    ensures |nodes| == |actions|
    ensures forall i :: 0 <= i < |nodes| ==> nodes[i] == Tree(g, s, actions[i], depth, visited)
    decreases depth, 2, |actions|
  {
    if actions == [] then []
    else
      var last := |actions| - 1;
      Children(g, s, actions[..last], depth, visited) + [Tree(g, s, actions[last], depth, visited)]
  }

  lemma OutcomeContinues<S, A, K>(g: Game<S, A, K>, s: S, a: A, depth: int, visited: set<K>)
    requires !g.reached(s) && depth >= 2 && (g.key(a, s) in visited ==> g.repeatable(a))
    ensures OutcomeAt(g, s, a, depth, visited) ==
            Continued(Children(g, s, g.choices(s), depth - 1, visited + {g.key(a, s)}))
  {
  }

  lemma TreeOutcome<S, A, K>(g: Game<S, A, K>, s: S, a: A, depth: int, visited: set<K>, name: BranchName)
    ensures name in Tree(g, s, a, depth, visited).outcomes
    ensures Tree(g, s, a, depth, visited).outcomes[name] == OutcomeAt(g, g.next(s, a, name), a, depth, visited)
    ensures Tree(g, s, a, depth, visited).strong ==> Good(OutcomeAt(g, g.next(s, a, name), a, depth, visited))
  {
    if Tree(g, s, a, depth, visited).strong {
      assert Good(Tree(g, s, a, depth, visited).outcomes[name]);
    }
  }

  /** Four outcomes and their conjunction make the node. */
  lemma TreeFromOutcomes<S, A, K>(g: Game<S, A, K>, s: S, a: A, depth: int, visited: set<K>,
                                  outcomes: map<BranchName, Outcome<A>>, strong: bool)
    requires outcomes.Keys == set name | name in BRANCHES
    requires forall name :: name in outcomes ==> outcomes[name] == OutcomeAt(g, g.next(s, a, name), a, depth, visited)
    requires strong <==> forall name :: name in outcomes ==> Good(outcomes[name])
    ensures Node(a, outcomes, strong) == Tree(g, s, a, depth, visited)
  {
    forall name: BranchName ensures name in outcomes {
      AllBranches(name);
    }
    assert outcomes == Tree(g, s, a, depth, visited).outcomes;
  }

  function FirstStrong<A>(children: seq<Node<A>>): (i: nat)
    requires HasStrong(children)
    ensures i < |children| && children[i].strong
  {
    if children[0].strong then 0 else 1 + FirstStrong(children[1..])
  }

  /** A good outcome short of the target has a strong continuation among the choices. */
  lemma StrongChild<S, A, K>(g: Game<S, A, K>, s: S, a: A, depth: int, visited: set<K>) returns (c: A, later: set<K>)
    requires Good(OutcomeAt(g, s, a, depth, visited)) && !g.reached(s)
    ensures depth >= 2 && c in g.choices(s) && Tree(g, s, c, depth - 1, later).strong
    ensures later == visited + {g.key(a, s)}
  {
    OutcomeContinues(g, s, a, depth, visited);
    later := visited + {g.key(a, s)};
    c := g.choices(s)[FirstStrong(Children(g, s, g.choices(s), depth - 1, later))];
  }

  /** Conversely, a choice that is strong under the extended visited set makes the outcome good. */
  lemma ChildMakesGood<S, A, K>(g: Game<S, A, K>, s: S, a: A, depth: int, visited: set<K>, c: A)
    requires !g.reached(s) && depth >= 2 && (g.key(a, s) in visited ==> g.repeatable(a)) && c in g.choices(s)
    requires Tree(g, s, c, depth - 1, visited + {g.key(a, s)}).strong
    ensures Good(OutcomeAt(g, s, a, depth, visited))
  {
    OutcomeContinues(g, s, a, depth, visited);
    var children := Children(g, s, g.choices(s), depth - 1, visited + {g.key(a, s)});
    var i :| 0 <= i < |g.choices(s)| && g.choices(s)[i] == c;
    assert children[i].strong;
  }

  // ----- certificates: what a strong node is good for

  /** Every outcome is at the target or continues, at a choice of its state, with one level less. */
  ghost predicate Certified<S, A, K>(g: Game<S, A, K>, node: Node<A>, s: S, depth: int)
    decreases depth, 1
  {
    forall name: BranchName ::
      name in node.outcomes && CertifiedOutcome(g, node.outcomes[name], g.next(s, node.action, name), depth)
  }

  ghost predicate CertifiedOutcome<S, A, K>(g: Game<S, A, K>, o: Outcome<A>, s: S, depth: int)
    decreases depth, 0
  {
    || (o.Reached? && g.reached(s))
    || (o.Continued? && HasStrong(o.children) && depth >= 2
        && o.children[FirstStrong(o.children)].action in g.choices(s)
        && Certified(g, o.children[FirstStrong(o.children)], s, depth - 1))
  }

  /** Strong trees are certificates, whatever was visited before. */
  lemma {:induction false} StrongIsCertified<S, A, K>(g: Game<S, A, K>, s: S, a: A, depth: int, visited: set<K>)
    requires Tree(g, s, a, depth, visited).strong
    ensures Certified(g, Tree(g, s, a, depth, visited), s, depth)
    decreases depth, 1
  {
    forall name: BranchName
      ensures name in Tree(g, s, a, depth, visited).outcomes
      ensures CertifiedOutcome(g, Tree(g, s, a, depth, visited).outcomes[name], g.next(s, a, name), depth)
    {
      TreeOutcome(g, s, a, depth, visited, name);
      GoodIsCertified(g, g.next(s, a, name), a, depth, visited);
    }
  }

  lemma {:induction false} GoodIsCertified<S, A, K>(g: Game<S, A, K>, s: S, a: A, depth: int, visited: set<K>)
    requires Good(OutcomeAt(g, s, a, depth, visited))
    ensures CertifiedOutcome(g, OutcomeAt(g, s, a, depth, visited), s, depth)
    decreases depth, 0
  {
    if !g.reached(s) {
      OutcomeContinues(g, s, a, depth, visited);
      var later := visited + {g.key(a, s)};
      var children := Children(g, s, g.choices(s), depth - 1, later);
      var i := FirstStrong(children);
      StrongIsCertified(g, s, g.choices(s)[i], depth - 1, later);
    }
  }
}
