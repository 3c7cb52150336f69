/** Runs in a concrete world, and why the policy read off a strong tree of a pessimistic game wins all of them. */
module ConcreteRuns {
  import opened Ids
  import opened AndOr

  datatype Move<C> = Move(name: BranchName, after: C)

  /** A strategy sees the branches and states so far; None means it stops. */
  type Strategy<!C, !A> = seq<Move<C>> -> Option<A>

  /**
   * The concrete world: which moves may answer an action, when an action is allowed, what must hold after it,
   * and which states are at the target.
   */
  datatype Arena<!C, !A> = Arena(answers: (C, A, Move<C>) -> bool, enabled: (A, C) -> bool, safe: (A, C) -> bool,
                                 won: C -> bool)

  ghost function StateAt<C>(c: C, moves: seq<Move<C>>): C
  {
    if moves == [] then c else moves[|moves| - 1].after
  }

  /** A run of the strategy from c, complete or not. */
  ghost predicate RunOf<C, A>(w: Arena<C, A>, sigma: Strategy<C, A>, c: C, moves: seq<Move<C>>)
  {
    forall i :: 0 <= i < |moves| ==>
      sigma(moves[..i]).Some? && w.answers(StateAt(c, moves[..i]), sigma(moves[..i]).value, moves[i])
  }

  /** The action was allowed when taken, and what it protects still holds afterwards. */
  ghost predicate SoundMove<C, A>(w: Arena<C, A>, before: C, a: A, after: C)
  {
    w.enabled(a, before) && w.safe(a, after)
  }

  /**
   * In every run every move is sound, no run exceeds the depth, a run that stops has reached all targets,
   * and a run that has not stopped has an allowed next action and room for it.
   */
  ghost predicate Wins<C(!new), A>(w: Arena<C, A>, sigma: Strategy<C, A>, c: C, depth: nat)
  {
    forall moves :: RunOf(w, sigma, c, moves) ==> WinsRun(w, sigma, c, depth, moves)
  }

  ghost predicate WinsRun<C, A>(w: Arena<C, A>, sigma: Strategy<C, A>, c: C, depth: nat, moves: seq<Move<C>>)
  {
    && |moves| <= depth
    && (forall i :: 0 <= i < |moves| && sigma(moves[..i]).Some? ==>
          SoundMove(w, StateAt(c, moves[..i]), sigma(moves[..i]).value, moves[i].after))
    && (sigma(moves).None? ==> w.won(StateAt(c, moves)))
    && (sigma(moves).Some? ==> |moves| < depth && w.enabled(sigma(moves).value, StateAt(c, moves)))
  }

  // ----- the policy of a tree

  /** Take the node's action, then follow the first strong continuation. */
  function Follow<C, A>(node: Node<A>, history: seq<Move<C>>): Option<A>
    decreases |history|
  {
    if history == [] then Some(node.action)
    else if history[0].name !in node.outcomes then None
    else
      match node.outcomes[history[0].name]
      case Continued(children) =>
        if HasStrong(children) then Follow(children[FirstStrong(children)], history[1..]) else None
      case _ => None
  }

  function Policy<C, A>(node: Node<A>): Strategy<C, A>
  {
    history => Follow(node, history)
  }

  // ----- a game that is a pessimistic account of the world

  /** An allowed action is enabled in the world; what answers it is safe and accounted for by the game's successor. */
  ghost predicate CoversAction<S, C(!new), A, K>(g: Game<S, A, K>, w: Arena<C, A>, under: (S, C) -> bool, s: S, c: C, a: A)
  {
    && w.enabled(a, c)
    && forall move :: w.answers(c, a, move) ==> w.safe(a, move.after) && under(g.next(s, a, move.name), move.after)
  }

  ghost predicate Covers<S(!new), C(!new), A(!new), K>(g: Game<S, A, K>, w: Arena<C, A>, under: (S, C) -> bool,
                                                       allowed: (A, S) -> bool)
  {
    && (forall s, c, a :: under(s, c) && allowed(a, s) ==> CoversAction(g, w, under, s, c, a))
    && (forall s, c :: under(s, c) && g.reached(s) ==> w.won(c))
    && forall s, a :: a in g.choices(s) ==> allowed(a, s)
  }

  /** The next node is where the policy goes after the first move. */
  ghost predicate Leads<A>(node: Node<A>, name: BranchName, next: Node<A>)
  {
    && name in node.outcomes && node.outcomes[name].Continued? && HasStrong(node.outcomes[name].children)
    && next == node.outcomes[name].children[FirstStrong(node.outcomes[name].children)]
  }

  /** A certificate whose first action is allowed wins every run that follows it. */
  lemma {:induction false} CertifiedRunWins<S(!new), C(!new), A(!new), K>(
      g: Game<S, A, K>, w: Arena<C, A>, under: (S, C) -> bool, allowed: (A, S) -> bool, node: Node<A>, s: S, c: C,
      depth: nat, moves: seq<Move<C>>)
    requires Covers(g, w, under, allowed) && depth >= 1 && Certified(g, node, s, depth) && under(s, c)
    requires allowed(node.action, s) && RunOf(w, Policy(node), c, moves)
    ensures WinsRun(w, Policy(node), c, depth, moves)
    decreases |moves|
  {
    assert CoversAction(g, w, under, s, c, node.action);
    if moves == [] {
      WinsAtOnce(w, node, c, depth);
    } else {
      var name := moves[0].name;
      FirstAnswer(w, node, c, moves);
      var s' := g.next(s, node.action, name);
      assert name in node.outcomes && CertifiedOutcome(g, node.outcomes[name], s', depth);
      if node.outcomes[name].Reached? {
        WinsAtTarget(w, node, c, depth, moves);
      } else {
        var next := node.outcomes[name].children[FirstStrong(node.outcomes[name].children)];
        RunShifts(w, node, next, c, moves);
        CertifiedRunWins(g, w, under, allowed, next, s', moves[0].after, depth - 1, moves[1..]);
        WinShifts(w, node, next, c, depth, moves);
      }
    }
  }

  lemma WinsAtOnce<C, A>(w: Arena<C, A>, node: Node<A>, c: C, depth: nat)
    requires w.enabled(node.action, c) && depth >= 1
    ensures WinsRun(w, Policy(node), c, depth, [])
  {
  }

  lemma FirstAnswer<C, A>(w: Arena<C, A>, node: Node<A>, c: C, moves: seq<Move<C>>)
    requires moves != [] && RunOf(w, Policy(node), c, moves)
    ensures w.answers(c, node.action, moves[0])
  {
    assert moves[..0] == [] && Policy(node)(moves[..0]) == Some(node.action);
    assert StateAt(c, moves[..0]) == c;
  }

  lemma FollowStops<C, A>(node: Node<A>, history: seq<Move<C>>)
    requires history != [] && history[0].name in node.outcomes && node.outcomes[history[0].name] == Reached
    ensures Policy(node)(history) == None
  {
  }

  /** After the abstract target is reached the policy stops: the run has length one and is won. */
  lemma WinsAtTarget<C, A>(w: Arena<C, A>, node: Node<A>, c: C, depth: nat, moves: seq<Move<C>>)
    requires moves != [] && RunOf(w, Policy(node), c, moves) && depth >= 1
    requires moves[0].name in node.outcomes && node.outcomes[moves[0].name] == Reached
    requires SoundMove(w, c, node.action, moves[0].after) && w.won(moves[0].after)
    ensures WinsRun(w, Policy(node), c, depth, moves)
  {
    var sigma: Strategy<C, A> := Policy(node);
    var last := |moves| - 1;
    assert sigma(moves[..last]).Some?;
    FollowStops(node, moves);
    if last > 0 {
      assert moves[..last][0] == moves[0];
      FollowStops(node, moves[..last]);
    }
  }

  lemma FollowShifts<C, A>(node: Node<A>, next: Node<A>, history: seq<Move<C>>)
    requires history != [] && Leads(node, history[0].name, next)
    ensures Policy(node)(history) == Policy(next)(history[1..])
  {
  }

  lemma StateShifts<C>(c: C, moves: seq<Move<C>>, i: nat)
    requires 0 < i <= |moves|
    ensures StateAt(c, moves[..i]) == StateAt(moves[0].after, moves[1..][..i - 1])
  {
    if i > 1 {
      assert moves[..i][i - 1] == moves[1..][..i - 1][i - 2];
    }
  }

  lemma RunShifts<C, A>(w: Arena<C, A>, node: Node<A>, next: Node<A>, c: C, moves: seq<Move<C>>)
    requires moves != [] && Leads(node, moves[0].name, next) && RunOf(w, Policy(node), c, moves)
    ensures RunOf(w, Policy(next), moves[0].after, moves[1..])
  {
    var rest := moves[1..];
    var sigma: Strategy<C, A> := Policy(next);
    forall i | 0 <= i < |rest|
      ensures sigma(rest[..i]).Some?
      ensures w.answers(StateAt(moves[0].after, rest[..i]), sigma(rest[..i]).value, rest[i])
    {
      assert moves[..i + 1][1..] == rest[..i];
      FollowShifts(node, next, moves[..i + 1]);
      StateShifts(c, moves, i + 1);
    }
  }

  lemma WinShifts<C, A>(w: Arena<C, A>, node: Node<A>, next: Node<A>, c: C, depth: nat, moves: seq<Move<C>>)
    requires moves != [] && depth >= 1 && Leads(node, moves[0].name, next)
    requires SoundMove(w, c, node.action, moves[0].after)
    requires WinsRun(w, Policy(next), moves[0].after, depth - 1, moves[1..])
    ensures WinsRun(w, Policy(node), c, depth, moves)
  {
    var rest := moves[1..];
    var sigma: Strategy<C, A> := Policy(node);
    forall i | 0 <= i < |moves| && sigma(moves[..i]).Some?
      ensures SoundMove(w, StateAt(c, moves[..i]), sigma(moves[..i]).value, moves[i].after)
    {
      if i > 0 {
        assert moves[..i][1..] == rest[..i - 1];
        FollowShifts(node, next, moves[..i]);
        StateShifts(c, moves, i);
      }
    }
    FollowShifts(node, next, moves);
    assert moves[..|moves|] == moves && rest[..|rest|] == rest;
    StateShifts(c, moves, |moves|);
  }

  /** The policy of a strong tree wins every run of the world the game accounts for. */
  lemma StrongTreeWins<S(!new), C(!new), A(!new), K>(
      g: Game<S, A, K>, w: Arena<C, A>, under: (S, C) -> bool, allowed: (A, S) -> bool, a: A, s: S, c: C, depth: nat,
      visited: set<K>)
    requires Covers(g, w, under, allowed) && depth >= 1 && allowed(a, s) && under(s, c)
    requires Tree(g, s, a, depth, visited).strong
    ensures Wins(w, Policy(Tree(g, s, a, depth, visited)), c, depth)
  {
    var node := Tree(g, s, a, depth, visited);
    var sigma: Strategy<C, A> := Policy(node);
    StrongIsCertified(g, s, a, depth, visited);
    forall moves | RunOf(w, sigma, c, moves) ensures WinsRun(w, sigma, c, depth, moves) {
      CertifiedRunWins(g, w, under, allowed, node, s, c, depth, moves);
    }
  }
}
