/** Runs put together step by step: what can be continued from every world reached can be played to the end. */
module Playthrough {

  /** A world that stands at k is followed by one that stands at k + 1. */
  ghost predicate Continues<W(!new)>(at: (W, nat) -> bool, plays: (W, W, nat) -> bool, w: W, k: nat)
  {
    at(w, k) ==> exists w' :: plays(w, w', k) && at(w', k + 1)
  }

  lemma NextWorld<W(!new)>(at: (W, nat) -> bool, plays: (W, W, nat) -> bool, w: W, k: nat) returns (w': W)
    requires at(w, k) && Continues(at, plays, w, k)
    ensures plays(w, w', k) && at(w', k + 1)
  {
    w' :| plays(w, w', k) && at(w', k + 1);
  }

  lemma {:induction false} PlayAll<W(!new)>(at: (W, nat) -> bool, plays: (W, W, nat) -> bool, w: W, n: nat)
    returns (worlds: seq<W>)
    requires at(w, 0) && forall v, k: nat :: k < n ==> Continues(at, plays, v, k)
    ensures |worlds| == n + 1 && worlds[0] == w
    ensures forall k :: 0 <= k <= n ==> at(worlds[k], k)
    ensures forall k :: 0 <= k < n ==> plays(worlds[k], worlds[k + 1], k)
  {
    if n == 0 {
      worlds := [w];
    } else {
      var before := PlayAll(at, plays, w, n - 1);
      assert Continues(at, plays, before[n - 1], n - 1);
      var w' := NextWorld(at, plays, before[n - 1], n - 1);
      worlds := before + [w'];
    }
  }
}
