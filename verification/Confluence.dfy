/**
 * When the order of a work list does not matter although readiness can be lost again: exactly when no
 * ready rule takes readiness from another ready rule.
 */
module Confluence {
  import opened Ids
  import opened QueueClosure

  /** In an allowed state, applying f takes readiness from e. */
  ghost predicate Spoils(ready: (Id, set<Id>) -> bool, outputs: Id -> set<Id>, a: set<Id>, e: Id, f: Id)
  {
    e != f && ready(e, a) && ready(f, a) && !ready(e, a + outputs(f))
  }

  ghost predicate HasConflict(ids: set<Id>, ready: (Id, set<Id>) -> bool, outputs: Id -> set<Id>, allowed: set<Id> -> bool)
  {
    exists a, e, f :: allowed(a) && e in ids && f in ids && Spoils(ready, outputs, a, e, f)
  }

  /** Applying ready rules stays in allowed states. */
  ghost predicate Stays(ids: set<Id>, ready: (Id, set<Id>) -> bool, outputs: Id -> set<Id>, allowed: set<Id> -> bool)
  {
    forall a, f :: allowed(a) && f in ids && ready(f, a) ==> allowed(a + outputs(f))
  }

  /** Readiness once lost is lost for good. */
  ghost predicate LostForGood(ready: (Id, set<Id>) -> bool)
  {
    forall e, a, b, c :: a <= b <= c && ready(e, a) && !ready(e, b) ==> !ready(e, c)
  }

  ghost predicate StuckRun(ids: set<Id>, ready: (Id, set<Id>) -> bool, outputs: Id -> set<Id>, a: set<Id>, order: seq<Id>)
  {
    IsRun(ids, ready, outputs, a, order) && Stuck(ids, ready, Members(order), After(outputs, a, order))
  }

  /** If both are stuck runs, they apply the same rules and end with the same places. */
  ghost predicate Agree(ids: set<Id>, ready: (Id, set<Id>) -> bool, outputs: Id -> set<Id>, a: set<Id>, o: seq<Id>, p: seq<Id>)
  {
    StuckRun(ids, ready, outputs, a, o) && StuckRun(ids, ready, outputs, a, p)
    ==> Members(o) == Members(p) && After(outputs, a, o) == After(outputs, a, p)
  }

  /** From every allowed start all stuck runs apply the same rules and end with the same places. */
  ghost predicate OrderIsIrrelevant(ids: set<Id>, ready: (Id, set<Id>) -> bool, outputs: Id -> set<Id>, allowed: set<Id> -> bool)
  {
    forall a, o, p :: allowed(a) ==> Agree(ids, ready, outputs, a, o, p)
  }

  // ----- runs from the front

  lemma {:induction false} AfterFront(outputs: Id -> set<Id>, a: set<Id>, f: Id, rest: seq<Id>)
    ensures After(outputs, a, [f] + rest) == After(outputs, a + outputs(f), rest)
  {
    if rest == [] {
      assert [f] + rest == [f] && [f][..0] == [];
      assert After(outputs, a, [f]) == After(outputs, a, []) + outputs(f);
    } else {
      var n := |rest| - 1;
      assert ([f] + rest)[..n + 1] == [f] + rest[..n];
      AfterFront(outputs, a, f, rest[..n]);
    }
  }

  lemma {:induction false} AfterJoined(outputs: Id -> set<Id>, a: set<Id>, p: seq<Id>, q: seq<Id>)
    ensures After(outputs, a, p + q) == After(outputs, After(outputs, a, p), q)
  {
    if q == [] {
      assert p + q == p;
    } else {
      var n := |q| - 1;
      assert (p + q)[..|p| + n] == p + q[..n];
      AfterJoined(outputs, a, p, q[..n]);
    }
  }

  lemma RunFront(ids: set<Id>, ready: (Id, set<Id>) -> bool, outputs: Id -> set<Id>, a: set<Id>, f: Id, rest: seq<Id>)
    requires IsRun(ids, ready, outputs, a, [f] + rest)
    ensures f in ids && ready(f, a) && IsRun(ids, ready, outputs, a + outputs(f), rest)
  {
    var all := [f] + rest;
    assert all[0] == f && all[..0] == [];
    forall i | 0 <= i < |rest| ensures rest[i] in ids && ready(rest[i], After(outputs, a + outputs(f), rest[..i])) {
      assert all[i + 1] == rest[i] && all[..i + 1] == [f] + rest[..i];
      AfterFront(outputs, a, f, rest[..i]);
    }
  }

  lemma RunJoined(ids: set<Id>, ready: (Id, set<Id>) -> bool, outputs: Id -> set<Id>, a: set<Id>, p: seq<Id>, q: seq<Id>)
    ensures IsRun(ids, ready, outputs, a, p + q)
       <==> IsRun(ids, ready, outputs, a, p) && IsRun(ids, ready, outputs, After(outputs, a, p), q)
  {
    var all := p + q;
    forall i | 0 <= i < |p| ensures all[i] == p[i] && all[..i] == p[..i] {
    }
    forall i | 0 <= i < |q|
      ensures all[|p| + i] == q[i] && After(outputs, a, all[..|p| + i]) == After(outputs, After(outputs, a, p), q[..i])
    {
      assert all[..|p| + i] == p + q[..i];
      AfterJoined(outputs, a, p, q[..i]);
    }
    if IsRun(ids, ready, outputs, a, p) && IsRun(ids, ready, outputs, After(outputs, a, p), q) {
      forall i | 0 <= i < |all| ensures all[i] in ids && ready(all[i], After(outputs, a, all[..i])) {
        if i >= |p| {
          assert all[|p| + (i - |p|)] == q[i - |p|];
        }
      }
    }
    if IsRun(ids, ready, outputs, a, all) {
      forall i | 0 <= i < |q| ensures q[i] in ids && ready(q[i], After(outputs, After(outputs, a, p), q[..i])) {
        assert all[|p| + i] in ids && ready(all[|p| + i], After(outputs, a, all[..|p| + i]));
      }
    }
  }

  // ----- without conflict

  /** A ready rule that a run does not apply stays ready, and the run goes the same way after it. */
  lemma {:induction false} Postpone(ids: set<Id>, ready: (Id, set<Id>) -> bool, outputs: Id -> set<Id>, allowed: set<Id> -> bool,
                                    a: set<Id>, f: Id, o: seq<Id>)
    requires !HasConflict(ids, ready, outputs, allowed) && Stays(ids, ready, outputs, allowed)
    requires allowed(a) && f in ids && ready(f, a) && IsRun(ids, ready, outputs, a, o) && f !in o
    ensures allowed(After(outputs, a, o)) && ready(f, After(outputs, a, o))
    ensures IsRun(ids, ready, outputs, a + outputs(f), o)
    ensures After(outputs, a + outputs(f), o) == After(outputs, a, o) + outputs(f)
  {
    if o != [] {
      var init, g := o[..|o| - 1], o[|o| - 1];
      assert o == init + [g];
      RunJoined(ids, ready, outputs, a, init, [g]);
      Postpone(ids, ready, outputs, allowed, a, f, init);
      var b := After(outputs, a, init);
      RunFront(ids, ready, outputs, b, g, []);
      assert !Spoils(ready, outputs, b, f, g) && !Spoils(ready, outputs, b, g, f);
      assert IsRun(ids, ready, outputs, a + outputs(f), init + [g]) by {
        RunExtends(ids, ready, outputs, a + outputs(f), init, g);
      }
    }
  }

  lemma FirstOccurrence(o: seq<Id>, f: Id) returns (before: seq<Id>, after: seq<Id>)
    requires f in o
    ensures o == before + [f] + after && f !in before
    decreases |o|
  {
    if o[0] == f {
      before, after := [], o[1..];
      assert o == [f] + o[1..];
    } else {
      assert o == [o[0]] + o[1..];
      before, after := FirstOccurrence(o[1..], f);
      before := [o[0]] + before;
    }
  }

  /** Moving the first application of a ready rule to the front. */
  lemma MoveToFront(ids: set<Id>, ready: (Id, set<Id>) -> bool, outputs: Id -> set<Id>, allowed: set<Id> -> bool,
                    a: set<Id>, f: Id, before: seq<Id>, after: seq<Id>)
    requires !HasConflict(ids, ready, outputs, allowed) && Stays(ids, ready, outputs, allowed)
    requires allowed(a) && f in ids && ready(f, a) && f !in before
    requires IsRun(ids, ready, outputs, a, before + [f] + after)
    ensures IsRun(ids, ready, outputs, a + outputs(f), before + after)
    ensures After(outputs, a + outputs(f), before + after) == After(outputs, a, before + [f] + after)
  {
    RunJoined(ids, ready, outputs, a, before + [f], after);
    RunJoined(ids, ready, outputs, a, before, [f]);
    Postpone(ids, ready, outputs, allowed, a, f, before);
    AfterJoined(outputs, a, before + [f], after);
    AfterJoined(outputs, a, before, [f]);
    AfterFront(outputs, After(outputs, a, before), f, []);
    assert [f] + [] == [f];
    AfterJoined(outputs, a + outputs(f), before, after);
    RunJoined(ids, ready, outputs, a + outputs(f), before, after);
  }

  /** Whatever a run applies, a stuck run from the same state has applied or counts as done. */
  lemma {:induction false} StuckRunsContain(ids: set<Id>, ready: (Id, set<Id>) -> bool, outputs: Id -> set<Id>,
                                            allowed: set<Id> -> bool, a: set<Id>, done: set<Id>, p: seq<Id>, o: seq<Id>)
    requires !HasConflict(ids, ready, outputs, allowed) && Stays(ids, ready, outputs, allowed) && allowed(a)
    requires forall d :: d in done ==> outputs(d) <= a
    requires IsRun(ids, ready, outputs, a, p) && IsRun(ids, ready, outputs, a, o)
    requires Stuck(ids, ready, done + Members(o), After(outputs, a, o))
    ensures Members(p) <= done + Members(o)
    decreases |p|
  {
    if p != [] {
      var f, rest := p[0], p[1..];
      assert p == [f] + rest;
      RunFront(ids, ready, outputs, a, f, rest);
      assert f in done + Members(o) by {
        if f !in o {
          Postpone(ids, ready, outputs, allowed, a, f, o);
        }
      }
      if f in done {
        assert a + outputs(f) == a;
        StuckRunsContain(ids, ready, outputs, allowed, a, done, rest, o);
      } else {
        var before, after := FirstOccurrence(o, f);
        MoveToFront(ids, ready, outputs, allowed, a, f, before, after);
        assert done + {f} + Members(before + after) == done + Members(o);
        StuckRunsContain(ids, ready, outputs, allowed, a + outputs(f), done + {f}, rest, before + after);
      }
    }
  }

  lemma StuckRunContains(ids: set<Id>, ready: (Id, set<Id>) -> bool, outputs: Id -> set<Id>, allowed: set<Id> -> bool,
                         a: set<Id>, p: seq<Id>, o: seq<Id>)
    requires !HasConflict(ids, ready, outputs, allowed) && Stays(ids, ready, outputs, allowed) && allowed(a)
    requires IsRun(ids, ready, outputs, a, p) && StuckRun(ids, ready, outputs, a, o)
    ensures Members(p) <= Members(o) && After(outputs, a, p) <= After(outputs, a, o)
  {
    assert {} + Members(o) == Members(o);
    StuckRunsContain(ids, ready, outputs, allowed, a, {}, p, o);
    FewerRulesReachLess(outputs, a, p, o);
  }

  lemma StuckIsRun(ids: set<Id>, ready: (Id, set<Id>) -> bool, outputs: Id -> set<Id>, a: set<Id>, o: seq<Id>)
    requires StuckRun(ids, ready, outputs, a, o)
    ensures IsRun(ids, ready, outputs, a, o)
  {
  }

  lemma StuckRunsAgree(ids: set<Id>, ready: (Id, set<Id>) -> bool, outputs: Id -> set<Id>, allowed: set<Id> -> bool,
                       a: set<Id>, p: seq<Id>, o: seq<Id>)
    requires !HasConflict(ids, ready, outputs, allowed) && Stays(ids, ready, outputs, allowed)
    requires allowed(a)
    ensures Agree(ids, ready, outputs, a, p, o)
  {
    if StuckRun(ids, ready, outputs, a, p) && StuckRun(ids, ready, outputs, a, o) {
      StuckIsRun(ids, ready, outputs, a, p);
      StuckIsRun(ids, ready, outputs, a, o);
      StuckRunContains(ids, ready, outputs, allowed, a, p, o);
      StuckRunContains(ids, ready, outputs, allowed, a, o, p);
    }
  }

  lemma NoConflictSuffices(ids: set<Id>, ready: (Id, set<Id>) -> bool, outputs: Id -> set<Id>, allowed: set<Id> -> bool)
    requires !HasConflict(ids, ready, outputs, allowed) && Stays(ids, ready, outputs, allowed)
    ensures OrderIsIrrelevant(ids, ready, outputs, allowed)
  {
    forall a, o, p | allowed(a) ensures Agree(ids, ready, outputs, a, o, p) {
      StuckRunsAgree(ids, ready, outputs, allowed, a, o, p);
    }
  }

  // ----- with a conflict

  lemma FewerLeft(ids: set<Id>, p: seq<Id>, id: Id)
    requires id in ids && id !in Members(p)
    ensures |ids - Members(p + [id])| < |ids - Members(p)|
  {
    assert ids - Members(p + [id]) == (ids - Members(p)) - {id};
  }

  lemma PrefixOf(p: seq<Id>, id: Id, o: seq<Id>)
    requires p + [id] <= o
    ensures p <= o
  {
  }

  /** Every run can be continued until it is stuck. */
  lemma {:induction false} RunUntilStuck(ids: set<Id>, ready: (Id, set<Id>) -> bool, outputs: Id -> set<Id>, a: set<Id>, p: seq<Id>)
    returns (o: seq<Id>)
    requires IsRun(ids, ready, outputs, a, p)
    ensures StuckRun(ids, ready, outputs, a, o) && p <= o
    decreases |ids - Members(p)|
  {
    if Stuck(ids, ready, Members(p), After(outputs, a, p)) {
      o := p;
    } else {
      var id :| id in ids && id !in Members(p) && ready(id, After(outputs, a, p));
      RunExtends(ids, ready, outputs, a, p, id);
      FewerLeft(ids, p, id);
      o := RunUntilStuck(ids, ready, outputs, a, p + [id]);
      PrefixOf(p, id, o);
    }
  }

  lemma OneStepRun(ids: set<Id>, ready: (Id, set<Id>) -> bool, outputs: Id -> set<Id>, a: set<Id>, f: Id)
    requires f in ids && ready(f, a)
    ensures IsRun(ids, ready, outputs, a, [f]) && After(outputs, a, [f]) == a + outputs(f)
  {
    assert [f][..0] == [];
    assert After(outputs, a, []) == a;
  }

  /** A run that begins with the spoiling rule never applies the spoilt one. */
  lemma SpoiltIsNotApplied(ids: set<Id>, ready: (Id, set<Id>) -> bool, outputs: Id -> set<Id>, a: set<Id>, e: Id, f: Id, o: seq<Id>)
    requires LostForGood(ready) && Spoils(ready, outputs, a, e, f)
    requires IsRun(ids, ready, outputs, a, o) && [f] <= o
    ensures e !in o
  {
    forall i | 0 <= i < |o| ensures o[i] != e {
      if i > 0 {
        AfterContains(outputs, a, o[..i], 1);
        assert o[..i][..1] == [f];
        AfterFront(outputs, a, f, []);
        assert [f] + [] == [f];
        assert After(outputs, a, [f]) == a + outputs(f);
        assert !ready(e, After(outputs, a, o[..i]));
      }
    }
  }

  lemma ConflictMisleads(ids: set<Id>, ready: (Id, set<Id>) -> bool, outputs: Id -> set<Id>, allowed: set<Id> -> bool)
    requires HasConflict(ids, ready, outputs, allowed) && LostForGood(ready)
    ensures !OrderIsIrrelevant(ids, ready, outputs, allowed)
  {
    var a, e, f :| allowed(a) && e in ids && f in ids && Spoils(ready, outputs, a, e, f);
    OneStepRun(ids, ready, outputs, a, e);
    OneStepRun(ids, ready, outputs, a, f);
    var o := RunUntilStuck(ids, ready, outputs, a, [e]);
    var p := RunUntilStuck(ids, ready, outputs, a, [f]);
    SpoiltIsNotApplied(ids, ready, outputs, a, e, f, p);
    assert o[0] == e && e in Members(o) && e !in Members(p);
    assert !Agree(ids, ready, outputs, a, o, p);
  }

  /** The order of the work list is irrelevant if and only if no ready rule spoils another. */
  lemma OrderIsIrrelevantIff(ids: set<Id>, ready: (Id, set<Id>) -> bool, outputs: Id -> set<Id>, allowed: set<Id> -> bool)
    requires Stays(ids, ready, outputs, allowed) && LostForGood(ready)
    ensures OrderIsIrrelevant(ids, ready, outputs, allowed) <==> !HasConflict(ids, ready, outputs, allowed)
  {
    if HasConflict(ids, ready, outputs, allowed) {
      ConflictMisleads(ids, ready, outputs, allowed);
    } else {
      NoConflictSuffices(ids, ready, outputs, allowed);
    }
  }
}
