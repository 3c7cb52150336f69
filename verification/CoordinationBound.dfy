/** Every session sees at most 2n + 7 committed transitions, and what the coordination audit really checks. */
module CoordinationBound {
  import opened Ids
  import opened Ledger
  import opened GenerationStore
  import opened Coordination
  import opened CoordinationSafety

  /** The reasons the command line offers. */
  const REASONS: set<string> := {"all_verified", "explicit_failure", "capacity_blocked"}

  ghost predicate Offered(c: Command)
  {
    c.End? ==> c.reason in REASONS
  }

  ghost predicate Moves(hash: Hash, cas: Cas, c: Command, s: Session, s': Session)
  {
    !c.Create? && !c.Elsewhere? && OutcomeOf(hash, cas, s, c) == Advanced(s')
  }

  // ----- progress of one session

  function StageRank(stage: Stage): nat
  {
    match stage
    case Created => 0
    case CommitOpen => 0
    case CommitClosed => 1
    case RevealOpen => 2
    case Verify => 3
    case Integrate => 4
    case Terminated => 5
  }

  function Rank(s: Session): nat
  {
    |s.commitments| + |s.openings| + StageRank(s.stage)
  }

  /** One transition: same members, one rank further or terminated; after termination only the reason may change. */
  ghost predicate Progress(s: Session, s': Session)
  {
    && Members(s') == Members(s)
    && (s.stage.Terminated? ==> s'.stage.Terminated? && s' == s.(reason := s'.reason))
    && (s'.stage.Terminated? ==> s'.reason.Some?)
    && (!s'.stage.Terminated? ==> Rank(s') == Rank(s) + 1)
  }

  lemma CommitProgress(s: Session, sid: Id, st: Statement, d: Digest, s': Session)
    requires CommitTo(s, sid, st, d) == Advanced(s')
    ensures Progress(s, s')
  {
    assert s'.commitments.Keys == s.commitments.Keys + {st.principal};
  }

  lemma OpenProgress(hash: Hash, cas: Cas, s: Session, sid: Id, st: Statement, d: Digest, s': Session)
    requires RevealTo(hash, cas, s, sid, st, d) == Advanced(s')
    ensures Progress(s, s')
  {
    assert s'.openings.Keys == s.openings.Keys + {st.principal};
  }

  lemma RouteProgress(s: Session, capacityNow: bool, s': Session)
    requires RouteOf(s, capacityNow) == Advanced(s')
    ensures Progress(s, s')
  {
  }

  lemma EndProgress(s: Session, reason: string, s': Session)
    requires TerminateOf(s, reason) == Advanced(s')
    ensures Progress(s, s')
  {
  }

  lemma MoveProgress(hash: Hash, cas: Cas, c: Command, s: Session, s': Session)
    requires Moves(hash, cas, c, s, s')
    ensures Progress(s, s')
  {
    match c
    case Commit(sid, st) => CommitProgress(s, sid, st, hash(StatementDocument(st)), s');
    case Open(sid, st) => OpenProgress(hash, cas, s, sid, st, hash(StatementDocument(st)), s');
    case RouteOn(_, capacityNow) => RouteProgress(s, capacityNow, s');
    case End(_, reason) => EndProgress(s, reason, s');
  }

  lemma RankIsBounded(s: Session)
    requires Shape(s) && !s.stage.Terminated?
    ensures Rank(s) <= 2 * |Members(s)| + 4
  {
    SubsetCardinality(s.commitments.Keys, Members(s));
    SubsetCardinality(s.openings.Keys, Members(s));
    assert |s.commitments| == |s.commitments.Keys| && |s.openings| == |s.openings.Keys|;
  }

  /** Successive values of one session, none of them twice. */
  ghost predicate IsTrail(trail: seq<Session>)
  {
    && NoDuplicates(trail)
    && (forall i :: 0 <= i < |trail| ==> Shape(trail[i]))
    && (forall i :: 0 <= i < |trail| - 1 ==> Progress(trail[i], trail[i + 1]))
  }

  /** Every termination on the trail gives one of the offered reasons. */
  ghost predicate FromReasons(trail: seq<Session>)
  {
    forall i :: 0 < i < |trail| && trail[i].stage.Terminated? ==> trail[i].reason.Some? && trail[i].reason.value in REASONS
  }

  lemma {:induction false} TrailKeepsMembers(trail: seq<Session>, i: nat)
    requires IsTrail(trail) && i < |trail|
    ensures Members(trail[i]) == Members(trail[0])
  {
    if i > 0 {
      TrailKeepsMembers(trail, i - 1);
      assert Progress(trail[i - 1], trail[i - 1 + 1]);
    }
  }

  /** Until termination the rank counts the steps. */
  lemma {:induction false} TrailCounts(trail: seq<Session>, i: nat)
    requires IsTrail(trail) && i < |trail| && !trail[i].stage.Terminated?
    ensures Rank(trail[i]) >= i
    ensures forall j :: 0 <= j <= i ==> !trail[j].stage.Terminated?
  {
    if i > 0 {
      assert Progress(trail[i - 1], trail[i - 1 + 1]);
      TrailCounts(trail, i - 1);
    }
  }

  /** After termination only the reason changes. */
  lemma {:induction false} TrailTail(trail: seq<Session>, k: nat, i: nat)
    requires IsTrail(trail) && k <= i < |trail| && trail[k].stage.Terminated?
    ensures trail[i] == trail[k].(reason := trail[i].reason)
    decreases i
  {
    if k < i {
      TrailTail(trail, k, i - 1);
      assert Progress(trail[i - 1], trail[i - 1 + 1]);
    }
  }

  /** Where a trail that begins unterminated first terminates, or its length. */
  lemma {:induction false} FirstTerminated(trail: seq<Session>) returns (k: nat)
    ensures k <= |trail|
    ensures forall j :: 0 <= j < k ==> !trail[j].stage.Terminated?
    ensures k < |trail| ==> trail[k].stage.Terminated?
  {
    k := 0;
    while k < |trail| && !trail[k].stage.Terminated?
      invariant k <= |trail|
      invariant forall j :: 0 <= j < k ==> !trail[j].stage.Terminated?
    {
      k := k + 1;
    }
  }

  lemma TailReason(trail: seq<Session>, k: nat, i: nat)
    requires IsTrail(trail) && FromReasons(trail) && 0 < k <= i < |trail| && trail[k].stage.Terminated?
    ensures trail[i].reason.Some? && trail[i].reason.value in REASONS
  {
    TrailTail(trail, k, i);
  }

  lemma TailReasonsDiffer(trail: seq<Session>, k: nat, i: nat, j: nat)
    requires IsTrail(trail) && k <= i < j < |trail| && trail[k].stage.Terminated?
    ensures trail[i].reason != trail[j].reason
  {
    TrailTail(trail, k, i);
    TrailTail(trail, k, j);
    assert trail[i] != trail[j];
  }

  /** The reasons from the first termination on: all offered, none twice. */
  lemma TailReasons(trail: seq<Session>, k: nat) returns (reasons: seq<string>)
    requires IsTrail(trail) && FromReasons(trail) && 0 < k < |trail| && trail[k].stage.Terminated?
    ensures |reasons| == |trail| - k && NoDuplicates(reasons)
    ensures forall r :: r in reasons ==> r in REASONS
  {
    forall i | k <= i < |trail| ensures trail[i].reason.Some? && trail[i].reason.value in REASONS {
      TailReason(trail, k, i);
    }
    reasons := seq(|trail| - k, i requires 0 <= i < |trail| - k => trail[k + i].reason.value);
    forall i, j | 0 <= i < j < |reasons| ensures reasons[i] != reasons[j] {
      TailReasonsDiffer(trail, k, k + i, k + j);
    }
  }

  lemma ReasonsAreFew(trail: seq<Session>, k: nat)
    requires IsTrail(trail) && FromReasons(trail) && 0 < k < |trail| && trail[k].stage.Terminated?
    ensures |trail| - k <= 3
  {
    var reasons := TailReasons(trail, k);
    var used := set r | r in reasons;
    NoDuplicatesCardinality(reasons, used);
    SubsetCardinality(used, REASONS);
  }

  /** A session that starts unterminated and ends for offered reasons takes at most 2n + 8 values. */
  lemma TrailIsShort(trail: seq<Session>)
    requires IsTrail(trail) && FromReasons(trail) && trail != [] && !trail[0].stage.Terminated?
    ensures |trail| <= 2 * |Members(trail[0])| + 8
  {
    var k := FirstTerminated(trail);
    TrailCounts(trail, k - 1);
    RankIsBounded(trail[k - 1]);
    TrailKeepsMembers(trail, k - 1);
    if k < |trail| {
      ReasonsAreFew(trail, k);
    }
  }

  // ----- the values one session takes in a run

  ghost predicate Recorded(hash: Hash, w: World, s: Session)
  {
    hash(SessionDocument(s)) in Digests(w.manifest.objects)
  }

  ghost predicate ActiveAt(hash: Hash, w: World, s: Session, j: nat)
  {
    && j < |w.manifest.objects| && IsActiveSession(w.manifest.objects[j])
    && w.manifest.objects[j].digest == hash(SessionDocument(s))
  }

  ghost predicate HasActive(hash: Hash, w: World, s: Session)
  {
    exists j :: ActiveAt(hash, w, s, j)
  }

  ghost predicate AllRecorded(hash: Hash, w: World, trail: seq<Session>)
  {
    forall i :: 0 <= i < |trail| ==> Recorded(hash, w, trail[i])
  }

  ghost predicate AllAdvance(trail: seq<Session>)
  {
    forall i :: 0 <= i < |trail| - 1 ==> Advances(trail[i], trail[i + 1])
  }

  /** No command has been applied to sessions with this identifier yet. */
  ghost predicate Untouched(w: World, sid: Id)
  {
    forall j :: 0 <= j < |w.manifest.objects| && IsSessionOf(w, w.manifest.objects[j], sid) ==>
      w.cas[w.manifest.objects[j].digest].session.stage.Created?
  }

  ghost predicate IsSessionOf(w: World, e: Entry, sid: Id)
  {
    && e.kind == "coordination-session" && e.digest in w.cas && w.cas[e.digest].SessionDocument?
    && w.cas[e.digest].session.id == sid
  }

  ghost predicate AllNamed(trail: seq<Session>, sid: Id)
  {
    forall i :: 0 <= i < |trail| ==> trail[i].id == sid
  }

  /** The trail lists the values session sid has taken; the last one is its active entry. */
  ghost predicate Tracks(hash: Hash, w: World, sid: Id, trail: seq<Session>)
  {
    && IsTrail(trail)
    && if trail == [] then Untouched(w, sid)
       else
         && !trail[0].stage.Terminated? && AllNamed(trail, sid)
         && AllRecorded(hash, w, trail)
         && HasActive(hash, w, trail[|trail| - 1])
         && AllAdvance(trail)
  }

  lemma FindIsUnique(w: World, sid: Id, j: nat)
    requires Find(w, sid).Some? && Holds(w, sid, j)
    ensures Find(w, sid) == Some(j)
  {
    var found := Where(|w.manifest.objects|, (i: nat) => Holds(w, sid, i));
    assert j in found;
    assert found == [found[0]];
  }

  /** The active entry of a recorded session value is found under its identifier, with that value. */
  lemma ActiveIsFound(hash: Hash, w: World, sid: Id, s: Session, j: nat)
    requires Injective(hash) && Sound(hash, w) && ActiveAt(hash, w, s, j) && s.id == sid && Find(w, sid).Some?
    ensures Find(w, sid) == Some(j) && SessionAt(w, sid, j) == s
  {
    var d := w.manifest.objects[j].digest;
    assert RecordsSession(hash, w.cas, d);
    assert hash(w.cas[d]) == d;
    assert w.cas[d] == SessionDocument(s);
    FindIsUnique(w, sid, j);
  }

  lemma ReplacementShape(hash: Hash, m: Manifest, earlier: Digest, s: Session, st: Option<Statement>)
    ensures var objects := Replacement(hash, m, earlier, s, st).objects;
            && |objects| > |m.objects|
            && objects[|objects| - 1] == SessionEntry(hash(SessionDocument(s)), objects[|objects| - 1].sources)
            && (forall j :: 0 <= j < |m.objects| ==>
                  && objects[j].digest == m.objects[j].digest && objects[j].kind == m.objects[j].kind
                  && (m.objects[j].digest != earlier ==> objects[j] == m.objects[j]))
            && (forall j :: |m.objects| <= j < |objects| - 1 ==> objects[j].kind == "coordination-event")
  {
  }

  /** The replacing value is new to the ledger. */
  lemma ReplacementIsNew(hash: Hash, w: World, w': World, earlier: Digest, s': Session, st: Option<Statement>)
    requires Commits(hash, w, w', Replacement(hash, w.manifest, earlier, s', st))
    ensures !Recorded(hash, w, s') && Recorded(hash, w', s')
    ensures ActiveAt(hash, w', s', |w'.manifest.objects| - 1)
    ensures Digests(w.manifest.objects) <= Digests(w'.manifest.objects)
  {
    ReplacementShape(hash, w.manifest, earlier, s', st);
    var old_objects, objects := w.manifest.objects, w'.manifest.objects;
    var last := |objects| - 1;
    assert objects[last].digest == hash(SessionDocument(s'));
    forall d | d in Digests(old_objects) ensures d in Digests(objects) && d != hash(SessionDocument(s')) {
      var j :| 0 <= j < |old_objects| && old_objects[j].digest == d;
      assert objects[j].digest == d;
    }
  }

  lemma TrailGrows(trail: seq<Session>, s': Session)
    requires IsTrail(trail) && trail != [] && Progress(trail[|trail| - 1], s') && Shape(s') && s' !in trail
    ensures IsTrail(trail + [s'])
  {
  }

  lemma AdvanceGrows(trail: seq<Session>, s': Session)
    requires AllAdvance(trail) && trail != [] && Advances(trail[|trail| - 1], s')
    ensures AllAdvance(trail + [s'])
  {
  }

  lemma RecordedGrows(hash: Hash, w: World, w': World, trail: seq<Session>, s': Session)
    requires AllRecorded(hash, w, trail) && !Recorded(hash, w, s') && Recorded(hash, w', s')
    requires Digests(w.manifest.objects) <= Digests(w'.manifest.objects)
    ensures AllRecorded(hash, w', trail + [s']) && s' !in trail
  {
  }

  lemma SoundShape(hash: Hash, w: World, s: Session, j: nat)
    requires Injective(hash) && Sound(hash, w) && ActiveAt(hash, w, s, j)
    ensures Shape(s)
  {
    var d := w.manifest.objects[j].digest;
    assert RecordsSession(hash, w.cas, d);
    assert hash(w.cas[d]) == d;
  }

  /** The trail with the value a command found, if it is the first one, and the value it made. */
  function Extend(trail: seq<Session>, s: Session, s': Session): seq<Session>
  {
    (if trail == [] then [s] else trail) + [s']
  }

  /** A command on the session adds one value to its trail. */
  lemma TrackTargeted(hash: Hash, w: World, w': World, c: Command, trail: seq<Session>, s: Session, s': Session)
    requires Injective(hash) && Sound(hash, w) && Sound(hash, w') && Moves(hash, w.cas, c, s, s')
    requires Replaces(hash, w, w', c.sid, s, s', StatementOf(c)) && Tracks(hash, w, c.sid, trail)
    ensures Tracks(hash, w', c.sid, Extend(trail, s, s'))
  {
    var i := Find(w, c.sid).value;
    StartOfMove(hash, w, c.sid, trail, s, i);
    MoveFacts(hash, w, w', c, s, s', i);
    ExtendTracks(hash, w, w', c.sid, trail, s, s');
  }

  /** The value found starts a trail, or is the end of the one there is. */
  ghost predicate Begins(hash: Hash, w: World, sid: Id, trail: seq<Session>, s: Session)
  {
    if trail == [] then Shape(s) && !s.stage.Terminated? && s.id == sid && Recorded(hash, w, s)
    else trail[|trail| - 1] == s
  }

  /** The value made follows it, is new to the ledger and active. */
  ghost predicate Follows(hash: Hash, w: World, w': World, s: Session, s': Session)
  {
    && Advances(s, s') && Progress(s, s') && Shape(s') && HasActive(hash, w', s')
    && !Recorded(hash, w, s') && Recorded(hash, w', s')
    && Digests(w.manifest.objects) <= Digests(w'.manifest.objects)
  }

  lemma ExtendTracks(hash: Hash, w: World, w': World, sid: Id, trail: seq<Session>, s: Session, s': Session)
    requires Tracks(hash, w, sid, trail) && Begins(hash, w, sid, trail, s) && Follows(hash, w, w', s, s')
    ensures Tracks(hash, w', sid, Extend(trail, s, s'))
  {
    if trail == [] {
      StartGrows(hash, w, w', sid, [s], s');
    } else {
      StartGrows(hash, w, w', sid, trail, s');
    }
  }

  lemma StartGrows(hash: Hash, w: World, w': World, sid: Id, start: seq<Session>, s': Session)
    requires start != [] && IsTrail(start) && !start[0].stage.Terminated? && AllNamed(start, sid)
    requires AllRecorded(hash, w, start) && AllAdvance(start)
    requires Follows(hash, w, w', start[|start| - 1], s')
    ensures Tracks(hash, w', sid, start + [s'])
  {
    RecordedGrows(hash, w, w', start, s');
    TrailGrows(start, s');
    AdvanceGrows(start, s');
    NamesGrow(start, s', sid);
  }

  lemma NamesGrow(start: seq<Session>, s': Session, sid: Id)
    requires start != [] && AllNamed(start, sid) && Advances(start[|start| - 1], s')
    ensures AllNamed(start + [s'], sid)
  {
    assert start[|start| - 1].id == sid;
  }

  lemma MoveFacts(hash: Hash, w: World, w': World, c: Command, s: Session, s': Session, i: nat)
    requires Injective(hash) && Sound(hash, w') && Moves(hash, w.cas, c, s, s')
    requires Find(w, c.sid) == Some(i) && Replaces(hash, w, w', c.sid, s, s', StatementOf(c))
    ensures Follows(hash, w, w', s, s')
  {
    CommandAdvances(hash, w.cas, s, c, s');
    MoveProgress(hash, w.cas, c, s, s');
    ReplacementIsNew(hash, w, w', w.manifest.objects[i].digest, s', StatementOf(c));
    SoundShape(hash, w', s', |w'.manifest.objects| - 1);
  }

  /** The trail to extend ends with the value the command found, which is recorded. */
  lemma StartOfMove(hash: Hash, w: World, sid: Id, trail: seq<Session>, s: Session, i: nat)
    requires Injective(hash) && Sound(hash, w) && Tracks(hash, w, sid, trail)
    requires Find(w, sid) == Some(i) && SessionAt(w, sid, i) == s
    ensures Begins(hash, w, sid, trail, s)
  {
    var d := w.manifest.objects[i].digest;
    assert hash(w.cas[d]) == d;
    assert ActiveAt(hash, w, s, i);
    if trail == [] {
      SoundShape(hash, w, s, i);
      assert IsSessionOf(w, w.manifest.objects[i], sid);
      assert d in Digests(w.manifest.objects);
    } else {
      var j: nat :| ActiveAt(hash, w, trail[|trail| - 1], j);
      ActiveIsFound(hash, w, sid, trail[|trail| - 1], j);
    }
  }

  // ----- commands that do not concern the session

  /** Entries that are kept and values that stay readable keep a trail. */
  ghost predicate KeepsSession(hash: Hash, w: World, w': World, sid: Id)
  {
    && Digests(w.manifest.objects) <= Digests(w'.manifest.objects)
    && (Untouched(w, sid) ==> Untouched(w', sid))
    && forall s: Session :: s.id == sid && HasActive(hash, w, s) ==> HasActive(hash, w', s)
  }

  lemma TrackKept(hash: Hash, w: World, w': World, sid: Id, trail: seq<Session>)
    requires Tracks(hash, w, sid, trail) && KeepsSession(hash, w, w', sid)
    ensures Tracks(hash, w', sid, trail)
  {
  }

  /** Entries are only appended, and what is appended for this identifier is freshly created. */
  ghost predicate AppendsCreated(hash: Hash, w: World, w': World, sid: Id)
  {
    && |w.manifest.objects| <= |w'.manifest.objects| && Grows(w.cas, w'.cas)
    && (forall j :: 0 <= j < |w.manifest.objects| ==>
          w'.manifest.objects[j].digest == w.manifest.objects[j].digest
          && w'.manifest.objects[j].kind == w.manifest.objects[j].kind)
    && (forall j :: |w.manifest.objects| <= j < |w'.manifest.objects| ==>
          IsSessionOf(w', w'.manifest.objects[j], sid) ==>
          w'.cas[w'.manifest.objects[j].digest].session.stage.Created?)
  }

  lemma UntouchedKept(hash: Hash, w: World, w': World, sid: Id)
    requires Sound(hash, w) && Untouched(w, sid) && AppendsCreated(hash, w, w', sid)
    ensures Untouched(w', sid)
  {
    forall j | 0 <= j < |w'.manifest.objects| && IsSessionOf(w', w'.manifest.objects[j], sid)
      ensures w'.cas[w'.manifest.objects[j].digest].session.stage.Created?
    {
      if j < |w.manifest.objects| {
        assert RecordsSession(hash, w.cas, w.manifest.objects[j].digest);
        assert IsSessionOf(w, w.manifest.objects[j], sid);
      }
    }
  }

  lemma DigestsKept(hash: Hash, w: World, w': World, sid: Id)
    requires AppendsCreated(hash, w, w', sid)
    ensures Digests(w.manifest.objects) <= Digests(w'.manifest.objects)
  {
    forall d | d in Digests(w.manifest.objects) ensures d in Digests(w'.manifest.objects) {
      var j :| 0 <= j < |w.manifest.objects| && w.manifest.objects[j].digest == d;
      assert w'.manifest.objects[j].digest == d;
    }
  }

  lemma ReplacementHoldsOnlyItsSession(hash: Hash, w: World, w': World, earlier: Digest, s': Session,
                                       st: Option<Statement>, sid: Id, j: nat)
    requires Commits(hash, w, w', Replacement(hash, w.manifest, earlier, s', st)) && s'.id != sid
    requires hash(SessionDocument(s')) in w'.cas && w'.cas[hash(SessionDocument(s'))] == SessionDocument(s')
    requires |w.manifest.objects| <= j < |w'.manifest.objects|
    ensures !IsSessionOf(w', w'.manifest.objects[j], sid)
  {
    ReplacementShape(hash, w.manifest, earlier, s', st);
  }

  lemma OtherSessionAppends(hash: Hash, w: World, w': World, c: Command, s: Session, s': Session, sid: Id)
    requires Injective(hash) && Sound(hash, w) && Moves(hash, w.cas, c, s, s') && c.sid != sid
    requires Replaces(hash, w, w', c.sid, s, s', StatementOf(c))
    ensures AppendsCreated(hash, w, w', sid)
  {
    var earlier := w.manifest.objects[Find(w, c.sid).value].digest;
    assert s'.id == c.sid by {
      CommandAdvances(hash, w.cas, s, c, s');
    }
    assert Grows(w.cas, w'.cas) && hash(SessionDocument(s')) in w'.cas
           && w'.cas[hash(SessionDocument(s'))] == SessionDocument(s') by {
      StoredBothGrow(hash, w.cas, s', StatementOf(c));
    }
    ReplacementShape(hash, w.manifest, earlier, s', StatementOf(c));
    forall j | |w.manifest.objects| <= j < |w'.manifest.objects|
      ensures !IsSessionOf(w', w'.manifest.objects[j], sid)
    {
      ReplacementHoldsOnlyItsSession(hash, w, w', earlier, s', StatementOf(c), sid, j);
    }
  }

  lemma OtherSessionStays(hash: Hash, w: World, w': World, c: Command, s: Session, s': Session, t: Session)
    requires Injective(hash) && Sound(hash, w) && HasActive(hash, w, t) && !c.Create? && !c.Elsewhere? && c.sid != t.id
    requires Replaces(hash, w, w', c.sid, s, s', StatementOf(c))
    ensures HasActive(hash, w', t)
  {
    var i := Find(w, c.sid).value;
    ReplacementShape(hash, w.manifest, w.manifest.objects[i].digest, s', StatementOf(c));
    var j: nat :| ActiveAt(hash, w, t, j);
    OtherDigestsDiffer(hash, w, c.sid, i, t, j);
    assert ActiveAt(hash, w', t, j);
  }

  lemma OtherSessionKept(hash: Hash, w: World, w': World, c: Command, s: Session, s': Session, sid: Id)
    requires Injective(hash) && Sound(hash, w) && Moves(hash, w.cas, c, s, s') && c.sid != sid
    requires Replaces(hash, w, w', c.sid, s, s', StatementOf(c))
    ensures KeepsSession(hash, w, w', sid)
  {
    OtherSessionAppends(hash, w, w', c, s, s', sid);
    DigestsKept(hash, w, w', sid);
    if Untouched(w, sid) {
      UntouchedKept(hash, w, w', sid);
    }
    forall t: Session | t.id == sid && HasActive(hash, w, t) ensures HasActive(hash, w', t) {
      OtherSessionStays(hash, w, w', c, s, s', t);
    }
  }

  lemma OtherDigestsDiffer(hash: Hash, w: World, other: Id, i: nat, t: Session, j: nat)
    requires Injective(hash) && Sound(hash, w) && Holds(w, other, i) && ActiveAt(hash, w, t, j) && t.id != other
    ensures w.manifest.objects[j].digest != w.manifest.objects[i].digest
  {
    var d := w.manifest.objects[j].digest;
    assert RecordsSession(hash, w.cas, d);
    assert hash(w.cas[d]) == d;
  }

  lemma CreationAppends(hash: Hash, w: World, w': World, plan: Plan, sid: Id)
    requires Injective(hash) && Sound(hash, w) && Creates(hash, w, w', plan)
    ensures AppendsCreated(hash, w, w', sid)
    ensures forall j :: 0 <= j < |w.manifest.objects| ==> w'.manifest.objects[j] == w.manifest.objects[j]
  {
    var planDigest := hash(PlanDocument(plan));
    var created := NewSession(plan, planDigest);
    StoredGrows(hash, w.cas, PlanDocument(plan));
    StoredGrows(hash, w.cas[planDigest := PlanDocument(plan)], SessionDocument(created));
    assert w'.manifest.objects[|w.manifest.objects|].kind == "coordination-plan";
  }

  lemma CreationKeeps(hash: Hash, w: World, w': World, plan: Plan, sid: Id)
    requires Injective(hash) && Sound(hash, w) && Creates(hash, w, w', plan)
    ensures KeepsSession(hash, w, w', sid)
  {
    CreationAppends(hash, w, w', plan, sid);
    DigestsKept(hash, w, w', sid);
    if Untouched(w, sid) {
      UntouchedKept(hash, w, w', sid);
    }
    forall t: Session | t.id == sid && HasActive(hash, w, t) ensures HasActive(hash, w', t) {
      var j: nat :| ActiveAt(hash, w, t, j);
      assert ActiveAt(hash, w', t, j);
    }
  }

  lemma UnrelatedKeeps(hash: Hash, w: World, w': World, sid: Id)
    requires Sound(hash, w) && Unrelated(hash, w, w')
    ensures KeepsSession(hash, w, w', sid)
  {
    forall t: Session | t.id == sid && HasActive(hash, w, t) ensures HasActive(hash, w', t) {
      var j: nat :| ActiveAt(hash, w, t, j);
      var e := w.manifest.objects[j];
      assert e in w.manifest.objects && e in w'.manifest.objects;
      var k :| 0 <= k < |w'.manifest.objects| && w'.manifest.objects[k] == e;
      assert ActiveAt(hash, w', t, k);
    }
    if Untouched(w, sid) {
      forall j | 0 <= j < |w'.manifest.objects| && IsSessionOf(w', w'.manifest.objects[j], sid)
        ensures w'.cas[w'.manifest.objects[j].digest].session.stage.Created?
      {
        var e := w'.manifest.objects[j];
        assert e in w'.manifest.objects && e in w.manifest.objects;
        var k :| 0 <= k < |w.manifest.objects| && w.manifest.objects[k] == e;
        assert RecordsSession(hash, w.cas, w.manifest.objects[k].digest);
        assert IsSessionOf(w, w.manifest.objects[k], sid);
      }
    }
  }

  /** How a trail goes on: unchanged by other commands, otherwise longer by one value, or two at its start. */
  ghost predicate Continues(trail: seq<Session>, c: Command, sid: Id, longer: seq<Session>)
  {
    if !Targets(c, sid) then longer == trail
    else
      && |longer| == (if trail == [] then 2 else |trail| + 1) && trail <= longer
      && (FromReasons(trail) && Offered(c) ==> FromReasons(longer))
  }

  lemma ExtendGrows(trail: seq<Session>, c: Command, sid: Id, s: Session, s': Session)
    requires Targets(c, sid) && (s'.stage.Terminated? ==> c.End? && s'.reason == Some(c.reason))
    ensures Continues(trail, c, sid, Extend(trail, s, s'))
  {
  }

  /** Only a terminating command terminates, and it leaves its reason; a terminated session moves by nothing else. */
  lemma EndLeavesReason(hash: Hash, cas: Cas, c: Command, s: Session, s': Session)
    requires Moves(hash, cas, c, s, s') && s'.stage.Terminated?
    ensures c.End? && s'.reason == Some(c.reason)
  {
  }

  lemma MoveContinues(hash: Hash, cas: Cas, c: Command, sid: Id, trail: seq<Session>, s: Session, s': Session)
    requires Moves(hash, cas, c, s, s') && c.sid == sid
    ensures Continues(trail, c, sid, Extend(trail, s, s'))
  {
    if s'.stage.Terminated? {
      EndLeavesReason(hash, cas, c, s, s');
    }
    ExtendGrows(trail, c, sid, s, s');
  }

  /** In the new world the trail goes on as the command says. */
  ghost predicate TrackContinues(hash: Hash, w': World, c: Command, sid: Id, trail: seq<Session>)
  {
    exists longer :: Tracks(hash, w', sid, longer) && Continues(trail, c, sid, longer)
  }

  lemma SameTrail(hash: Hash, w: World, w': World, c: Command, sid: Id, trail: seq<Session>)
    requires Tracks(hash, w, sid, trail) && KeepsSession(hash, w, w', sid) && !Targets(c, sid)
    ensures TrackContinues(hash, w', c, sid, trail)
  {
    TrackKept(hash, w, w', sid, trail);
    assert Continues(trail, c, sid, trail);
  }

  lemma LongerTrail(hash: Hash, w: World, w': World, c: Command, trail: seq<Session>, s: Session, s': Session)
    requires Injective(hash) && Sound(hash, w) && Sound(hash, w') && Moves(hash, w.cas, c, s, s')
    requires Replaces(hash, w, w', c.sid, s, s', StatementOf(c)) && Tracks(hash, w, c.sid, trail)
    ensures TrackContinues(hash, w', c, c.sid, trail)
  {
    TrackTargeted(hash, w, w', c, trail, s, s');
    MoveContinues(hash, w.cas, c, c.sid, trail, s, s');
  }

  /** Every step keeps a trail for the session and lengthens it exactly when the step concerns the session. */
  lemma TrackStep(hash: Hash, w: World, w': World, c: Command, sid: Id, trail: seq<Session>)
    requires Injective(hash) && Sound(hash, w) && Sound(hash, w') && Next(hash, w, w', c)
    requires Tracks(hash, w, sid, trail)
    ensures TrackContinues(hash, w', c, sid, trail)
  {
    if c.Create? {
      CreationKeeps(hash, w, w', c.plan, sid);
      SameTrail(hash, w, w', c, sid, trail);
    } else if c.Elsewhere? {
      UnrelatedKeeps(hash, w, w', sid);
      SameTrail(hash, w, w', c, sid, trail);
    } else {
      var s, s' :| Replaces(hash, w, w', c.sid, s, s', StatementOf(c)) && OutcomeOf(hash, w.cas, s, c) == Advanced(s');
      assert Moves(hash, w.cas, c, s, s');
      if c.sid == sid {
        LongerTrail(hash, w, w', c, trail, s, s');
      } else {
        OtherSessionKept(hash, w, w', c, s, s', sid);
        SameTrail(hash, w, w', c, sid, trail);
      }
    }
  }

  // ----- the bound over whole runs

  function Count(commands: seq<Command>, sid: Id, n: nat): nat
    requires n <= |commands|
  {
    if n == 0 then 0 else Count(commands, sid, n - 1) + if Targets(commands[n - 1], sid) then 1 else 0
  }

  /** A record that every step can continue exists along the whole run. */
  lemma {:induction false} Recordings<W(!new), T(!new)>(inv: (W, T) -> bool, next: (W, W, Command) -> bool,
                                                       goes: (T, Command, T) -> bool, worlds: seq<W>, commands: seq<Command>,
                                                       start: T, n: nat) returns (records: seq<T>)
    requires |worlds| == |commands| + 1 && n <= |commands| && inv(worlds[0], start)
    requires forall i :: 0 <= i < |commands| ==> next(worlds[i], worlds[i + 1], commands[i])
    requires forall w, w', c, t :: inv(w, t) && next(w, w', c) ==> exists t' :: inv(w', t') && goes(t, c, t')
    ensures |records| == n + 1 && records[0] == start
    ensures forall i :: 0 <= i <= n ==> inv(worlds[i], records[i])
    ensures forall i :: 0 <= i < n ==> goes(records[i], commands[i], records[i + 1])
  {
    if n == 0 {
      records := [start];
    } else {
      var before := Recordings(inv, next, goes, worlds, commands, start, n - 1);
      assert next(worlds[n - 1], worlds[n - 1 + 1], commands[n - 1]);
      var t' :| inv(worlds[n], t') && goes(before[n - 1], commands[n - 1], t');
      records := before + [t'];
    }
  }

  ghost predicate Tracked(hash: Hash, w: World, sid: Id, trail: seq<Session>)
  {
    Sound(hash, w) && Tracks(hash, w, sid, trail)
  }

  lemma TrackedStep(hash: Hash, w: World, w': World, c: Command, sid: Id, trail: seq<Session>)
    requires Injective(hash) && Tracked(hash, w, sid, trail) && Next(hash, w, w', c)
    ensures exists longer :: Tracked(hash, w', sid, longer) && Continues(trail, c, sid, longer)
  {
    StepKeepsSound(hash, w, w', c);
    TrackStep(hash, w, w', c, sid, trail);
    var longer :| Tracks(hash, w', sid, longer) && Continues(trail, c, sid, longer);
    assert Tracked(hash, w', sid, longer);
  }

  lemma FreshIsTracked(hash: Hash, w: World, sid: Id)
    requires Fresh(hash, w)
    ensures Tracked(hash, w, sid, [])
  {
    FreshIsSound(hash, w);
    assert forall i :: 0 <= i < |w.manifest.objects| ==> w.manifest.objects[i] in w.manifest.objects;
  }

  /** All terminations of this session so far were asked for with an offered reason. */
  ghost predicate AllOffered(commands: seq<Command>, sid: Id, n: nat)
    requires n <= |commands|
  {
    forall i :: 0 <= i < n && Targets(commands[i], sid) ==> Offered(commands[i])
  }

  /** After m steps the active value of the session is the one of the trail that the commands so far have led to. */
  ghost predicate ActiveThen(hash: Hash, worlds: seq<World>, commands: seq<Command>, sid: Id, trail: seq<Session>, m: nat)
    requires m <= |commands| && |worlds| == |commands| + 1
  {
    var k := Count(commands, sid, m);
    k > 0 ==> k < |trail| && HasActive(hash, worlds[m], trail[k])
  }

  /** The trails of one session after each step of a run. */
  ghost predicate AreTrails(hash: Hash, worlds: seq<World>, commands: seq<Command>, sid: Id, n: nat, trails: seq<seq<Session>>)
    requires n <= |commands| && |worlds| == |commands| + 1
  {
    Continuing(commands, sid, n, trails) && forall i :: 0 <= i <= n ==> Tracked(hash, worlds[i], sid, trails[i])
  }

  ghost predicate Continuing(commands: seq<Command>, sid: Id, n: nat, trails: seq<seq<Session>>)
    requires n <= |commands|
  {
    && |trails| == n + 1 && trails[0] == []
    && forall i :: 0 <= i < n ==> Continues(trails[i], commands[i], sid, trails[i + 1])
  }

  lemma RunHasTrails(hash: Hash, worlds: seq<World>, commands: seq<Command>, sid: Id, n: nat) returns (trails: seq<seq<Session>>)
    requires Injective(hash) && IsRun(hash, worlds, commands) && n <= |commands|
    ensures AreTrails(hash, worlds, commands, sid, n, trails)
  {
    var inv := (w: World, t: seq<Session>) => Tracked(hash, w, sid, t);
    var next := (w: World, w': World, c: Command) => Next(hash, w, w', c);
    var goes := (t: seq<Session>, c: Command, t': seq<Session>) => Continues(t, c, sid, t');
    FreshIsTracked(hash, worlds[0], sid);
    forall i | 0 <= i < |commands| ensures next(worlds[i], worlds[i + 1], commands[i]) {
      assert RunStep(hash, worlds, commands, i);
    }
    forall w, w', c, t | inv(w, t) && next(w, w', c) ensures exists t' :: inv(w', t') && goes(t, c, t') {
      TrackedStep(hash, w, w', c, sid, t);
      var longer :| Tracked(hash, w', sid, longer) && Continues(t, c, sid, longer);
      assert inv(w', longer) && goes(t, c, longer);
    }
    trails := Recordings(inv, next, goes, worlds, commands, [], n);
    forall i | 0 <= i < n ensures Continues(trails[i], commands[i], sid, trails[i + 1]) {
      assert goes(trails[i], commands[i], trails[i + 1]);
    }
    forall i | 0 <= i <= n ensures Tracked(hash, worlds[i], sid, trails[i]) {
      assert inv(worlds[i], trails[i]);
    }
  }

  /** Trails only get longer, one value for each command on the session. */
  lemma {:induction false} TrailLength(commands: seq<Command>, sid: Id, n: nat, trails: seq<seq<Session>>, m: nat)
    requires n <= |commands| && Continuing(commands, sid, n, trails) && m <= n
    ensures |trails[m]| == if Count(commands, sid, m) == 0 then 0 else Count(commands, sid, m) + 1
    ensures AllOffered(commands, sid, m) ==> FromReasons(trails[m])
  {
    if m > 0 {
      TrailLength(commands, sid, n, trails, m - 1);
      assert Continues(trails[m - 1], commands[m - 1], sid, trails[m - 1 + 1]);
    }
  }

  lemma {:induction false} TrailsArePrefixes(commands: seq<Command>, sid: Id, n: nat, trails: seq<seq<Session>>, m: nat, k: nat)
    requires n <= |commands| && Continuing(commands, sid, n, trails) && m <= k <= n
    ensures trails[m] <= trails[k]
    decreases k
  {
    if m < k {
      TrailsArePrefixes(commands, sid, n, trails, m, k - 1);
      assert Continues(trails[k - 1], commands[k - 1], sid, trails[k - 1 + 1]);
    }
  }

  lemma LastIsActive(hash: Hash, w: World, sid: Id, trail: seq<Session>)
    requires Tracked(hash, w, sid, trail) && trail != []
    ensures HasActive(hash, w, trail[|trail| - 1])
  {
  }

  lemma WasActive(hash: Hash, worlds: seq<World>, commands: seq<Command>, sid: Id, n: nat, trails: seq<seq<Session>>, m: nat)
    requires n <= |commands| && |worlds| == |commands| + 1 && AreTrails(hash, worlds, commands, sid, n, trails) && m <= n
    ensures ActiveThen(hash, worlds, commands, sid, trails[n], m)
  {
    TrailLength(commands, sid, n, trails, m);
    TrailsArePrefixes(commands, sid, n, trails, m, n);
    if Count(commands, sid, m) > 0 {
      LastIsActive(hash, worlds[m], sid, trails[m]);
    }
  }

  /**
   * Every run gives each session its trail: the values it takes, one for its start and one for each command on it,
   * in order, the active one at every moment among them. None recurs, all are recorded, each follows from the one
   * before, and commitments stay as they were once the commit phase is over. When the termination reasons given
   * for the session are those of the command line, n participants allow at most 2n + 7 commands.
   */
  lemma SessionRunsAreFinite(hash: Hash, worlds: seq<World>, commands: seq<Command>, sid: Id, n: nat)
    returns (trail: seq<Session>)
    requires Injective(hash) && IsRun(hash, worlds, commands) && n <= |commands|
    ensures |trail| == if Count(commands, sid, n) == 0 then 0 else Count(commands, sid, n) + 1
    ensures AllNamed(trail, sid) && AllAdvance(trail)
    ensures NoDuplicates(trail) && AllRecorded(hash, worlds[n], trail)
    ensures forall m: nat :: m <= n ==> ActiveThen(hash, worlds, commands, sid, trail, m)
    ensures forall i, j :: 0 <= i < j < |trail| && !trail[i].stage.Created? && !trail[i].stage.CommitOpen? ==>
                             trail[j].commitments == trail[i].commitments
    ensures AllOffered(commands, sid, n) && trail != [] ==> Count(commands, sid, n) <= 2 * |Members(trail[0])| + 7
  {
    var trails := RunHasTrails(hash, worlds, commands, sid, n);
    trail := trails[n];
    TrailLength(commands, sid, n, trails, n);
    TrailFacts(hash, worlds[n], sid, trail, AllOffered(commands, sid, n));
    forall m: nat | m <= n ensures ActiveThen(hash, worlds, commands, sid, trail, m) {
      WasActive(hash, worlds, commands, sid, n, trails, m);
    }
  }

  lemma TrailFacts(hash: Hash, w: World, sid: Id, trail: seq<Session>, offered: bool)
    requires Tracked(hash, w, sid, trail) && (offered ==> FromReasons(trail))
    ensures AllNamed(trail, sid) && AllAdvance(trail) && NoDuplicates(trail) && AllRecorded(hash, w, trail)
    ensures forall i, j :: 0 <= i < j < |trail| && !trail[i].stage.Created? && !trail[i].stage.CommitOpen? ==>
                             trail[j].commitments == trail[i].commitments
    ensures offered && trail != [] ==> |trail| <= 2 * |Members(trail[0])| + 8
  {
    if offered && trail != [] {
      TrailIsShort(trail);
    }
    forall i, j | 0 <= i < j < |trail| && !trail[i].stage.Created? && !trail[i].stage.CommitOpen?
      ensures trail[j].commitments == trail[i].commitments
    {
      ClosedCommitmentsStay(trail, i, j);
    }
  }

  lemma {:induction false} ClosedCommitmentsStay(trail: seq<Session>, i: nat, j: nat)
    requires AllAdvance(trail) && IsTrail(trail) && i <= j < |trail|
    requires !trail[i].stage.Created? && !trail[i].stage.CommitOpen?
    ensures trail[j].commitments == trail[i].commitments
    ensures !trail[j].stage.Created? && !trail[j].stage.CommitOpen?
    decreases j
  {
    if i < j {
      ClosedCommitmentsStay(trail, i, j - 1);
      assert Advances(trail[j - 1], trail[j - 1 + 1]);
    }
  }
}
