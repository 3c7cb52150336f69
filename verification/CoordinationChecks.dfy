/** Which check of a coordination command fails first, and which stage leads to which. */
module CoordinationChecks {
  import opened Ids
  import opened Ledger
  import opened Coordination

  // ----- finding the session

  /** An active session of this name stands at this place of the ledger. */
  ghost predicate ActiveSessionAt(w: World, sid: Id, i: nat)
  {
    && i < |w.manifest.objects| && w.manifest.objects[i].kind == "coordination-session" && w.manifest.objects[i].lifecycle == Active
    && w.manifest.objects[i].digest in w.cas
    && exists s: Session :: s.id == sid && w.cas[w.manifest.objects[i].digest] == SessionDocument(s)
  }

  lemma HoldsMeans(w: World, sid: Id, i: nat)
    ensures Holds(w, sid, i) <==> ActiveSessionAt(w, sid, i)
  {
    if Holds(w, sid, i) {
      assert w.cas[w.manifest.objects[i].digest] == SessionDocument(SessionAt(w, sid, i));
    }
  }

  /** A session is found iff every active session can be read and exactly one of them has the name. */
  lemma FindChecks(w: World, sid: Id, i: nat)
    ensures Find(w, sid) == Some(i) <==>
            && (forall e :: e in w.manifest.objects && e.kind == "coordination-session" && e.lifecycle == Active ==> e.digest in w.cas)
            && ActiveSessionAt(w, sid, i) && forall j: nat :: ActiveSessionAt(w, sid, j) ==> j == i
  {
    assert Readable(w) <==>
      forall e :: e in w.manifest.objects && e.kind == "coordination-session" && e.lifecycle == Active ==> e.digest in w.cas;
    forall j: nat ensures Holds(w, sid, j) <==> ActiveSessionAt(w, sid, j) {
      HoldsMeans(w, sid, j);
    }
    var found := Where(|w.manifest.objects|, (j: nat) => Holds(w, sid, j));
    if ActiveSessionAt(w, sid, i) && forall j: nat :: ActiveSessionAt(w, sid, j) ==> j == i {
      assert i in found;
      SingletonByMembers(found, i);
    }
    if |found| == 1 {
      assert found[0] in found;
      forall j: nat | Holds(w, sid, j) ensures j == found[0] {
        assert j in found;
      }
    }
  }

  // ----- commitments

  predicate OpenForCommitments(s: Session)
  {
    s.stage == Created || s.stage == CommitOpen
  }

  /** A participant speaks for itself about this session. */
  predicate BoundToParticipant(s: Session, sid: Id, st: Statement)
  {
    st.payload.session == sid && st.payload.participant == st.principal && st.principal in s.participants
  }

  /** The first check that fails decides: kind of statement, stage, binding, and that there is no commitment yet. */
  lemma CommitChecks(s: Session, sid: Id, st: Statement, digest: Digest)
    ensures var r := CommitTo(s, sid, st, digest);
            && (r == Refused(SignatureInvalid) <==> !st.payload.Commitment?)
            && (r == Refused(StateInvalid) <==> st.payload.Commitment? && !OpenForCommitments(s))
            && (r == Refused(BindingInvalid) <==>
                  st.payload.Commitment? && OpenForCommitments(s) && !BoundToParticipant(s, sid, st))
            && (r == Refused(DuplicateEvent) <==>
                  && st.payload.Commitment? && OpenForCommitments(s) && BoundToParticipant(s, sid, st)
                  && st.principal in s.commitments)
            && (r.Advanced? <==>
                  && st.payload.Commitment? && OpenForCommitments(s) && BoundToParticipant(s, sid, st)
                  && st.principal !in s.commitments)
  {
  }

  // ----- reveals

  /** A reveal about this session by its own principal, who has a commitment, while revealing is open. */
  predicate MayReveal(s: Session, sid: Id, st: Statement)
  {
    && st.payload.Reveal? && s.stage == RevealOpen && st.payload.session == sid && st.payload.participant == st.principal
    && st.principal in s.commitments
  }

  /** Kind of statement, stage, binding, a readable commitment, that it is to what is revealed, and no reveal yet. */
  lemma RevealChecks(hash: Hash, cas: Cas, s: Session, sid: Id, st: Statement, digest: Digest)
    ensures var r := RevealTo(hash, cas, s, sid, st, digest);
            && (r == Refused(SignatureInvalid) <==> !st.payload.Reveal?)
            && (r == Refused(StateInvalid) <==> st.payload.Reveal? && s.stage != RevealOpen)
            && (r == Refused(BindingInvalid) <==>
                  && st.payload.Reveal? && s.stage == RevealOpen
                  && (st.payload.session != sid || st.payload.participant != st.principal))
            && (r == Refused(WithoutCommitment) <==>
                  && st.payload.Reveal? && s.stage == RevealOpen
                  && st.payload.session == sid && st.payload.participant == st.principal && st.principal !in s.commitments)
            && (r == Refused(InputInvalid) <==> MayReveal(s, sid, st) && s.commitments[st.principal] !in cas)
            && (r == Refused(CommitRevealMismatch) <==>
                  MayReveal(s, sid, st) && s.commitments[st.principal] in cas && !Opens(hash, cas, s, st))
            && (r == Refused(DuplicateEvent) <==> MayReveal(s, sid, st) && Opens(hash, cas, s, st) && st.principal in s.openings)
            && (r.Advanced? <==> MayReveal(s, sid, st) && Opens(hash, cas, s, st) && st.principal !in s.openings)
  {
  }

  /** The stored commitment of the principal is to what the statement reveals. */
  predicate Opens(hash: Hash, cas: Cas, s: Session, st: Statement)
  {
    && st.payload.Reveal? && st.principal in s.commitments && s.commitments[st.principal] in cas
    && var d := cas[s.commitments[st.principal]];
       && d.StatementDocument? && d.statement.payload.Commitment?
       && d.statement.payload.commitment == hash(OpeningDocument(st.payload.proposal, st.payload.nonce))
  }

  // ----- routes and terminations

  /** The stages a route goes between. */
  const ROUTES: set<(Stage, Stage)> :=
    {(CommitOpen, CommitClosed), (CommitClosed, RevealOpen), (RevealOpen, Verify), (Verify, Integrate)}

  /** Everybody has done what the stage is there for. */
  ghost predicate Done(s: Session, capacityNow: bool)
  {
    match s.stage
    case CommitOpen => forall p :: p in s.participants <==> p in s.commitments
    case CommitClosed => true
    case RevealOpen => forall p :: p in s.participants <==> p in s.openings
    case Verify => capacityNow
    case _ => false
  }

  lemma RouteChecks(s: Session, capacityNow: bool)
    ensures RouteOf(s, capacityNow).Advanced? <==> Done(s, capacityNow)
    ensures RouteOf(s, capacityNow).Advanced? ==>
              var s' := RouteOf(s, capacityNow).session;
              && (s.stage, s'.stage) in ROUTES
              && s' == s.(stage := s'.stage, capacity := s.capacity || s'.stage.Integrate?)
    ensures !Done(s, capacityNow) ==>
              RouteOf(s, capacityNow) == Refused(if s.stage.Verify? then CapacityBlocked else RoutePreconditionUnsatisfied)
  {
    assert (forall p :: p in s.participants <==> p in s.commitments) <==> s.commitments.Keys == Members(s);
    assert (forall p :: p in s.participants <==> p in s.openings) <==> s.openings.Keys == Members(s);
  }

  /** Success can only be claimed of an integrated session; any other reason ends a session at any stage. */
  lemma TerminateChecks(s: Session, reason: string)
    ensures TerminateOf(s, reason) == Refused(SuccessTerminationUnsatisfied) <==> s.stage != Integrate && reason == "all_verified"
    ensures TerminateOf(s, reason).Advanced? <==> s.stage == Integrate || reason != "all_verified"
    ensures TerminateOf(s, reason).Advanced? ==>
              var s' := TerminateOf(s, reason).session;
              s'.stage.Terminated? && s'.reason == Some(reason) && s' == s.(stage := s'.stage, reason := s'.reason)
  {
  }
}
