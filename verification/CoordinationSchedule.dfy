/** The full course of a session whose participants all commit and reveal: every command on it advances. */
module CoordinationSchedule {
  import opened Ids
  import opened Ledger
  import opened Coordination
  import opened CoordinationSafety
  import opened CoordinationBound

  /** What a participant brings: a signing key, a proposal and the nonce that hides it. */
  datatype Contribution = Contribution(key: Id, proposal: string, nonce: string)

  /** A plan with one contribution for each of its participants, of whom there is at least one. */
  datatype Course = Course(plan: Plan, contributions: seq<Contribution>)

  predicate Full(c: Course)
  {
    |c.contributions| == |c.plan.participants| >= 1 && NoDuplicates(c.plan.participants)
  }

  function Size(c: Course): nat
  {
    |c.plan.participants|
  }

  function SessionId(plan: Plan): Id
  {
    "session:" + plan.planId
  }

  function CommitStatement(hash: Hash, c: Course, i: nat): Statement
    requires Full(c) && i < Size(c)
  {
    var x := c.contributions[i];
    Statement(c.plan.participants[i], x.key,
              Commitment(SessionId(c.plan), c.plan.participants[i], hash(OpeningDocument(x.proposal, x.nonce))))
  }

  function RevealStatement(c: Course, i: nat): Statement
    requires Full(c) && i < Size(c)
  {
    var x := c.contributions[i];
    Statement(c.plan.participants[i], x.key, Reveal(SessionId(c.plan), c.plan.participants[i], x.proposal, x.nonce))
  }

  /** What the first k participants have committed. */
  function Commitments(hash: Hash, c: Course, k: nat): map<Id, Digest>
    requires Full(c) && k <= Size(c)
  {
    if k == 0 then map[]
    else Commitments(hash, c, k - 1)[c.plan.participants[k - 1] := hash(StatementDocument(CommitStatement(hash, c, k - 1)))]
  }

  function Openings(hash: Hash, c: Course, k: nat): map<Id, Digest>
    requires Full(c) && k <= Size(c)
  {
    if k == 0 then map[]
    else Openings(hash, c, k - 1)[c.plan.participants[k - 1] := hash(StatementDocument(RevealStatement(c, k - 1)))]
  }

  /** The session once the first k participants have committed. */
  function Committing(hash: Hash, c: Course, k: nat): Session
    requires Full(c) && k <= Size(c)
  {
    var s := NewSession(c.plan, hash(PlanDocument(c.plan)));
    if k == 0 then s else s.(stage := CommitOpen, commitments := Commitments(hash, c, k))
  }

  /** All have committed and the first k participants have revealed. */
  function Revealing(hash: Hash, c: Course, k: nat, stage: Stage): Session
    requires Full(c) && k <= Size(c)
  {
    NewSession(c.plan, hash(PlanDocument(c.plan))).(
      stage := stage, commitments := Commitments(hash, c, Size(c)), openings := Openings(hash, c, k))
  }

  /** All have revealed and capacity was confirmed. */
  function Finishing(hash: Hash, c: Course, stage: Stage, reason: Option<string>): Session
    requires Full(c)
  {
    Revealing(hash, c, Size(c), stage).(capacity := true, reason := reason)
  }

  /** The session after its first k commands: n commits, two routes, n reveals, two routes, and the three terminations. */
  function After(hash: Hash, c: Course, k: nat): Session
    requires Full(c) && k <= 2 * Size(c) + 7
  {
    var n := Size(c);
    if k <= n then Committing(hash, c, k)
    else if k == n + 1 then Revealing(hash, c, 0, CommitClosed)
    else if k <= 2 * n + 2 then Revealing(hash, c, k - n - 2, RevealOpen)
    else if k == 2 * n + 3 then Revealing(hash, c, n, Verify)
    else if k == 2 * n + 4 then Finishing(hash, c, Integrate, None)
    else Finishing(hash, c, Terminated, Some(ReasonFor(k - 2 * n - 5)))
  }

  function ReasonFor(i: nat): string
    requires i < 3
  {
    if i == 0 then "all_verified" else if i == 1 then "explicit_failure" else "capacity_blocked"
  }

  /** The command that takes the session from its k-th value to the next. */
  function CommandFor(hash: Hash, c: Course, k: nat): Command
    requires Full(c) && k < 2 * Size(c) + 7
  {
    var n, sid := Size(c), SessionId(c.plan);
    if k < n then Commit(sid, CommitStatement(hash, c, k))
    else if k < n + 2 then RouteOn(sid, false)
    else if k < 2 * n + 2 then Open(sid, RevealStatement(c, k - n - 2))
    else if k < 2 * n + 4 then RouteOn(sid, true)
    else End(sid, ReasonFor(k - 2 * n - 4))
  }

  // ----- each command advances

  /** The committed statements of the first k participants are stored. */
  ghost predicate Stores(hash: Hash, cas: Cas, c: Course, k: nat)
    requires Full(c)
  {
    forall i :: 0 <= i < k && i < Size(c) ==> StoresCommitment(hash, cas, c, i)
  }

  ghost predicate StoresCommitment(hash: Hash, cas: Cas, c: Course, i: nat)
    requires Full(c) && i < Size(c)
  {
    var document := StatementDocument(CommitStatement(hash, c, i));
    hash(document) in cas && cas[hash(document)] == document
  }

  /** Exactly the first k participants, each with the digest of its own statement. */
  ghost predicate HasFirst(m: map<Id, Digest>, c: Course, k: nat, digest: nat -> Digest)
    requires k <= Size(c)
  {
    && |m| == k
    && (forall p :: p in m <==> p in c.plan.participants[..k])
    && forall i :: 0 <= i < k ==> c.plan.participants[i] in m && m[c.plan.participants[i]] == digest(i)
  }

  ghost function CommitDigest(hash: Hash, c: Course): nat -> Digest
    requires Full(c)
  {
    (i: nat) => if i < Size(c) then hash(StatementDocument(CommitStatement(hash, c, i))) else ""
  }

  ghost function RevealDigest(hash: Hash, c: Course): nat -> Digest
    requires Full(c)
  {
    (i: nat) => if i < Size(c) then hash(StatementDocument(RevealStatement(c, i))) else ""
  }

  lemma FirstAndNext(m: map<Id, Digest>, c: Course, k: nat, digest: nat -> Digest)
    requires Full(c) && k < Size(c) && HasFirst(m, c, k, digest)
    ensures c.plan.participants[k] !in m
    ensures HasFirst(m[c.plan.participants[k] := digest(k)], c, k + 1, digest)
  {
    TakeOneMore(c.plan.participants, k);
    assert c.plan.participants[k] !in c.plan.participants[..k];
  }

  lemma {:induction false} CommitmentsAreFirst(hash: Hash, c: Course, k: nat)
    requires Full(c) && k <= Size(c)
    ensures HasFirst(Commitments(hash, c, k), c, k, CommitDigest(hash, c))
  {
    if k > 0 {
      CommitmentsAreFirst(hash, c, k - 1);
      FirstAndNext(Commitments(hash, c, k - 1), c, k - 1, CommitDigest(hash, c));
    }
  }

  lemma {:induction false} OpeningsAreFirst(hash: Hash, c: Course, k: nat)
    requires Full(c) && k <= Size(c)
    ensures HasFirst(Openings(hash, c, k), c, k, RevealDigest(hash, c))
  {
    if k > 0 {
      OpeningsAreFirst(hash, c, k - 1);
      FirstAndNext(Openings(hash, c, k - 1), c, k - 1, RevealDigest(hash, c));
    }
  }

  lemma AllOfThem(m: map<Id, Digest>, c: Course, digest: nat -> Digest, s: Session)
    requires Full(c) && HasFirst(m, c, Size(c), digest) && s.participants == c.plan.participants
    ensures m.Keys == Members(s) && |m| == Size(c)
  {
    assert c.plan.participants[..Size(c)] == c.plan.participants;
  }

  lemma NextToCommit(hash: Hash, c: Course, k: nat)
    requires Full(c) && k < Size(c)
    ensures c.plan.participants[k] !in Commitments(hash, c, k) && c.plan.participants[k] in c.plan.participants
  {
    CommitmentsAreFirst(hash, c, k);
    FirstAndNext(Commitments(hash, c, k), c, k, CommitDigest(hash, c));
  }

  lemma NextToReveal(hash: Hash, c: Course, k: nat)
    requires Full(c) && k < Size(c)
    ensures c.plan.participants[k] !in Openings(hash, c, k)
    ensures c.plan.participants[k] in Commitments(hash, c, Size(c))
    ensures Commitments(hash, c, Size(c))[c.plan.participants[k]] == hash(StatementDocument(CommitStatement(hash, c, k)))
  {
    OpeningsAreFirst(hash, c, k);
    FirstAndNext(Openings(hash, c, k), c, k, RevealDigest(hash, c));
    CommitmentsAreFirst(hash, c, Size(c));
    assert CommitDigest(hash, c)(k) == hash(StatementDocument(CommitStatement(hash, c, k)));
  }

  lemma CommitAdvances(hash: Hash, c: Course, k: nat)
    requires Full(c) && k < Size(c)
    ensures var st := CommitStatement(hash, c, k);
            CommitTo(Committing(hash, c, k), SessionId(c.plan), st, hash(StatementDocument(st)))
            == Advanced(Committing(hash, c, k + 1))
  {
    NextToCommit(hash, c, k);
  }

  /** An opening of the participant's own stored commitment is accepted once. */
  lemma OpeningAccepted(hash: Hash, cas: Cas, s: Session, committed: Statement, st: Statement)
    requires s.stage.RevealOpen? && committed.payload.Commitment? && st.payload.Reveal?
    requires st.payload.session == s.id && st.payload.participant == st.principal
    requires committed.payload.commitment == hash(OpeningDocument(st.payload.proposal, st.payload.nonce))
    requires hash(StatementDocument(committed)) in cas && cas[hash(StatementDocument(committed))] == StatementDocument(committed)
    requires st.principal in s.commitments && s.commitments[st.principal] == hash(StatementDocument(committed))
    requires st.principal !in s.openings
    ensures RevealTo(hash, cas, s, s.id, st, hash(StatementDocument(st)))
         == Advanced(s.(openings := s.openings[st.principal := hash(StatementDocument(st))]))
  {
  }

  lemma RevealAdvances(hash: Hash, cas: Cas, c: Course, k: nat)
    requires Full(c) && k < Size(c) && StoresCommitment(hash, cas, c, k)
    ensures var st := RevealStatement(c, k);
            RevealTo(hash, cas, Revealing(hash, c, k, RevealOpen), SessionId(c.plan), st, hash(StatementDocument(st)))
            == Advanced(Revealing(hash, c, k + 1, RevealOpen))
  {
    NextToReveal(hash, c, k);
    OpeningAccepted(hash, cas, Revealing(hash, c, k, RevealOpen), CommitStatement(hash, c, k), RevealStatement(c, k));
  }

  lemma CommitPhaseCloses(hash: Hash, c: Course)
    requires Full(c)
    ensures RouteOf(Committing(hash, c, Size(c)), false) == Advanced(Revealing(hash, c, 0, CommitClosed))
    ensures RouteOf(Revealing(hash, c, 0, CommitClosed), false) == Advanced(Revealing(hash, c, 0, RevealOpen))
  {
    CommitmentsAreFirst(hash, c, Size(c));
    AllOfThem(Commitments(hash, c, Size(c)), c, CommitDigest(hash, c), Committing(hash, c, Size(c)));
  }

  lemma RevealPhaseCloses(hash: Hash, c: Course)
    requires Full(c)
    ensures RouteOf(Revealing(hash, c, Size(c), RevealOpen), true) == Advanced(Revealing(hash, c, Size(c), Verify))
    ensures RouteOf(Revealing(hash, c, Size(c), Verify), true) == Advanced(Finishing(hash, c, Integrate, None))
  {
    OpeningsAreFirst(hash, c, Size(c));
    AllOfThem(Openings(hash, c, Size(c)), c, RevealDigest(hash, c), Revealing(hash, c, Size(c), RevealOpen));
  }

  lemma TerminationsAdvance(hash: Hash, c: Course)
    requires Full(c)
    ensures TerminateOf(Finishing(hash, c, Integrate, None), ReasonFor(0)) == Advanced(Finishing(hash, c, Terminated, Some(ReasonFor(0))))
    ensures forall i: nat :: i < 2 ==>
      TerminateOf(Finishing(hash, c, Terminated, Some(ReasonFor(i))), ReasonFor(i + 1))
      == Advanced(Finishing(hash, c, Terminated, Some(ReasonFor(i + 1))))
  {
  }

  // ----- the commands one after the other

  ghost predicate LeadsOn(hash: Hash, cas: Cas, c: Course, k: nat)
    requires Full(c) && k < 2 * Size(c) + 7
  {
    OutcomeOf(hash, cas, After(hash, c, k), CommandFor(hash, c, k)) == Advanced(After(hash, c, k + 1))
  }

  lemma CommitsAdvance(hash: Hash, cas: Cas, c: Course, k: nat)
    requires Full(c) && k < Size(c)
    ensures LeadsOn(hash, cas, c, k)
  {
    CommitAdvances(hash, c, k);
  }

  lemma FirstRoutesAdvance(hash: Hash, cas: Cas, c: Course, k: nat)
    requires Full(c) && Size(c) <= k < Size(c) + 2
    ensures LeadsOn(hash, cas, c, k)
  {
    CommitPhaseCloses(hash, c);
  }

  lemma RevealsAdvance(hash: Hash, cas: Cas, c: Course, k: nat)
    requires Full(c) && Size(c) + 2 <= k < 2 * Size(c) + 2 && StoresCommitment(hash, cas, c, k - Size(c) - 2)
    ensures LeadsOn(hash, cas, c, k)
  {
    RevealAdvances(hash, cas, c, k - Size(c) - 2);
  }

  lemma LastRoutesAdvance(hash: Hash, cas: Cas, c: Course, k: nat)
    requires Full(c) && 2 * Size(c) + 2 <= k < 2 * Size(c) + 4
    ensures LeadsOn(hash, cas, c, k)
  {
    RevealPhaseCloses(hash, c);
  }

  lemma EndsAdvance(hash: Hash, cas: Cas, c: Course, k: nat)
    requires Full(c) && 2 * Size(c) + 4 <= k < 2 * Size(c) + 7
    ensures LeadsOn(hash, cas, c, k)
  {
    TerminationsAdvance(hash, c);
  }

  /** Every command of the course is accepted and leads to the next value. */
  lemma CourseAdvances(hash: Hash, cas: Cas, c: Course, k: nat)
    requires Full(c) && k < 2 * Size(c) + 7 && Stores(hash, cas, c, k)
    ensures LeadsOn(hash, cas, c, k)
  {
    var n := Size(c);
    if k < n {
      CommitsAdvance(hash, cas, c, k);
    } else if k < n + 2 {
      FirstRoutesAdvance(hash, cas, c, k);
    } else if k < 2 * n + 2 {
      assert StoresCommitment(hash, cas, c, k - n - 2);
      RevealsAdvance(hash, cas, c, k);
    } else if k < 2 * n + 4 {
      LastRoutesAdvance(hash, cas, c, k);
    } else {
      EndsAdvance(hash, cas, c, k);
    }
  }

  // ----- how far a session value has come

  /** The number of commands behind a value of the course. */
  function Position(s: Session): int
  {
    if !s.stage.Terminated? then Rank(s)
    else 2 * |s.participants| + 5 + (if s.reason == Some("all_verified") then 0 else if s.reason == Some("explicit_failure") then 1 else 2)
  }

  lemma PhasePositions(hash: Hash, c: Course, k: nat, stage: Stage)
    requires Full(c) && k <= Size(c)
    ensures Position(Committing(hash, c, k)) == k
    ensures !stage.Terminated? ==> Position(Revealing(hash, c, k, stage)) == Size(c) + k + StageRank(stage)
    ensures !stage.Terminated? ==> Position(Finishing(hash, c, stage, None)) == 2 * Size(c) + StageRank(stage)
  {
    CommitmentsAreFirst(hash, c, k);
    CommitmentsAreFirst(hash, c, Size(c));
    OpeningsAreFirst(hash, c, k);
    OpeningsAreFirst(hash, c, Size(c));
  }

  ghost predicate StandsAt(hash: Hash, c: Course, k: nat)
    requires Full(c) && k <= 2 * Size(c) + 7
  {
    && Position(After(hash, c, k)) == k && After(hash, c, k).id == SessionId(c.plan)
    && After(hash, c, k).participants == c.plan.participants
  }

  lemma EarlyPositions(hash: Hash, c: Course, k: nat)
    requires Full(c) && k <= Size(c) + 1
    ensures StandsAt(hash, c, k)
  {
    PhasePositions(hash, c, if k <= Size(c) then k else 0, CommitClosed);
  }

  lemma MiddlePositions(hash: Hash, c: Course, k: nat)
    requires Full(c) && Size(c) + 2 <= k <= 2 * Size(c) + 2
    ensures StandsAt(hash, c, k)
  {
    PhasePositions(hash, c, k - Size(c) - 2, RevealOpen);
  }

  lemma LatePositions(hash: Hash, c: Course, k: nat)
    requires Full(c) && 2 * Size(c) + 3 <= k <= 2 * Size(c) + 7
    ensures StandsAt(hash, c, k)
  {
    PhasePositions(hash, c, Size(c), Verify);
    PhasePositions(hash, c, Size(c), Integrate);
  }

  /** The position of a value of the course is the number of commands that led to it. */
  lemma PositionCounts(hash: Hash, c: Course, k: nat)
    requires Full(c) && k <= 2 * Size(c) + 7
    ensures StandsAt(hash, c, k)
  {
    if k <= Size(c) + 1 {
      EarlyPositions(hash, c, k);
    } else if k <= 2 * Size(c) + 2 {
      MiddlePositions(hash, c, k);
    } else {
      LatePositions(hash, c, k);
    }
  }
}
