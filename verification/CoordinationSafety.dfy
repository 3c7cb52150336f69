/** Safety of the commit-reveal protocol over every run of the store, and the bound on its length. */
module CoordinationSafety {
  import opened Ids
  import opened Ledger
  import opened GenerationStore
  import opened Coordination

  datatype Command =
    | Create(plan: Plan)
    | Commit(sid: Id, statement: Statement)
    | Open(sid: Id, statement: Statement)
    | RouteOn(sid: Id, capacityNow: bool)
    | End(sid: Id, reason: string)
    | Elsewhere

  predicate Targets(c: Command, sid: Id)
  {
    !c.Create? && !c.Elsewhere? && c.sid == sid
  }

  /** What a command makes of the session it finds. */
  function OutcomeOf(hash: Hash, cas: Cas, s: Session, c: Command): Outcome
    requires !c.Create? && !c.Elsewhere?
  {
    match c
    case Commit(sid, st) => CommitTo(s, sid, st, hash(StatementDocument(st)))
    case Open(sid, st) => RevealTo(hash, cas, s, sid, st, hash(StatementDocument(st)))
    case RouteOn(_, capacityNow) => RouteOf(s, capacityNow)
    case End(_, reason) => TerminateOf(s, reason)
  }

  function StatementOf(c: Command): Option<Statement>
  {
    if c.Commit? || c.Open? then Some(c.statement) else None
  }

  /** Other components extend the ledger and the object store, but leave session entries alone. */
  ghost predicate Unrelated(hash: Hash, w: World, w': World)
  {
    && CasSound(hash, w'.cas) && Grows(w.cas, w'.cas)
    && ValidObjects(w'.manifest.objects) && Digests(w.manifest.objects) <= Digests(w'.manifest.objects)
    && forall e: Entry :: e.kind == "coordination-session" ==>
         (e in w'.manifest.objects <==> e in w.manifest.objects)
  }

  ghost predicate Next(hash: Hash, w: World, w': World, c: Command)
  {
    match c
    case Create(plan) => Creates(hash, w, w', plan)
    case Elsewhere => Unrelated(hash, w, w')
    case _ => exists s, s' :: Replaces(hash, w, w', c.sid, s, s', StatementOf(c)) && OutcomeOf(hash, w.cas, s, c) == Advanced(s')
  }

  // ----- the invariant

  ghost predicate CasSound(hash: Hash, cas: Cas)
  {
    forall d :: d in cas ==> hash(cas[d]) == d
  }

  ghost predicate Grows(cas: Cas, more: Cas)
  {
    forall d :: d in cas ==> d in more && more[d] == cas[d]
  }

  ghost predicate CommittedBy(cas: Cas, sid: Id, p: Id, d: Digest)
  {
    && d in cas && cas[d].StatementDocument? && cas[d].statement.principal == p
    && cas[d].statement.payload.Commitment?
    && cas[d].statement.payload.session == sid && cas[d].statement.payload.participant == p
  }

  /** The revealed statement of p opens what p committed to. */
  ghost predicate OpenedBy(hash: Hash, cas: Cas, sid: Id, p: Id, c: Digest, d: Digest)
  {
    && CommittedBy(cas, sid, p, c)
    && d in cas && cas[d].StatementDocument? && cas[d].statement.principal == p
    && cas[d].statement.payload.Reveal?
    && cas[d].statement.payload.session == sid && cas[d].statement.payload.participant == p
    && cas[c].statement.payload.commitment
       == hash(OpeningDocument(cas[d].statement.payload.proposal, cas[d].statement.payload.nonce))
  }

  predicate Complete(s: Session)
  {
    s.commitments.Keys == Members(s) && s.openings.Keys == Members(s)
  }

  /** Which principals have committed and opened at each stage, and what capacity and reason imply. */
  ghost predicate Shape(s: Session)
  {
    && s.openings.Keys <= s.commitments.Keys <= Members(s)
    && (s.openings.Keys != {} ==> s.commitments.Keys == Members(s))
    && (s.stage.Created? || s.stage.CommitOpen? || s.stage.CommitClosed? ==> s.openings == map[])
    && (s.stage.CommitClosed? || s.stage.RevealOpen? || s.stage.Verify? || s.stage.Integrate? ==>
          s.commitments.Keys == Members(s))
    && (s.stage.Verify? || s.stage.Integrate? ==> Complete(s))
    && (s.capacity ==> Complete(s)) && (s.stage.Integrate? ==> s.capacity)
    && (s.reason.Some? <==> s.stage.Terminated?)
    && (s.reason == Some("all_verified") ==> s.capacity)
  }

  /** Every commitment is the principal's own, and every opening opens it. */
  ghost predicate Evidence(hash: Hash, cas: Cas, s: Session)
  {
    && (forall p :: p in s.commitments ==> CommittedBy(cas, s.id, p, s.commitments[p]))
    && (forall p :: p in s.openings ==>
          p in s.commitments && OpenedBy(hash, cas, s.id, p, s.commitments[p], s.openings[p]))
  }

  /** What holds of every session value ever recorded. */
  ghost predicate SessionInv(hash: Hash, cas: Cas, s: Session)
  {
    Shape(s) && Evidence(hash, cas, s)
  }

  /** Every recorded session, active or withdrawn, can be read and satisfies the invariant. */
  ghost predicate Sound(hash: Hash, w: World)
  {
    && CasSound(hash, w.cas) && ValidObjects(w.manifest.objects)
    && forall i :: 0 <= i < |w.manifest.objects| && w.manifest.objects[i].kind == "coordination-session" ==>
         RecordsSession(hash, w.cas, w.manifest.objects[i].digest)
  }

  ghost predicate RecordsSession(hash: Hash, cas: Cas, d: Digest)
  {
    d in cas && cas[d].SessionDocument? && SessionInv(hash, cas, cas[d].session)
  }

  /** A workspace before any coordination. */
  ghost predicate Fresh(hash: Hash, w: World)
  {
    && CasSound(hash, w.cas) && ValidObjects(w.manifest.objects)
    && forall e: Entry :: e in w.manifest.objects ==> e.kind != "coordination-session"
  }

  lemma EvidenceGrows(hash: Hash, cas: Cas, more: Cas, s: Session)
    requires Evidence(hash, cas, s) && Grows(cas, more)
    ensures Evidence(hash, more, s)
  {
  }

  lemma RecordsGrows(hash: Hash, cas: Cas, more: Cas, d: Digest)
    requires RecordsSession(hash, cas, d) && Grows(cas, more)
    ensures RecordsSession(hash, more, d)
  {
    EvidenceGrows(hash, cas, more, cas[d].session);
  }

  lemma StoredGrows(hash: Hash, cas: Cas, document: Document)
    requires CasSound(hash, cas) && Injective(hash)
    ensures CasSound(hash, cas[hash(document) := document]) && Grows(cas, cas[hash(document) := document])
  {
    if hash(document) in cas {
      assert hash(cas[hash(document)]) == hash(document);
    }
  }

  // ----- one command on one session

  /** The properties every advance has, whatever the command. */
  ghost predicate Advances(s: Session, s': Session)
  {
    && s'.id == s.id && s'.plan == s.plan && s'.participants == s.participants
    && (forall p :: p in s.commitments ==> p in s'.commitments && s'.commitments[p] == s.commitments[p])
    && (forall p :: p in s.openings ==> p in s'.openings && s'.openings[p] == s.openings[p])
    && (!s.stage.Created? && !s.stage.CommitOpen? ==> s'.commitments == s.commitments)
    && (s.capacity ==> s'.capacity)
    && (s.stage.Terminated? ==> s' == s.(reason := s'.reason))
  }

  lemma CommandAdvances(hash: Hash, cas: Cas, s: Session, c: Command, s': Session)
    requires !c.Create? && !c.Elsewhere? && OutcomeOf(hash, cas, s, c) == Advanced(s')
    ensures Advances(s, s')
  {
  }

  lemma CommandKeepsShape(hash: Hash, cas: Cas, s: Session, c: Command, s': Session)
    requires Shape(s) && !c.Create? && !c.Elsewhere? && OutcomeOf(hash, cas, s, c) == Advanced(s')
    ensures Shape(s')
  {
  }

  lemma CommitKeepsEvidence(hash: Hash, cas: Cas, s: Session, st: Statement, s': Session)
    requires Evidence(hash, cas, s) && hash(StatementDocument(st)) in cas
    requires cas[hash(StatementDocument(st))] == StatementDocument(st)
    requires CommitTo(s, s.id, st, hash(StatementDocument(st))) == Advanced(s')
    requires s.openings == map[]
    ensures Evidence(hash, cas, s')
  {
    assert CommittedBy(cas, s.id, st.principal, hash(StatementDocument(st)));
  }

  lemma OpenKeepsEvidence(hash: Hash, cas: Cas, s: Session, st: Statement, s': Session)
    requires Evidence(hash, cas, s) && hash(StatementDocument(st)) in cas
    requires cas[hash(StatementDocument(st))] == StatementDocument(st)
    requires RevealTo(hash, cas, s, s.id, st, hash(StatementDocument(st))) == Advanced(s')
    ensures Evidence(hash, cas, s')
  {
    assert OpenedBy(hash, cas, s.id, st.principal, s.commitments[st.principal], hash(StatementDocument(st)));
  }

  lemma RevealToGrows(hash: Hash, cas: Cas, more: Cas, s: Session, sid: Id, st: Statement, d: Digest, s': Session)
    requires Grows(cas, more) && RevealTo(hash, cas, s, sid, st, d) == Advanced(s')
    ensures RevealTo(hash, more, s, sid, st, d) == Advanced(s')
  {
  }

  lemma StoredBothGrow(hash: Hash, cas: Cas, s: Session, st: Option<Statement>)
    requires CasSound(hash, cas) && Injective(hash)
    ensures var more := Stored(hash, cas, s, st);
            && CasSound(hash, more) && Grows(cas, more)
            && hash(SessionDocument(s)) in more && more[hash(SessionDocument(s))] == SessionDocument(s)
            && (st.Some? ==> hash(StatementDocument(st.value)) in more
                             && more[hash(StatementDocument(st.value))] == StatementDocument(st.value))
  {
    StoredGrows(hash, cas, SessionDocument(s));
    if st.Some? {
      StoredGrows(hash, cas[hash(SessionDocument(s)) := SessionDocument(s)], StatementDocument(st.value));
    }
  }

  lemma CommandKeepsEvidence(hash: Hash, cas: Cas, more: Cas, s: Session, c: Command, s': Session)
    requires (c.Commit? || c.Open?) && s.id == c.sid
    requires Evidence(hash, more, s) && Grows(cas, more) && Shape(s)
    requires hash(StatementDocument(c.statement)) in more
    requires more[hash(StatementDocument(c.statement))] == StatementDocument(c.statement)
    requires OutcomeOf(hash, cas, s, c) == Advanced(s')
    ensures Evidence(hash, more, s')
  {
    if c.Commit? {
      CommitKeepsEvidence(hash, more, s, c.statement, s');
    } else {
      RevealToGrows(hash, cas, more, s, s.id, c.statement, hash(StatementDocument(c.statement)), s');
      OpenKeepsEvidence(hash, more, s, c.statement, s');
    }
  }

  lemma QuietKeepsEvidence(hash: Hash, cas: Cas, s: Session, c: Command, s': Session)
    requires Evidence(hash, cas, s) && (c.RouteOn? || c.End?) && OutcomeOf(hash, cas, s, c) == Advanced(s')
    ensures Evidence(hash, cas, s')
  {
  }

  lemma QuietOutcome(hash: Hash, cas: Cas, more: Cas, s: Session, c: Command)
    requires c.RouteOn? || c.End?
    ensures OutcomeOf(hash, cas, s, c) == OutcomeOf(hash, more, s, c)
  {
  }

  lemma CommandKeepsInv(hash: Hash, cas: Cas, s: Session, c: Command, s': Session)
    requires SessionInv(hash, cas, s) && CasSound(hash, cas) && Injective(hash)
    requires !c.Create? && !c.Elsewhere? && c.sid == s.id && OutcomeOf(hash, cas, s, c) == Advanced(s')
    ensures SessionInv(hash, Stored(hash, cas, s', StatementOf(c)), s')
  {
    var more := Stored(hash, cas, s', StatementOf(c));
    CommandKeepsShape(hash, cas, s, c, s');
    StoredBothGrow(hash, cas, s', StatementOf(c));
    EvidenceGrows(hash, cas, more, s);
    if c.Commit? || c.Open? {
      CommandKeepsEvidence(hash, cas, more, s, c, s');
    } else {
      QuietOutcome(hash, cas, more, s, c);
      QuietKeepsEvidence(hash, more, s, c, s');
    }
  }

  // ----- one command on the world

  lemma ReplacementEntries(hash: Hash, m: Manifest, earlier: Digest, s: Session, st: Option<Statement>, e: Entry)
    requires e in Replacement(hash, m, earlier, s, st).objects && e.kind == "coordination-session"
    ensures e.digest == hash(SessionDocument(s))
            || exists i :: 0 <= i < |m.objects| && m.objects[i].digest == e.digest
                           && m.objects[i].kind == "coordination-session"
  {
    var withdrawn := Withdraw(m.objects, earlier);
    if e in withdrawn {
      var i :| 0 <= i < |withdrawn| && withdrawn[i] == e;
      assert m.objects[i].digest == e.digest && m.objects[i].kind == e.kind;
    }
  }

  lemma ReplacesKeepsSound(hash: Hash, w: World, w': World, c: Command, s: Session, s': Session)
    requires Injective(hash) && Sound(hash, w) && !c.Create? && !c.Elsewhere?
    requires Replaces(hash, w, w', c.sid, s, s', StatementOf(c)) && OutcomeOf(hash, w.cas, s, c) == Advanced(s')
    ensures Sound(hash, w')
  {
    var i := Find(w, c.sid).value;
    var earlier := w.manifest.objects[i].digest;
    assert RecordsSession(hash, w.cas, earlier);
    StoredBothGrow(hash, w.cas, s', StatementOf(c));
    CommandKeepsInv(hash, w.cas, s, c, s');
    forall j | 0 <= j < |w'.manifest.objects| && w'.manifest.objects[j].kind == "coordination-session"
      ensures RecordsSession(hash, w'.cas, w'.manifest.objects[j].digest)
    {
      var e := w'.manifest.objects[j];
      ReplacementEntries(hash, w.manifest, earlier, s', StatementOf(c), e);
      if e.digest != hash(SessionDocument(s')) {
        RecordsGrows(hash, w.cas, w'.cas, e.digest);
      }
    }
  }

  /** The stored plan and session of a creation. */
  lemma CreatedIsSound(hash: Hash, cas: Cas, more: Cas, plan: Plan)
    requires Injective(hash) && CasSound(hash, cas)
    requires var planDigest := hash(PlanDocument(plan));
             var s := NewSession(plan, planDigest);
             more == cas[planDigest := PlanDocument(plan)][hash(SessionDocument(s)) := SessionDocument(s)]
    ensures CasSound(hash, more) && Grows(cas, more)
    ensures RecordsSession(hash, more, hash(SessionDocument(NewSession(plan, hash(PlanDocument(plan))))))
  {
    var planDigest := hash(PlanDocument(plan));
    var s := NewSession(plan, planDigest);
    StoredGrows(hash, cas, PlanDocument(plan));
    StoredGrows(hash, cas[planDigest := PlanDocument(plan)], SessionDocument(s));
    assert SessionInv(hash, more, s);
  }

  lemma CreatesKeepsSound(hash: Hash, w: World, w': World, plan: Plan)
    requires Injective(hash) && Sound(hash, w) && Creates(hash, w, w', plan)
    ensures Sound(hash, w')
  {
    CreatedIsSound(hash, w.cas, w'.cas, plan);
    forall j | 0 <= j < |w'.manifest.objects| && w'.manifest.objects[j].kind == "coordination-session"
      ensures RecordsSession(hash, w'.cas, w'.manifest.objects[j].digest)
    {
      if j < |w.manifest.objects| {
        assert w'.manifest.objects[j] == w.manifest.objects[j];
        RecordsGrows(hash, w.cas, w'.cas, w.manifest.objects[j].digest);
      }
    }
  }

  lemma UnrelatedKeepsSound(hash: Hash, w: World, w': World)
    requires Sound(hash, w) && Unrelated(hash, w, w')
    ensures Sound(hash, w')
  {
    forall j | 0 <= j < |w'.manifest.objects| && w'.manifest.objects[j].kind == "coordination-session"
      ensures RecordsSession(hash, w'.cas, w'.manifest.objects[j].digest)
    {
      var e := w'.manifest.objects[j];
      assert e in w'.manifest.objects && e in w.manifest.objects;
      var i :| 0 <= i < |w.manifest.objects| && w.manifest.objects[i] == e;
      RecordsGrows(hash, w.cas, w'.cas, w.manifest.objects[i].digest);
    }
  }

  lemma StepKeepsSound(hash: Hash, w: World, w': World, c: Command)
    requires Injective(hash) && Sound(hash, w) && Next(hash, w, w', c)
    ensures Sound(hash, w')
  {
    if c.Create? {
      CreatesKeepsSound(hash, w, w', c.plan);
    } else if c.Elsewhere? {
      UnrelatedKeepsSound(hash, w, w');
    } else {
      var s, s' :| Replaces(hash, w, w', c.sid, s, s', StatementOf(c)) && OutcomeOf(hash, w.cas, s, c) == Advanced(s');
      ReplacesKeepsSound(hash, w, w', c, s, s');
    }
  }

  // ----- runs

  ghost predicate IsRun(hash: Hash, worlds: seq<World>, commands: seq<Command>)
  {
    && |worlds| == |commands| + 1 && Fresh(hash, worlds[0])
    && forall i :: 0 <= i < |commands| ==> RunStep(hash, worlds, commands, i)
  }

  ghost predicate RunStep(hash: Hash, worlds: seq<World>, commands: seq<Command>, i: nat)
    requires i < |commands| && |worlds| == |commands| + 1
  {
    Next(hash, worlds[i], worlds[i + 1], commands[i])
  }

  lemma FreshIsSound(hash: Hash, w: World)
    requires Fresh(hash, w)
    ensures Sound(hash, w)
  {
    assert forall i :: 0 <= i < |w.manifest.objects| ==> w.manifest.objects[i] in w.manifest.objects;
  }

  /** What the first world satisfies and every step keeps holds throughout. */
  lemma {:induction false} Invariance<W(!new), C(!new)>(inv: W -> bool, next: (W, W, C) -> bool, worlds: seq<W>,
                                                       commands: seq<C>, n: nat)
    requires |worlds| == |commands| + 1 && n <= |commands| && inv(worlds[0])
    requires forall i :: 0 <= i < |commands| ==> next(worlds[i], worlds[i + 1], commands[i])
    requires forall w, w', c :: inv(w) && next(w, w', c) ==> inv(w')
    ensures inv(worlds[n])
  {
    if n > 0 {
      Invariance(inv, next, worlds, commands, n - 1);
    }
  }

  lemma RunIsSound(hash: Hash, worlds: seq<World>, commands: seq<Command>, n: nat)
    requires Injective(hash) && IsRun(hash, worlds, commands) && n <= |commands|
    ensures Sound(hash, worlds[n])
  {
    var inv := w => Sound(hash, w);
    var next := (w, w', c) => Next(hash, w, w', c);
    FreshIsSound(hash, worlds[0]);
    forall i | 0 <= i < |commands| ensures next(worlds[i], worlds[i + 1], commands[i]) {
      assert RunStep(hash, worlds, commands, i);
    }
    forall w, w', c | inv(w) && next(w, w', c) ensures inv(w') {
      StepKeepsSound(hash, w, w', c);
    }
    Invariance(inv, next, worlds, commands, n);
  }

  /**
   * In every reachable world, for every session entry ever recorded: only participants commit, only committers open,
   * nobody opens before everybody committed, every opening opens its own commitment, and a session that was
   * declared capacity-satisfied or all_verified has all commitments and all openings.
   */
  lemma CommitRevealSafety(hash: Hash, worlds: seq<World>, commands: seq<Command>, n: nat, e: Entry)
    requires Injective(hash) && IsRun(hash, worlds, commands) && n <= |commands|
    requires e in worlds[n].manifest.objects && e.kind == "coordination-session"
    ensures e.digest in worlds[n].cas && worlds[n].cas[e.digest].SessionDocument?
    ensures var s := worlds[n].cas[e.digest].session;
            && s.openings.Keys <= s.commitments.Keys <= Members(s)
            && (s.openings.Keys != {} ==> s.commitments.Keys == Members(s))
            && (forall p :: p in s.openings ==>
                  p in s.commitments && OpenedBy(hash, worlds[n].cas, s.id, p, s.commitments[p], s.openings[p]))
            && (s.capacity || s.reason == Some("all_verified") ==> Complete(s))
  {
    RunIsSound(hash, worlds, commands, n);
    var i :| 0 <= i < |worlds[n].manifest.objects| && worlds[n].manifest.objects[i] == e;
    assert RecordsSession(hash, worlds[n].cas, worlds[n].manifest.objects[i].digest);
  }

  /** A commitment fixes the proposal: two openings of it reveal the same proposal and nonce. */
  lemma CommitmentBinds(hash: Hash, cas: Cas, sid: Id, p: Id, c: Digest, d: Digest, d': Digest)
    requires Injective(hash) && OpenedBy(hash, cas, sid, p, c, d) && OpenedBy(hash, cas, sid, p, c, d')
    ensures cas[d].statement.payload.proposal == cas[d'].statement.payload.proposal
    ensures cas[d].statement.payload.nonce == cas[d'].statement.payload.nonce
  {
    var a := OpeningDocument(cas[d].statement.payload.proposal, cas[d].statement.payload.nonce);
    var b := OpeningDocument(cas[d'].statement.payload.proposal, cas[d'].statement.payload.nonce);
    assert hash(a) == hash(b);
  }
}
