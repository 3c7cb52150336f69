/** The commit-reveal coordination commands over the generation store. */
module Coordination {
  import opened Ids
  import opened Ledger
  import opened GenerationStore

  type Cas = map<Digest, Document>

  /** A manifest together with the objects it can be read against. */
  datatype World = World(manifest: Manifest, cas: Cas)

  datatype Failure =
    | InputInvalid
    | SessionMissing
    | SignatureInvalid
    | StateInvalid
    | BindingInvalid
    | DuplicateEvent
    | WithoutCommitment
    | CommitRevealMismatch
    | RoutePreconditionUnsatisfied
    | CapacityBlocked
    | SuccessTerminationUnsatisfied
    | ApplyRequired
    | StoreRefused(result: CommitResult)

  datatype Outcome = Advanced(session: Session) | Refused(failure: Failure)

  datatype Response = Done(generation: Digest, session: Session) | Failed(failure: Failure)

  function Members(s: Session): set<Id>
  {
    set p | p in s.participants
  }

  // ----- transitions of one session

  /** coordination_commit_v5 */
  function CommitTo(s: Session, sid: Id, st: Statement, digest: Digest): Outcome
  {
    if !st.payload.Commitment? then Refused(SignatureInvalid)
    else if !s.stage.Created? && !s.stage.CommitOpen? then Refused(StateInvalid)
    else if st.payload.session != sid || st.payload.participant != st.principal || st.principal !in s.participants
    then Refused(BindingInvalid)
    else if st.principal in s.commitments then Refused(DuplicateEvent)
    else Advanced(s.(stage := CommitOpen, commitments := s.commitments[st.principal := digest]))
  }

  /** What a committed statement promises to open to. */
  function PromisedOpening(cas: Cas, commitment: Digest): Option<Digest>
  {
    if commitment in cas && cas[commitment].StatementDocument? && cas[commitment].statement.payload.Commitment?
    then Some(cas[commitment].statement.payload.commitment) else None
  }

  /** coordination_reveal_v5 */
  function RevealTo(hash: Hash, cas: Cas, s: Session, sid: Id, st: Statement, digest: Digest): Outcome
  {
    if !st.payload.Reveal? then Refused(SignatureInvalid)
    else if !s.stage.RevealOpen? then Refused(StateInvalid)
    else if st.payload.session != sid || st.payload.participant != st.principal then Refused(BindingInvalid)
    else if st.principal !in s.commitments then Refused(WithoutCommitment)
    else if s.commitments[st.principal] !in cas then Refused(InputInvalid)
    else if PromisedOpening(cas, s.commitments[st.principal])
            != Some(hash(OpeningDocument(st.payload.proposal, st.payload.nonce)))
    then Refused(CommitRevealMismatch)
    else if st.principal in s.openings then Refused(DuplicateEvent)
    else Advanced(s.(openings := s.openings[st.principal := digest]))
  }

  /** coordination_route_v5; capacityNow is the verdict of the scientific audit. */
  function RouteOf(s: Session, capacityNow: bool): Outcome
  {
    if s.stage.CommitOpen? && s.commitments.Keys == Members(s) then Advanced(s.(stage := CommitClosed))
    else if s.stage.CommitClosed? then Advanced(s.(stage := RevealOpen))
    else if s.stage.RevealOpen? && s.openings.Keys == Members(s) then Advanced(s.(stage := Verify))
    else if s.stage.Verify? then
      if capacityNow then Advanced(s.(stage := Integrate, capacity := true)) else Refused(CapacityBlocked)
    else Refused(RoutePreconditionUnsatisfied)
  }

  /** coordination_terminate_v5 */
  function TerminateOf(s: Session, reason: string): Outcome
  {
    if !s.stage.Integrate? && reason == "all_verified" then Refused(SuccessTerminationUnsatisfied)
    else Advanced(s.(stage := Terminated, reason := Some(reason)))
  }

  function NewSession(plan: Plan, planDigest: Digest): Session
  {
    Session("session:" + plan.planId, Created, planDigest, plan.participants, map[], map[], false, None)
  }

  // ----- the ledger around a session

  predicate IsActiveSession(e: Entry)
  {
    e.kind == "coordination-session" && e.lifecycle.Active?
  }

  /** Entry i is an active session with this identifier. */
  predicate Holds(w: World, sid: Id, i: nat)
  {
    && i < |w.manifest.objects| && IsActiveSession(w.manifest.objects[i])
    && w.manifest.objects[i].digest in w.cas
    && w.cas[w.manifest.objects[i].digest].SessionDocument?
    && w.cas[w.manifest.objects[i].digest].session.id == sid
  }

  /** All active session objects can be read. */
  predicate Readable(w: World)
  {
    forall i :: 0 <= i < |w.manifest.objects| && IsActiveSession(w.manifest.objects[i]) ==>
      w.manifest.objects[i].digest in w.cas
  }

  /** _session: the one active session with this identifier. */
  function Find(w: World, sid: Id): (r: Option<nat>)
    ensures r.Some? ==> Holds(w, sid, r.value)
  {
    if !Readable(w) then None
    else
      var found := OnlyOne(Where(|w.manifest.objects|, (i: nat) => Holds(w, sid, i)));
      assert found.Some? ==> found.value in Where(|w.manifest.objects|, (i: nat) => Holds(w, sid, i));
      found
  }

  function SessionAt(w: World, sid: Id, i: nat): Session
    requires Holds(w, sid, i)
  {
    w.cas[w.manifest.objects[i].digest].session
  }

  /** Every entry with the digest is marked withdrawn. */
  function Withdraw(objects: seq<Entry>, digest: Digest): (r: seq<Entry>)
    ensures |r| == |objects|
  {
    seq(|objects|, i requires 0 <= i < |objects| =>
      if objects[i].digest == digest then objects[i].(lifecycle := Withdrawn) else objects[i])
  }

  function SessionEntry(digest: Digest, sources: seq<Digest>): Entry
  {
    Entry(digest, "coordination-session", "coordination-session@0.5.0", sources, None, None, Active)
  }

  function EventEntry(m: Manifest, earlier: Digest, st: Statement, digest: Digest): Entry
  {
    Entry(digest, "coordination-event", "signed-statement@0.5.0", [earlier], Some(st.key), Some(m.context.trustPolicy), Active)
  }

  /** digest[7:] */
  function Tail(digest: Digest): string
  {
    if |digest| < 7 then "" else digest[7..]
  }

  function WithEvent(hash: Hash, m: Manifest, session: Digest, subjects: set<Digest>): seq<Event>
  {
    m.history + [NewEvent(hash, m.history, "history:coordination:" + Tail(session), "coordination_transition", subjects)]
  }

  /** The payload _replace_session commits. */
  function Replacement(hash: Hash, m: Manifest, earlier: Digest, s: Session, st: Option<Statement>): Manifest
  {
    var digest := hash(SessionDocument(s));
    match st
    case None =>
      m.(objects := Withdraw(m.objects, earlier) + [SessionEntry(digest, [earlier])],
         history := WithEvent(hash, m, digest, {digest}))
    case Some(statement) =>
      var event := hash(StatementDocument(statement));
      m.(objects := Withdraw(m.objects, earlier) + [EventEntry(m, earlier, statement, event), SessionEntry(digest, [earlier, event])],
         history := WithEvent(hash, m, digest, {digest, event}))
  }

  function Stored(hash: Hash, cas: Cas, s: Session, st: Option<Statement>): Cas
  {
    var withSession := cas[hash(SessionDocument(s)) := SessionDocument(s)];
    if st.None? then withSession else withSession[hash(StatementDocument(st.value)) := StatementDocument(st.value)]
  }

  function Creation(hash: Hash, m: Manifest, plan: Plan): Manifest
  {
    var planDigest := hash(PlanDocument(plan));
    var digest := hash(SessionDocument(NewSession(plan, planDigest)));
    m.(objects := m.objects + [Entry(planDigest, "coordination-plan", "coordination-plan@0.5.0", [], None, None, Active),
                               SessionEntry(digest, [planDigest])],
       history := WithEvent(hash, m, digest, {planDigest, digest}))
  }

  // ----- what one committed command does to the world

  ghost predicate Commits(hash: Hash, w: World, w': World, payload: Manifest)
  {
    Acceptable(hash, payload, true) && w'.manifest == Built(hash, payload, Some(IdOf(hash, w.manifest)))
  }

  ghost predicate Replaces(hash: Hash, w: World, w': World, sid: Id, s: Session, s': Session, st: Option<Statement>)
  {
    && Find(w, sid).Some? && SessionAt(w, sid, Find(w, sid).value) == s
    && Commits(hash, w, w', Replacement(hash, w.manifest, w.manifest.objects[Find(w, sid).value].digest, s', st))
    && w'.cas == Stored(hash, w.cas, s', st)
  }

  ghost predicate Creates(hash: Hash, w: World, w': World, plan: Plan)
  {
    var planDigest := hash(PlanDocument(plan));
    var s := NewSession(plan, planDigest);
    && Commits(hash, w, w', Creation(hash, w.manifest, plan))
    && w'.cas == w.cas[planDigest := PlanDocument(plan)][hash(SessionDocument(s)) := SessionDocument(s)]
  }

  /** The manifest behind CURRENT, if it can be loaded. */
  function Loaded(store: Store): Option<Manifest>
    reads store
  {
    if store.current.Some? then Load(store.hash, store.files, store.current.value) else None
  }

  /** The commit of a payload built on generation m goes through. */
  ghost predicate GoesThrough(hash: Hash, files: Files, current: Option<Digest>, m: Manifest, payload: Manifest)
  {
    && current == Some(IdOf(hash, m)) && Acceptable(hash, payload, true)
    && var built := Built(hash, payload, Some(IdOf(hash, m)));
       (IdOf(hash, built) in files ==> files[IdOf(hash, built)] == File(IdOf(hash, built), built, true))
  }

  /** What a command decides before it touches the store: the first failing check, if any. */
  function Gate(found: bool, verified: bool, outcome: Outcome, apply: bool): Option<Failure>
  {
    if !found then Some(SessionMissing)
    else if !verified then Some(SignatureInvalid)
    else if outcome.Refused? then Some(outcome.failure)
    else if !apply then Some(ApplyRequired)
    else None
  }

  function Targeted(w: World, sid: Id): Option<Session>
  {
    if Find(w, sid).Some? then Some(SessionAt(w, sid, Find(w, sid).value)) else None
  }

  function ActiveDigest(m: Manifest, cas: Cas, sid: Id): Digest
  {
    if Find(World(m, cas), sid).Some? then m.objects[Find(World(m, cas), sid).value].digest else ""
  }

  /** _replace_session: m was read when the command started, possibly before other commits. */
  method ReplaceSession(store: Store, m: Manifest, earlier: Digest, s: Session, st: Option<Statement>)
    returns (r: Response)
    modifies store
    ensures store.cas == Stored(store.hash, old(store.cas), s, st)
    ensures r.Done? ==>
              var payload := Replacement(store.hash, m, earlier, s, st);
              && old(store.current) == Some(IdOf(store.hash, m)) && Acceptable(store.hash, payload, true)
              && Loaded(store) == Some(Built(store.hash, payload, Some(IdOf(store.hash, m)))) && r.session == s
    ensures r.Done? <==> GoesThrough(store.hash, old(store.files), old(store.current), m, Replacement(store.hash, m, earlier, s, st))
    ensures r.Failed? ==> r.failure.StoreRefused? && store.current == old(store.current) && store.files == old(store.files)
  {
    var digest := store.PutJson(SessionDocument(s));
    if st.Some? {
      var _ := store.PutJson(StatementDocument(st.value));
    }
    var payload := Replacement(store.hash, m, earlier, s, st);
    var result := store.Commit(payload, Some(IdOf(store.hash, m)), true, NoFault);
    if result.Committed? {
      r := Done(result.id, s);
    } else {
      r := Failed(StoreRefused(result));
    }
  }

  method CommitProposal(store: Store, m: Manifest, sid: Id, st: Statement, verified: bool, apply: bool)
    returns (r: Response)
    modifies store
    ensures r.Done? ==>
              var w := World(m, old(store.cas));
              && old(store.current) == Some(IdOf(store.hash, m)) && Loaded(store).Some? && verified
              && Find(w, sid).Some?
              && CommitTo(SessionAt(w, sid, Find(w, sid).value), sid, st, store.hash(StatementDocument(st)))
                 == Advanced(r.session)
              && Replaces(store.hash, w, World(Loaded(store).value, store.cas), sid,
                          SessionAt(w, sid, Find(w, sid).value), r.session, Some(st))
    ensures var target := Targeted(World(m, old(store.cas)), sid);
            var outcome := if target.None? then Refused(SessionMissing)
                           else CommitTo(target.value, sid, st, store.hash(StatementDocument(st)));
            var gate := Gate(target.Some?, verified, outcome, apply);
            && (gate.Some? ==> r == Failed(gate.value) && store.cas == old(store.cas))
            && (gate.None? ==>
                  (r.Done? <==> GoesThrough(store.hash, old(store.files), old(store.current), m,
                                            Replacement(store.hash, m, ActiveDigest(m, old(store.cas), sid),
                                                        outcome.session, Some(st)))))
    ensures r.Failed? ==> store.current == old(store.current) && store.files == old(store.files)
  {
    var w := World(m, store.cas);
    var found := Find(w, sid);
    if found.None? {
      return Failed(SessionMissing);
    }
    if !verified {
      return Failed(SignatureInvalid);
    }
    var outcome := CommitTo(SessionAt(w, sid, found.value), sid, st, store.hash(StatementDocument(st)));
    if outcome.Refused? {
      return Failed(outcome.failure);
    }
    if !apply {
      return Failed(ApplyRequired);
    }
    r := ReplaceSession(store, m, m.objects[found.value].digest, outcome.session, Some(st));
  }

  method RevealProposal(store: Store, m: Manifest, sid: Id, st: Statement, verified: bool, apply: bool)
    returns (r: Response)
    modifies store
    ensures r.Done? ==>
              var w := World(m, old(store.cas));
              && old(store.current) == Some(IdOf(store.hash, m)) && Loaded(store).Some? && verified
              && Find(w, sid).Some?
              && RevealTo(store.hash, w.cas, SessionAt(w, sid, Find(w, sid).value), sid, st,
                          store.hash(StatementDocument(st))) == Advanced(r.session)
              && Replaces(store.hash, w, World(Loaded(store).value, store.cas), sid,
                          SessionAt(w, sid, Find(w, sid).value), r.session, Some(st))
    ensures var target := Targeted(World(m, old(store.cas)), sid);
            var outcome := if target.None? then Refused(SessionMissing)
                           else RevealTo(store.hash, old(store.cas), target.value, sid, st,
                                         store.hash(StatementDocument(st)));
            var gate := Gate(target.Some?, verified, outcome, apply);
            && (gate.Some? ==> r == Failed(gate.value) && store.cas == old(store.cas))
            && (gate.None? ==>
                  (r.Done? <==> GoesThrough(store.hash, old(store.files), old(store.current), m,
                                            Replacement(store.hash, m, ActiveDigest(m, old(store.cas), sid),
                                                        outcome.session, Some(st)))))
    ensures r.Failed? ==> store.current == old(store.current) && store.files == old(store.files)
  {
    var w := World(m, store.cas);
    var found := Find(w, sid);
    if found.None? {
      return Failed(SessionMissing);
    }
    if !verified {
      return Failed(SignatureInvalid);
    }
    var outcome := RevealTo(store.hash, w.cas, SessionAt(w, sid, found.value), sid, st,
                            store.hash(StatementDocument(st)));
    if outcome.Refused? {
      return Failed(outcome.failure);
    }
    if !apply {
      return Failed(ApplyRequired);
    }
    r := ReplaceSession(store, m, m.objects[found.value].digest, outcome.session, Some(st));
  }

  method Route(store: Store, m: Manifest, sid: Id, capacityNow: bool, apply: bool) returns (r: Response)
    modifies store
    ensures r.Done? ==>
              var w := World(m, old(store.cas));
              && old(store.current) == Some(IdOf(store.hash, m)) && Loaded(store).Some?
              && Find(w, sid).Some?
              && RouteOf(SessionAt(w, sid, Find(w, sid).value), capacityNow) == Advanced(r.session)
              && Replaces(store.hash, w, World(Loaded(store).value, store.cas), sid,
                          SessionAt(w, sid, Find(w, sid).value), r.session, None)
    ensures var target := Targeted(World(m, old(store.cas)), sid);
            var outcome := if target.None? then Refused(SessionMissing) else RouteOf(target.value, capacityNow);
            var gate := Gate(target.Some?, true, outcome, apply);
            && (gate.Some? ==> r == Failed(gate.value) && store.cas == old(store.cas))
            && (gate.None? ==>
                  (r.Done? <==> GoesThrough(store.hash, old(store.files), old(store.current), m,
                                            Replacement(store.hash, m, ActiveDigest(m, old(store.cas), sid), outcome.session, None))))
    ensures r.Failed? ==> store.current == old(store.current) && store.files == old(store.files)
  {
    var w := World(m, store.cas);
    var found := Find(w, sid);
    if found.None? {
      return Failed(SessionMissing);
    }
    var outcome := RouteOf(SessionAt(w, sid, found.value), capacityNow);
    if outcome.Refused? {
      return Failed(outcome.failure);
    }
    if !apply {
      return Failed(ApplyRequired);
    }
    r := ReplaceSession(store, m, m.objects[found.value].digest, outcome.session, None);
  }

  method Terminate(store: Store, m: Manifest, sid: Id, reason: string, apply: bool) returns (r: Response)
    modifies store
    ensures r.Done? ==>
              var w := World(m, old(store.cas));
              && old(store.current) == Some(IdOf(store.hash, m)) && Loaded(store).Some?
              && Find(w, sid).Some?
              && TerminateOf(SessionAt(w, sid, Find(w, sid).value), reason) == Advanced(r.session)
              && Replaces(store.hash, w, World(Loaded(store).value, store.cas), sid,
                          SessionAt(w, sid, Find(w, sid).value), r.session, None)
    ensures var target := Targeted(World(m, old(store.cas)), sid);
            var outcome := if target.None? then Refused(SessionMissing) else TerminateOf(target.value, reason);
            var gate := Gate(target.Some?, true, outcome, apply);
            && (gate.Some? ==> r == Failed(gate.value) && store.cas == old(store.cas))
            && (gate.None? ==>
                  (r.Done? <==> GoesThrough(store.hash, old(store.files), old(store.current), m,
                                            Replacement(store.hash, m, ActiveDigest(m, old(store.cas), sid), outcome.session, None))))
    ensures r.Failed? ==> store.current == old(store.current) && store.files == old(store.files)
  {
    var w := World(m, store.cas);
    var found := Find(w, sid);
    if found.None? {
      return Failed(SessionMissing);
    }
    var outcome := TerminateOf(SessionAt(w, sid, found.value), reason);
    if outcome.Refused? {
      return Failed(outcome.failure);
    }
    if !apply {
      return Failed(ApplyRequired);
    }
    r := ReplaceSession(store, m, m.objects[found.value].digest, outcome.session, None);
  }

  method CreateSession(store: Store, m: Manifest, plan: Plan, apply: bool) returns (r: Response)
    modifies store
    ensures r.Done? ==>
              && old(store.current) == Some(IdOf(store.hash, m)) && Loaded(store).Some?
              && Creates(store.hash, World(m, old(store.cas)), World(Loaded(store).value, store.cas), plan)
    ensures !apply ==> r == Failed(ApplyRequired) && store.cas == old(store.cas)
    ensures apply ==> (r.Done? <==> GoesThrough(store.hash, old(store.files), old(store.current), m, Creation(store.hash, m, plan)))
    ensures r.Failed? ==> store.current == old(store.current) && store.files == old(store.files)
  {
    if !apply {
      return Failed(ApplyRequired);
    }
    var planDigest := store.PutJson(PlanDocument(plan));
    var s := NewSession(plan, planDigest);
    var _ := store.PutJson(SessionDocument(s));
    var result := store.Commit(Creation(store.hash, m, plan), Some(IdOf(store.hash, m)), true, NoFault);
    if result.Committed? {
      r := Done(result.id, s);
    } else {
      r := Failed(StoreRefused(result));
    }
  }
}
