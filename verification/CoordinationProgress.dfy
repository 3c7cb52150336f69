/** The protocol can always be played to its end: the bound on the commands of a session is attained. */
module CoordinationProgress {
  import opened Ids
  import opened Ledger
  import opened GenerationStore
  import opened Coordination
  import opened CoordinationSafety
  import B = CoordinationBound
  import opened CoordinationSchedule
  import opened Playthrough

  /** Digests carry a fixed prefix of seven characters; what follows it does not collide. */
  ghost predicate Tagged(hash: Hash)
  {
    forall a, b :: Tail(hash(a)) == Tail(hash(b)) ==> a == b
  }

  lemma TaggedIsInjective(hash: Hash)
    requires Tagged(hash)
    ensures Injective(hash)
  {
    forall a, b | hash(a) == hash(b) ensures a == b {
      assert Tail(hash(a)) == Tail(hash(b));
    }
  }

  // ----- what the ledger and the history know of a session

  function EventName(session: Digest): Id
  {
    "history:coordination:" + Tail(session)
  }

  ghost predicate InLedger(w: World, d: Digest)
  {
    d in Digests(w.manifest.objects)
  }

  ghost predicate NamesEvent(history: seq<Event>, name: Id)
  {
    exists j :: 0 <= j < |history| && history[j].body.eventId == name
  }

  ghost predicate Mentions(hash: Hash, w: World, s: Session)
  {
    InLedger(w, hash(SessionDocument(s))) || NamesEvent(w.manifest.history, EventName(hash(SessionDocument(s))))
  }

  /** Only values of the session that have come at most this far are mentioned. */
  ghost predicate KnownUpTo(hash: Hash, w: World, sid: Id, limit: int)
  {
    forall x: Session :: x.id == sid && Mentions(hash, w, x) ==> Position(x) <= limit
  }

  /** The session already holds what the statement says. */
  predicate Spoken(s: Session, st: Statement)
  {
    if st.payload.Commitment? then st.principal in s.commitments else st.principal in s.openings
  }

  ghost predicate StatementsKnown(hash: Hash, w: World, s: Session)
  {
    forall st: Statement :: st.payload.session == s.id && InLedger(w, hash(StatementDocument(st))) ==> Spoken(s, st)
  }

  ghost predicate Valid(hash: Hash, w: World)
  {
    Sound(hash, w) && ValidHistory(hash, w.manifest.history)
  }

  /** The session is active with this value, and nothing later about it is known yet. */
  ghost predicate Stands(hash: Hash, w: World, s: Session)
  {
    && Valid(hash, w) && Targeted(w, s.id) == Some(s)
    && KnownUpTo(hash, w, s.id, Position(s)) && StatementsKnown(hash, w, s)
  }

  // ----- one command

  function Payload(hash: Hash, w: World, sid: Id, s': Session, st: Option<Statement>): Manifest
  {
    Replacement(hash, w.manifest, ActiveDigest(w.manifest, w.cas, sid), s', st)
  }

  /** The world after the session was replaced. */
  function WorldAfter(hash: Hash, w: World, sid: Id, s': Session, st: Option<Statement>): World
  {
    World(Built(hash, Payload(hash, w, sid, s', st), Some(IdOf(hash, w.manifest))), Stored(hash, w.cas, s', st))
  }

  /** Neither the new value nor the statement behind it is known. */
  ghost predicate IsNew(hash: Hash, w: World, s': Session, st: Option<Statement>)
  {
    && !Mentions(hash, w, s')
    && (st.Some? ==> !InLedger(w, hash(StatementDocument(st.value))))
  }

  lemma ReplacementIsValidHistory(hash: Hash, w: World, earlier: Digest, s': Session, st: Option<Statement>)
    requires ValidHistory(hash, w.manifest.history) && !NamesEvent(w.manifest.history, EventName(hash(SessionDocument(s'))))
    ensures ValidHistory(hash, Replacement(hash, w.manifest, earlier, s', st).history)
  {
    var digest := hash(SessionDocument(s'));
    var subjects := if st.None? then {digest} else {digest, hash(StatementDocument(st.value))};
    AppendKeepsValid(hash, w.manifest.history, EventName(digest), "coordination_transition", subjects);
  }

  /** Still valid, and with exactly these digests more. */
  ghost predicate Extended(objects: seq<Entry>, digests: set<Digest>, more: seq<Entry>)
  {
    ValidObjects(more) && Digests(more) == Digests(objects) + digests
  }

  /** Entries with new digests, known sources and registered kinds keep the ledger valid. */
  lemma EntryAppended(objects: seq<Entry>, e: Entry)
    requires ValidObjects(objects) && e.digest !in Digests(objects) && e.kind in KINDS
    requires forall d :: d in e.sources ==> d in Digests(objects)
    ensures Extended(objects, {e.digest}, objects + [e])
  {
    var more := objects + [e];
    assert more[|objects|] == e && forall i :: 0 <= i < |objects| ==> more[i] == objects[i];
    forall d | d in Digests(objects) ensures d in Digests(more) {
      var i :| 0 <= i < |objects| && objects[i].digest == d;
      assert more[i].digest == d;
    }
    forall d | d in Digests(more) ensures d in Digests(objects) || d == e.digest {
    }
    forall i, d | 0 <= i < |more| && d in more[i].sources ensures d in Digests(more) {
      if i < |objects| {
        assert d in objects[i].sources;
      }
    }
  }

  lemma WithdrawKeepsValid(objects: seq<Entry>, earlier: Digest)
    requires ValidObjects(objects)
    ensures Extended(objects, {}, Withdraw(objects, earlier))
  {
    var r := Withdraw(objects, earlier);
    assert forall i :: 0 <= i < |objects| ==>
      r[i].digest == objects[i].digest && r[i].kind == objects[i].kind && r[i].sources == objects[i].sources;
    forall d | d in Digests(objects) ensures d in Digests(r) {
      var i :| 0 <= i < |objects| && objects[i].digest == d;
      assert r[i].digest == d;
    }
    forall d | d in Digests(r) ensures d in Digests(objects) {
    }
  }

  lemma WithEventEntry(objects: seq<Entry>, withdrawn: seq<Entry>, e: Entry, f: Entry)
    requires Extended(objects, {}, withdrawn) && e.digest !in Digests(objects) && f.digest !in Digests(objects)
    requires e.digest != f.digest && e.kind in KINDS && f.kind in KINDS
    requires forall d :: d in e.sources ==> d in Digests(objects)
    requires forall d :: d in f.sources ==> d in Digests(objects) || d == e.digest
    ensures Extended(objects, {e.digest, f.digest}, withdrawn + [e, f])
  {
    EntryAppended(withdrawn, e);
    EntryAppended(withdrawn + [e], f);
    assert withdrawn + [e] + [f] == withdrawn + [e, f];
  }

  lemma ReplacementIsValid(hash: Hash, w: World, earlier: Digest, s': Session, st: Option<Statement>)
    requires Injective(hash) && ValidObjects(w.manifest.objects) && earlier in Digests(w.manifest.objects)
    requires IsNew(hash, w, s', st)
    ensures Extended(w.manifest.objects, NewDigests(hash, s', st), Replacement(hash, w.manifest, earlier, s', st).objects)
  {
    var digest, withdrawn := hash(SessionDocument(s')), Withdraw(w.manifest.objects, earlier);
    WithdrawKeepsValid(w.manifest.objects, earlier);
    match st
    case None =>
      EntryAppended(withdrawn, SessionEntry(digest, [earlier]));
    case Some(statement) =>
      var event := hash(StatementDocument(statement));
      assert digest != event;
      WithEventEntry(w.manifest.objects, withdrawn, EventEntry(w.manifest, earlier, statement, event),
                     SessionEntry(digest, [earlier, event]));
  }

  function NewDigests(hash: Hash, s': Session, st: Option<Statement>): set<Digest>
  {
    if st.Some? then {hash(StatementDocument(st.value)), hash(SessionDocument(s'))} else {hash(SessionDocument(s'))}
  }

  /** The command goes through. */
  lemma ReplacementGoesThrough(hash: Hash, w: World, s: Session, c: Command, s': Session)
    requires Injective(hash) && Valid(hash, w) && !c.Create? && !c.Elsewhere?
    requires Targeted(w, c.sid) == Some(s) && OutcomeOf(hash, w.cas, s, c) == Advanced(s')
    requires IsNew(hash, w, s', StatementOf(c))
    ensures Next(hash, w, WorldAfter(hash, w, c.sid, s', StatementOf(c)), c)
    ensures Valid(hash, WorldAfter(hash, w, c.sid, s', StatementOf(c)))
  {
    var w' := WorldAfter(hash, w, c.sid, s', StatementOf(c));
    var i := Find(w, c.sid).value;
    var earlier := w.manifest.objects[i].digest;
    assert World(w.manifest, w.cas) == w;
    ReplacementIsValid(hash, w, earlier, s', StatementOf(c));
    ReplacementIsValidHistory(hash, w, earlier, s', StatementOf(c));
    assert Replaces(hash, w, w', c.sid, s, s', StatementOf(c));
    StepKeepsSound(hash, w, w', c);
  }

  // ----- and leads to a world in which the next one can be taken

  lemma OnlyHolderIsFound(w: World, sid: Id, j: nat)
    requires Readable(w) && Holds(w, sid, j) && forall i: nat :: Holds(w, sid, i) ==> i == j
    ensures Find(w, sid) == Some(j)
  {
    var found := Where(|w.manifest.objects|, (i: nat) => Holds(w, sid, i));
    assert j in found;
    SingletonByMembers(found, j);
  }

  lemma SoundIsReadable(hash: Hash, w: World)
    requires Sound(hash, w)
    ensures Readable(w)
  {
    forall i | 0 <= i < |w.manifest.objects| && IsActiveSession(w.manifest.objects[i])
      ensures w.manifest.objects[i].digest in w.cas
    {
      assert RecordsSession(hash, w.cas, w.manifest.objects[i].digest);
    }
  }

  /** An entry that is active after the replacement was so before, unless it is the new one; the replaced one is not. */
  lemma HolderAfter(hash: Hash, w: World, sid: Id, s': Session, st: Option<Statement>, j: nat)
    requires Injective(hash) && Sound(hash, w) && Find(w, sid).Some?
    requires Holds(WorldAfter(hash, w, sid, s', st), sid, j)
    ensures j == |WorldAfter(hash, w, sid, s', st).manifest.objects| - 1
  {
    var w' := WorldAfter(hash, w, sid, s', st);
    var i := Find(w, sid).value;
    var earlier := w.manifest.objects[i].digest;
    assert World(w.manifest, w.cas) == w;
    B.ReplacementShape(hash, w.manifest, earlier, s', st);
    if j < |w.manifest.objects| {
      var e := w.manifest.objects[j];
      assert w'.manifest.objects[j] == Withdraw(w.manifest.objects, earlier)[j];
      assert e.digest != earlier && IsActiveSession(e);
      assert RecordsSession(hash, w.cas, e.digest);
      StoredBothGrow(hash, w.cas, s', st);
      B.FindIsUnique(w, sid, j);
    }
  }

  lemma ReplacedIsFound(hash: Hash, w: World, sid: Id, s': Session, st: Option<Statement>)
    requires Injective(hash) && Sound(hash, w) && Find(w, sid).Some? && s'.id == sid
    requires Sound(hash, WorldAfter(hash, w, sid, s', st))
    ensures Targeted(WorldAfter(hash, w, sid, s', st), sid) == Some(s')
  {
    var w' := WorldAfter(hash, w, sid, s', st);
    var last := |w'.manifest.objects| - 1;
    assert World(w.manifest, w.cas) == w;
    B.ReplacementShape(hash, w.manifest, ActiveDigest(w.manifest, w.cas, sid), s', st);
    StoredBothGrow(hash, w.cas, s', st);
    assert Holds(w', sid, last);
    forall j: nat | Holds(w', sid, j) ensures j == last {
      HolderAfter(hash, w, sid, s', st, j);
    }
    SoundIsReadable(hash, w');
    OnlyHolderIsFound(w', sid, last);
  }

  lemma NamesDiffer(hash: Hash, x: Session, y: Session)
    requires Tagged(hash) && EventName(hash(SessionDocument(x))) == EventName(hash(SessionDocument(y)))
    ensures x == y
  {
    var a, b := Tail(hash(SessionDocument(x))), Tail(hash(SessionDocument(y)));
    var prefix := "history:coordination:";
    assert a == (prefix + a)[|prefix|..] && b == (prefix + b)[|prefix|..];
    assert SessionDocument(x) == SessionDocument(y);
  }

  /** The ledger has these digests more, and the history one event, named after the session value. */
  ghost predicate Extends(hash: Hash, w: World, w': World, s': Session, digests: set<Digest>)
  {
    && Digests(w'.manifest.objects) == Digests(w.manifest.objects) + digests
    && |w'.manifest.history| == |w.manifest.history| + 1 && w.manifest.history <= w'.manifest.history
    && w'.manifest.history[|w.manifest.history|].body.eventId == EventName(hash(SessionDocument(s')))
  }

  lemma ReplacementExtends(hash: Hash, w: World, sid: Id, s': Session, st: Option<Statement>)
    requires Injective(hash) && Sound(hash, w) && Find(w, sid).Some? && IsNew(hash, w, s', st)
    ensures Extends(hash, w, WorldAfter(hash, w, sid, s', st), s', NewDigests(hash, s', st))
  {
    assert World(w.manifest, w.cas) == w;
    ReplacementIsValid(hash, w, ActiveDigest(w.manifest, w.cas, sid), s', st);
  }

  /** What is mentioned then was mentioned before, or is the new value. */
  lemma MentionedAfter(hash: Hash, w: World, w': World, s': Session, digests: set<Digest>, x: Session)
    requires Tagged(hash) && Extends(hash, w, w', s', digests) && Mentions(hash, w', x)
    requires hash(SessionDocument(x)) in digests ==> x == s'
    ensures x == s' || Mentions(hash, w, x)
  {
    if !InLedger(w', hash(SessionDocument(x))) {
      var j :| 0 <= j < |w'.manifest.history| && w'.manifest.history[j].body.eventId == EventName(hash(SessionDocument(x)));
      if j == |w.manifest.history| {
        NamesDiffer(hash, x, s');
      } else {
        assert w'.manifest.history[j] == w.manifest.history[j];
      }
    }
  }

  lemma KnownAfter(hash: Hash, w: World, w': World, sid: Id, limit: int, s': Session, st: Option<Statement>)
    requires Tagged(hash) && Injective(hash) && Extends(hash, w, w', s', NewDigests(hash, s', st))
    requires KnownUpTo(hash, w, sid, limit) && limit <= Position(s')
    ensures KnownUpTo(hash, w', sid, Position(s'))
  {
    forall x: Session | x.id == sid && Mentions(hash, w', x) ensures Position(x) <= Position(s') {
      MentionedAfter(hash, w, w', s', NewDigests(hash, s', st), x);
    }
  }

  lemma StatementsAfter(hash: Hash, w: World, w': World, s: Session, s': Session, st: Option<Statement>)
    requires Injective(hash) && Extends(hash, w, w', s', NewDigests(hash, s', st))
    requires StatementsKnown(hash, w, s) && Advances(s, s') && (st.Some? ==> Spoken(s', st.value))
    ensures StatementsKnown(hash, w', s')
  {
    forall x: Statement | x.payload.session == s'.id && InLedger(w', hash(StatementDocument(x))) ensures Spoken(s', x) {
      if InLedger(w, hash(StatementDocument(x))) {
        assert Spoken(s, x);
      } else {
        assert st.Some? && StatementDocument(x) == StatementDocument(st.value);
      }
    }
  }

  lemma NothingNewKnown(hash: Hash, w: World, s: Session, s': Session, st: Option<Statement>)
    requires KnownUpTo(hash, w, s.id, Position(s)) && s'.id == s.id && Position(s) < Position(s')
    requires StatementsKnown(hash, w, s) && (st.Some? ==> st.value.payload.session == s.id && !Spoken(s, st.value))
    ensures IsNew(hash, w, s', st)
  {
  }

  lemma OutcomeSpeaks(hash: Hash, cas: Cas, s: Session, c: Command, s': Session)
    requires !c.Create? && !c.Elsewhere? && OutcomeOf(hash, cas, s, c) == Advanced(s')
    ensures StatementOf(c).Some? ==> Spoken(s', StatementOf(c).value)
  {
  }

  /** A command that takes the session further goes through, and the session stands where it led. */
  lemma CommandTakesEffect(hash: Hash, w: World, s: Session, c: Command, s': Session) returns (w': World)
    requires Tagged(hash) && Stands(hash, w, s) && !c.Create? && !c.Elsewhere? && c.sid == s.id
    requires OutcomeOf(hash, w.cas, s, c) == Advanced(s') && Position(s) < Position(s')
    requires StatementOf(c).Some? ==> StatementOf(c).value.payload.session == s.id && !Spoken(s, StatementOf(c).value)
    ensures Next(hash, w, w', c) && Stands(hash, w', s') && w'.cas == Stored(hash, w.cas, s', StatementOf(c))
  {
    TaggedIsInjective(hash);
    CommandAdvances(hash, w.cas, s, c, s');
    OutcomeSpeaks(hash, w.cas, s, c, s');
    var st := StatementOf(c);
    NothingNewKnown(hash, w, s, s', st);
    w' := TakesEffect(hash, w, s, c, s');
    KnownAfter(hash, w, w', s.id, Position(s), s', st);
    StatementsAfter(hash, w, w', s, s', st);
  }

  lemma TakesEffect(hash: Hash, w: World, s: Session, c: Command, s': Session) returns (w': World)
    requires Injective(hash) && Valid(hash, w) && !c.Create? && !c.Elsewhere?
    requires Targeted(w, c.sid) == Some(s) && OutcomeOf(hash, w.cas, s, c) == Advanced(s') && s'.id == c.sid
    requires IsNew(hash, w, s', StatementOf(c))
    ensures Next(hash, w, w', c) && Valid(hash, w') && Targeted(w', c.sid) == Some(s')
    ensures Extends(hash, w, w', s', NewDigests(hash, s', StatementOf(c)))
    ensures w'.cas == Stored(hash, w.cas, s', StatementOf(c))
  {
    w' := WorldAfter(hash, w, c.sid, s', StatementOf(c));
    ReplacementGoesThrough(hash, w, s, c, s');
    ReplacedIsFound(hash, w, c.sid, s', StatementOf(c));
    ReplacementExtends(hash, w, c.sid, s', StatementOf(c));
  }

  // ----- the creation

  /** The workspace has seen neither the plan nor anything about its session. */
  ghost predicate Unmentioned(hash: Hash, w: World, plan: Plan)
  {
    && !InLedger(w, hash(PlanDocument(plan)))
    && (forall x: Session :: x.id == SessionId(plan) ==> !Mentions(hash, w, x))
    && (forall st: Statement :: st.payload.session == SessionId(plan) ==> !InLedger(w, hash(StatementDocument(st))))
  }

  function FirstValue(hash: Hash, plan: Plan): Session
  {
    NewSession(plan, hash(PlanDocument(plan)))
  }

  function CreatedWorld(hash: Hash, w: World, plan: Plan): World
  {
    var s := FirstValue(hash, plan);
    World(Built(hash, Creation(hash, w.manifest, plan), Some(IdOf(hash, w.manifest))),
          w.cas[hash(PlanDocument(plan)) := PlanDocument(plan)][hash(SessionDocument(s)) := SessionDocument(s)])
  }

  lemma CreationIsValid(hash: Hash, w: World, plan: Plan)
    requires Injective(hash) && ValidObjects(w.manifest.objects) && Unmentioned(hash, w, plan)
    ensures Extended(w.manifest.objects, {hash(PlanDocument(plan)), hash(SessionDocument(FirstValue(hash, plan)))},
                     Creation(hash, w.manifest, plan).objects)
  {
    var planDigest, digest := hash(PlanDocument(plan)), hash(SessionDocument(FirstValue(hash, plan)));
    assert !Mentions(hash, w, FirstValue(hash, plan));
    assert planDigest != digest;
    assert Digests(w.manifest.objects) + {} == Digests(w.manifest.objects);
    WithEventEntry(w.manifest.objects, w.manifest.objects,
                   Entry(planDigest, "coordination-plan", "coordination-plan@0.5.0", [], None, None, Active),
                   SessionEntry(digest, [planDigest]));
  }

  lemma CreationGoesThrough(hash: Hash, w: World, plan: Plan)
    requires Injective(hash) && Valid(hash, w) && Unmentioned(hash, w, plan)
    ensures Next(hash, w, CreatedWorld(hash, w, plan), Create(plan)) && Valid(hash, CreatedWorld(hash, w, plan))
    ensures Extends(hash, w, CreatedWorld(hash, w, plan), FirstValue(hash, plan),
                    {hash(PlanDocument(plan)), hash(SessionDocument(FirstValue(hash, plan)))})
  {
    var w', s := CreatedWorld(hash, w, plan), FirstValue(hash, plan);
    var planDigest, digest := hash(PlanDocument(plan)), hash(SessionDocument(s));
    CreationIsValid(hash, w, plan);
    assert !Mentions(hash, w, s);
    AppendKeepsValid(hash, w.manifest.history, EventName(digest), "coordination_transition", {planDigest, digest});
    assert Creates(hash, w, w', plan);
    StepKeepsSound(hash, w, w', Create(plan));
  }

  lemma CreatedIsFound(hash: Hash, w: World, plan: Plan)
    requires Injective(hash) && Fresh(hash, w) && Sound(hash, CreatedWorld(hash, w, plan))
    ensures Targeted(CreatedWorld(hash, w, plan), SessionId(plan)) == Some(FirstValue(hash, plan))
  {
    var w', s := CreatedWorld(hash, w, plan), FirstValue(hash, plan);
    var n := |w.manifest.objects|;
    assert w'.manifest.objects[n].kind == "coordination-plan";
    assert Holds(w', SessionId(plan), n + 1);
    forall j: nat | j < n ensures w'.manifest.objects[j].kind != "coordination-session" {
      assert w.manifest.objects[j] in w.manifest.objects;
    }
    SoundIsReadable(hash, w');
    OnlyHolderIsFound(w', SessionId(plan), n + 1);
  }

  lemma CreatedIsKnown(hash: Hash, w: World, w': World, plan: Plan)
    requires Tagged(hash) && Injective(hash) && Unmentioned(hash, w, plan)
    requires Extends(hash, w, w', FirstValue(hash, plan),
                     {hash(PlanDocument(plan)), hash(SessionDocument(FirstValue(hash, plan)))})
    ensures KnownUpTo(hash, w', SessionId(plan), Position(FirstValue(hash, plan)))
    ensures StatementsKnown(hash, w', FirstValue(hash, plan))
  {
    var s := FirstValue(hash, plan);
    forall x: Session | x.id == SessionId(plan) && Mentions(hash, w', x) ensures x == s {
      assert hash(SessionDocument(x)) != hash(PlanDocument(plan));
      MentionedAfter(hash, w, w', s, {hash(PlanDocument(plan)), hash(SessionDocument(s))}, x);
    }
    forall x: Statement | x.payload.session == s.id ensures !InLedger(w', hash(StatementDocument(x))) {
      assert hash(StatementDocument(x)) != hash(PlanDocument(plan)) && hash(StatementDocument(x)) != hash(SessionDocument(s));
    }
  }

  lemma CreationTakesEffect(hash: Hash, w: World, plan: Plan) returns (w': World)
    requires Tagged(hash) && Fresh(hash, w) && ValidHistory(hash, w.manifest.history) && Unmentioned(hash, w, plan)
    ensures Next(hash, w, w', Create(plan)) && Stands(hash, w', FirstValue(hash, plan))
  {
    TaggedIsInjective(hash);
    FreshIsSound(hash, w);
    w' := CreatedWorld(hash, w, plan);
    CreationGoesThrough(hash, w, plan);
    CreatedIsFound(hash, w, plan);
    CreatedIsKnown(hash, w, w', plan);
  }

  // ----- the whole course

  /** The creation and every command after it. */
  function Script(hash: Hash, c: Course): (commands: seq<Command>)
    requires Full(c)
    ensures |commands| == 2 * Size(c) + 8
  {
    [Create(c.plan)] + seq(2 * Size(c) + 7, k requires 0 <= k < 2 * Size(c) + 7 => CommandFor(hash, c, k))
  }

  /** The statement of the next command is not in the session yet. */
  lemma NotYetSpoken(hash: Hash, c: Course, k: nat)
    requires Full(c) && k < 2 * Size(c) + 7
    ensures CommandFor(hash, c, k).sid == SessionId(c.plan)
    ensures var st := StatementOf(CommandFor(hash, c, k));
            st.Some? ==> st.value.payload.session == SessionId(c.plan) && !Spoken(After(hash, c, k), st.value)
  {
    var n := Size(c);
    if k < n {
      NextToCommit(hash, c, k);
    } else if n + 2 <= k < 2 * n + 2 {
      NextToReveal(hash, c, k - n - 2);
    }
  }

  lemma StaysStored(hash: Hash, cas: Cas, more: Cas, c: Course, i: nat)
    requires Full(c) && i < Size(c) && Grows(cas, more)
    ensures StoresCommitment(hash, cas, c, i) ==> StoresCommitment(hash, more, c, i)
  {
  }

  lemma IsStored(hash: Hash, cas: Cas, c: Course, k: nat, s: Session)
    requires Full(c) && k < Size(c) && Injective(hash) && CasSound(hash, cas)
    ensures StoresCommitment(hash, Stored(hash, cas, s, Some(CommitStatement(hash, c, k))), c, k)
  {
    StoredBothGrow(hash, cas, s, Some(CommitStatement(hash, c, k)));
  }

  lemma StoredCommitments(hash: Hash, cas: Cas, c: Course, k: nat, s: Session)
    requires Full(c) && k < 2 * Size(c) + 7 && Injective(hash) && CasSound(hash, cas) && Stores(hash, cas, c, k)
    ensures Stores(hash, Stored(hash, cas, s, StatementOf(CommandFor(hash, c, k))), c, k + 1)
  {
    var st := StatementOf(CommandFor(hash, c, k));
    StoredBothGrow(hash, cas, s, st);
    forall i | 0 <= i < k + 1 && i < Size(c) ensures StoresCommitment(hash, Stored(hash, cas, s, st), c, i) {
      if i < k {
        StaysStored(hash, cas, Stored(hash, cas, s, st), c, i);
      } else {
        IsStored(hash, cas, c, k, s);
      }
    }
  }

  /** The command is accepted, takes the session further and says nothing the session already holds. */
  ghost predicate TakesFurther(hash: Hash, cas: Cas, s: Session, command: Command, s': Session)
  {
    && !command.Create? && !command.Elsewhere? && command.sid == s.id
    && OutcomeOf(hash, cas, s, command) == Advanced(s') && Position(s) < Position(s')
    && (StatementOf(command).Some? ==>
          StatementOf(command).value.payload.session == s.id && !Spoken(s, StatementOf(command).value))
  }

  lemma CourseTakesFurther(hash: Hash, cas: Cas, c: Course, k: nat)
    requires Full(c) && k < 2 * Size(c) + 7 && Stores(hash, cas, c, k)
    ensures TakesFurther(hash, cas, After(hash, c, k), CommandFor(hash, c, k), After(hash, c, k + 1))
  {
    PositionCounts(hash, c, k);
    PositionCounts(hash, c, k + 1);
    CourseAdvances(hash, cas, c, k);
    NotYetSpoken(hash, c, k);
  }

  /** The session stands at its k-th value. */
  ghost predicate At(hash: Hash, c: Course, w: World, k: nat)
  {
    exists s :: Full(c) && k <= 2 * Size(c) + 7 && s == After(hash, c, k) && Stands(hash, w, s) && Stores(hash, w.cas, c, k)
  }

  ghost predicate Plays(hash: Hash, c: Course, w: World, w': World, k: nat)
  {
    exists command :: Full(c) && k < 2 * Size(c) + 7 && command == CommandFor(hash, c, k) && Next(hash, w, w', command)
  }

  lemma StandsOn(hash: Hash, w: World, s: Session, command: Command, s': Session) returns (w': World)
    requires Tagged(hash) && Stands(hash, w, s) && TakesFurther(hash, w.cas, s, command, s')
    ensures Next(hash, w, w', command) && Stands(hash, w', s') && w'.cas == Stored(hash, w.cas, s', StatementOf(command))
  {
    w' := CommandTakesEffect(hash, w, s, command, s');
  }

  lemma PlayOne(hash: Hash, c: Course, w: World, k: nat) returns (w': World)
    requires Tagged(hash) && Full(c) && k < 2 * Size(c) + 7 && At(hash, c, w, k)
    ensures Plays(hash, c, w, w', k) && At(hash, c, w', k + 1)
  {
    var s :| s == After(hash, c, k) && Stands(hash, w, s) && Stores(hash, w.cas, c, k);
    var command, s' := CommandFor(hash, c, k), After(hash, c, k + 1);
    TaggedIsInjective(hash);
    CourseTakesFurther(hash, w.cas, c, k);
    StoredCommitments(hash, w.cas, c, k, s');
    w' := StandsOn(hash, w, s, command, s');
  }

  /** The session is found with the k-th value of the course. */
  ghost predicate HasValue(hash: Hash, c: Course, w: World, k: nat)
  {
    exists s :: Full(c) && k <= 2 * Size(c) + 7 && s == After(hash, c, k) && Targeted(w, SessionId(c.plan)) == Some(s)
  }

  /** Whoever stands at k is found with the k-th value. */
  lemma AtMeans(hash: Hash, c: Course, w: World, k: nat)
    requires Full(c) && k <= 2 * Size(c) + 7
    ensures StandingAt(hash, c)(w, k) ==> HasValue(hash, c, w, k)
  {
    PositionCounts(hash, c, k);
  }

  lemma StartsAt(hash: Hash, c: Course, w: World) returns (w': World)
    requires Tagged(hash) && Full(c) && Fresh(hash, w) && ValidHistory(hash, w.manifest.history) && Unmentioned(hash, w, c.plan)
    ensures Next(hash, w, w', Create(c.plan)) && StandingAt(hash, c)(w', 0)
  {
    w' := CreationTakesEffect(hash, w, c.plan);
    assert FirstValue(hash, c.plan) == After(hash, c, 0);
  }

  lemma {:induction false} ScriptCounts(hash: Hash, c: Course, k: nat)
    requires Full(c) && k <= 2 * Size(c) + 7
    ensures B.Count(Script(hash, c), SessionId(c.plan), k + 1) == k
  {
    if k > 0 {
      ScriptCounts(hash, c, k - 1);
      NotYetSpoken(hash, c, k - 1);
      assert Script(hash, c)[k] == CommandFor(hash, c, k - 1);
    } else {
      assert B.Count(Script(hash, c), SessionId(c.plan), 0) == 0;
    }
  }

  lemma ScriptIsOffered(hash: Hash, c: Course)
    requires Full(c)
    ensures B.AllOffered(Script(hash, c), SessionId(c.plan), |Script(hash, c)|)
  {
    forall i | 0 <= i < |Script(hash, c)| && Targets(Script(hash, c)[i], SessionId(c.plan)) ensures B.Offered(Script(hash, c)[i]) {
      assert Script(hash, c)[i] == CommandFor(hash, c, i - 1);
    }
  }

  ghost function StandingAt(hash: Hash, c: Course): (World, nat) -> bool
  {
    (w: World, k: nat) => At(hash, c, w, k)
  }

  ghost function Playing(hash: Hash, c: Course): (World, World, nat) -> bool
  {
    (w: World, w': World, k: nat) => Plays(hash, c, w, w', k)
  }

  lemma EveryStandGoesOn(hash: Hash, c: Course, w: World, k: nat)
    requires Tagged(hash) && Full(c) && k < 2 * Size(c) + 7
    ensures Continues(StandingAt(hash, c), Playing(hash, c), w, k)
  {
    if StandingAt(hash, c)(w, k) {
      var w' := PlayOne(hash, c, w, k);
      assert Playing(hash, c)(w, w', k) && StandingAt(hash, c)(w', k + 1);
    }
  }

  lemma CourseRuns(hash: Hash, c: Course, w: World, n: nat) returns (worlds: seq<World>)
    requires Tagged(hash) && Full(c) && StandingAt(hash, c)(w, 0) && n == 2 * Size(c) + 7
    ensures |worlds| == n + 1 && worlds[0] == w
    ensures forall k :: 0 <= k <= n ==> StandingAt(hash, c)(worlds[k], k)
    ensures forall k :: 0 <= k < n ==> Playing(hash, c)(worlds[k], worlds[k + 1], k)
  {
    forall v, k: nat | k < n ensures Continues(StandingAt(hash, c), Playing(hash, c), v, k) {
      EveryStandGoesOn(hash, c, v, k);
    }
    worlds := PlayAll(StandingAt(hash, c), Playing(hash, c), w, n);
  }

  /** The worlds from the creation on: the session is found with all values of the course, one after the other. */
  ghost predicate TakesAllValues(hash: Hash, c: Course, played: seq<World>)
  {
    forall k :: 0 <= k < |played| ==> HasValue(hash, c, played[k], k)
  }

  lemma PlayedTakesValues(hash: Hash, c: Course, played: seq<World>, n: nat)
    requires Full(c) && n == 2 * Size(c) + 7 && |played| == n + 1
    requires forall k :: 0 <= k <= n ==> StandingAt(hash, c)(played[k], k)
    ensures TakesAllValues(hash, c, played)
  {
    forall k: nat | k < |played| ensures HasValue(hash, c, played[k], k) {
      AtMeans(hash, c, played[k], k);
    }
  }

  /** After 2n + 4 commands the session is integrated, with capacity and with every commitment and opening. */
  lemma CourseIntegrates(hash: Hash, c: Course)
    requires Full(c)
    ensures var s := After(hash, c, 2 * Size(c) + 4);
            s.stage.Integrate? && s.capacity && CoordinationSafety.Complete(s)
  {
    var s := After(hash, c, 2 * Size(c) + 4);
    CommitmentsAreFirst(hash, c, Size(c));
    OpeningsAreFirst(hash, c, Size(c));
    AllOfThem(Commitments(hash, c, Size(c)), c, CommitDigest(hash, c), s);
    AllOfThem(Openings(hash, c, Size(c)), c, RevealDigest(hash, c), s);
  }

  /** The 2n + 7 commands of the course are as many as any session with offered reasons admits. */
  lemma AsManyAsAdmitted(hash: Hash, c: Course)
    requires Full(c)
    ensures B.AllOffered(Script(hash, c), SessionId(c.plan), |Script(hash, c)|)
    ensures B.Count(Script(hash, c), SessionId(c.plan), |Script(hash, c)|) == 2 * |Members(FirstValue(hash, c.plan))| + 7
  {
    ScriptCounts(hash, c, 2 * Size(c) + 7);
    ScriptIsOffered(hash, c);
    NoDuplicatesCardinality(c.plan.participants, Members(FirstValue(hash, c.plan)));
  }

  lemma PlayedStep(hash: Hash, c: Course, w: World, w': World, k: nat)
    requires Full(c) && k < 2 * Size(c) + 7
    ensures Playing(hash, c)(w, w', k) ==> Next(hash, w, w', Script(hash, c)[k + 1])
  {
    assert Script(hash, c)[k + 1] == CommandFor(hash, c, k);
  }

  lemma PlayedIsRun(hash: Hash, c: Course, w: World, played: seq<World>, n: nat)
    requires Full(c) && n == 2 * Size(c) + 7 && |played| == n + 1 && Fresh(hash, w)
    requires Next(hash, w, played[0], Create(c.plan))
    requires forall k :: 0 <= k < n ==> Playing(hash, c)(played[k], played[k + 1], k)
    ensures IsRun(hash, [w] + played, Script(hash, c))
  {
    var worlds, commands := [w] + played, Script(hash, c);
    forall i | 0 <= i <= n ensures RunStep(hash, worlds, commands, i) {
      if i > 0 {
        PlayedStep(hash, c, played[i - 1], played[i - 1 + 1], i - 1);
      }
    }
  }

  /** The script runs from the workspace, and the session takes all values of the course. */
  ghost predicate IsCourseRun(hash: Hash, w: World, c: Course, played: seq<World>)
    requires Full(c)
  {
    && |played| == 2 * Size(c) + 8 && IsRun(hash, [w] + played, Script(hash, c))
    && TakesAllValues(hash, c, played)
  }

  lemma PlayedIsCourseRun(hash: Hash, c: Course, w: World, first: World, n: nat)
    requires Tagged(hash) && Full(c) && n == 2 * Size(c) + 7 && Fresh(hash, w)
    requires Next(hash, w, first, Create(c.plan)) && StandingAt(hash, c)(first, 0)
    ensures exists played :: IsCourseRun(hash, w, c, played)
  {
    var played := CourseRuns(hash, c, first, n);
    PlayedIsRun(hash, c, w, played, n);
    PlayedTakesValues(hash, c, played, n);
    assert IsCourseRun(hash, w, c, played);
  }

  /**
   * In every workspace that knows nothing of the plan yet, the creation, n commits, two routes, n reveals, two routes
   * and three terminations all succeed one after the other, and the session takes exactly the values of the course.
   */
  lemma CourseSucceeds(hash: Hash, w: World, c: Course)
    requires Tagged(hash) && Full(c)
    requires Fresh(hash, w) && ValidHistory(hash, w.manifest.history) && Unmentioned(hash, w, c.plan)
    ensures exists played :: IsCourseRun(hash, w, c, played)
  {
    var first := StartsAt(hash, c, w);
    PlayedIsCourseRun(hash, c, w, first, 2 * Size(c) + 7);
  }
}
