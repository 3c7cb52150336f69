/** Interleaved committers on one store: the lock, the two writes of a commit, and crashes between them. */
module StoreProtocol {
  import opened Ids
  import opened Ledger
  import opened GenerationStore

  type Process = nat

  /** Where a process is inside commit; it starts and ends Idle. */
  datatype Phase = Idle | Locked(expected: Option<Digest>, payload: Manifest) | Compared(m: Manifest) | Written(m: Manifest)

  datatype System = System(files: Files, current: Option<Digest>, lock: Option<Process>, phases: map<Process, Phase>)

  datatype Step =
    | Acquire(p: Process, expected: Option<Digest>, payload: Manifest)
    | Compare(p: Process, schemaOk: bool)
    | WriteManifest(p: Process)
    | MovePointer(p: Process)
    | Crash(p: Process)

  function PhaseOf(s: System, p: Process): Phase
  {
    if p in s.phases then s.phases[p] else Idle
  }

  function Put(s: System, p: Process, phase: Phase): map<Process, Phase>
  {
    s.phases[p := phase]
  }

  function FileOf(hash: Hash, m: Manifest): File
  {
    File(IdOf(hash, m), m, true)
  }

  /** Giving up or finishing: back to Idle and the lock is released. */
  function Released(s: System, p: Process): System
  {
    s.(lock := if s.lock == Some(p) then None else s.lock, phases := Put(s, p, Idle))
  }

  ghost predicate Next(hash: Hash, s: System, t: System, step: Step)
  {
    match step
    case Acquire(p, expected, payload) =>
      PhaseOf(s, p).Idle? && s.lock.None? && t == s.(lock := Some(p), phases := Put(s, p, Locked(expected, payload)))
    case Compare(p, schemaOk) =>
      && PhaseOf(s, p).Locked?
      && var phase := PhaseOf(s, p);
         if s.current == phase.expected && Acceptable(hash, phase.payload, schemaOk)
         then t == s.(phases := Put(s, p, Compared(Built(hash, phase.payload, s.current))))
         else t == Released(s, p)
    case WriteManifest(p) =>
      && PhaseOf(s, p).Compared?
      && var m := PhaseOf(s, p).m;
         if IdOf(hash, m) in s.files && s.files[IdOf(hash, m)] != FileOf(hash, m) then t == Released(s, p)
         else t == s.(files := s.files[IdOf(hash, m) := FileOf(hash, m)], phases := Put(s, p, Written(m)))
    case MovePointer(p) =>
      PhaseOf(s, p).Written? && t == Released(s, p).(current := Some(IdOf(hash, PhaseOf(s, p).m)))
    case Crash(p) =>
      t == Released(s, p)
  }

  const EMPTY: System := System(map[], None, None, map[])

  /** Every state of the run and the steps between them. */
  ghost predicate IsRun(hash: Hash, states: seq<System>, steps: seq<Step>)
  {
    && |states| == |steps| + 1 && states[0] == EMPTY
    && forall i :: 0 <= i < |steps| ==> Next(hash, states[i], states[i + 1], steps[i])
  }

  /** The identifiers of the successful commits, newest first. */
  ghost function CommittedIds(hash: Hash, states: seq<System>, steps: seq<Step>, n: nat): seq<Digest>
    requires n <= |steps| && n <= |states|
  {
    if n == 0 then []
    else if steps[n - 1].MovePointer? && PhaseOf(states[n - 1], steps[n - 1].p).Written?
    then [IdOf(hash, PhaseOf(states[n - 1], steps[n - 1].p).m)] + CommittedIds(hash, states, steps, n - 1)
    else CommittedIds(hash, states, steps, n - 1)
  }

  /** Only the lock holder is inside commit; its manifest still names the current generation as its predecessor. */
  ghost predicate Inv(hash: Hash, s: System)
  {
    && (forall p: Process :: !PhaseOf(s, p).Idle? ==> s.lock == Some(p))
    && (forall p: Process :: PhaseOf(s, p).Compared? ==> PhaseOf(s, p).m.previous == s.current)
    && (forall p: Process :: PhaseOf(s, p).Written? ==>
          && PhaseOf(s, p).m.previous == s.current
          && IdOf(hash, PhaseOf(s, p).m) in s.files
          && s.files[IdOf(hash, PhaseOf(s, p).m)] == FileOf(hash, PhaseOf(s, p).m))
  }

  lemma StepKeepsInv(hash: Hash, s: System, t: System, step: Step)
    requires Inv(hash, s) && Next(hash, s, t, step)
    ensures Inv(hash, t)
    ensures forall id :: id in s.files ==> id in t.files && t.files[id] == s.files[id]
  {
    forall q | q != step.p ensures PhaseOf(t, q) == PhaseOf(s, q) {
    }
  }

  /** A step either leaves the chain alone or puts exactly the committed generation in front of it. */
  lemma StepOnChain(hash: Hash, s: System, t: System, step: Step, chain: seq<Digest>)
    requires Inv(hash, s) && Next(hash, s, t, step) && Linked(hash, s.files, s.current, chain)
    ensures if step.MovePointer? && PhaseOf(s, step.p).Written?
            then Linked(hash, t.files, t.current, [IdOf(hash, PhaseOf(s, step.p).m)] + chain)
            else t.current == s.current && Linked(hash, t.files, t.current, chain)
  {
    StepKeepsInv(hash, s, t, step);
    ChainSurvives(hash, s.files, t.files, s.current, chain);
    if step.MovePointer? {
      var m := PhaseOf(s, step.p).m;
      assert t.files == s.files && Load(hash, t.files, IdOf(hash, m)) == Some(m);
      assert ([IdOf(hash, m)] + chain)[1..] == chain;
    }
  }

  /**
   * After any interleaving and any crashes the chain from CURRENT is exactly the list of successful commits,
   * newest first: none is lost, none appears twice, and it ends at null.
   */
  lemma {:induction false} ChainIsTheCommits(hash: Hash, states: seq<System>, steps: seq<Step>, n: nat)
    requires IsRun(hash, states, steps) && n <= |steps|
    ensures Inv(hash, states[n])
    ensures Linked(hash, states[n].files, states[n].current, CommittedIds(hash, states, steps, n))
    ensures NoDuplicates(CommittedIds(hash, states, steps, n))
  {
    if n > 0 {
      ChainIsTheCommits(hash, states, steps, n - 1);
      var chain := CommittedIds(hash, states, steps, n - 1);
      assert Next(hash, states[n - 1], states[n], steps[n - 1]);
      StepKeepsInv(hash, states[n - 1], states[n], steps[n - 1]);
      StepOnChain(hash, states[n - 1], states[n], steps[n - 1], chain);
    }
    ChainHasNoDuplicates(hash, states[n].files, states[n].current, CommittedIds(hash, states, steps, n));
  }

  /** verify_chain therefore accepts after every run with at most 4096 successful commits, and only then. */
  lemma RunVerifies(hash: Hash, states: seq<System>, steps: seq<Step>)
    requires IsRun(hash, states, steps)
    ensures var s := states[|steps|];
            SoundWithin(hash, s.files, s.current, MAX_GENERATION_DEPTH)
            <==> |CommittedIds(hash, states, steps, |steps|)| <= MAX_GENERATION_DEPTH
  {
    var s, ids := states[|steps|], CommittedIds(hash, states, steps, |steps|);
    ChainIsTheCommits(hash, states, steps, |steps|);
    forall chain | Linked(hash, s.files, s.current, chain) ensures chain == ids {
      ChainIsUnique(hash, s.files, s.current, chain, ids);
    }
  }

  /** With an injective digest and only commits writing files, no commit ever meets a different file under its digest. */
  lemma {:induction false} NoCollision(hash: Hash, states: seq<System>, steps: seq<Step>, n: nat, m: Manifest)
    requires Injective(hash) && IsRun(hash, states, steps) && n <= |steps|
    ensures IdOf(hash, m) in states[n].files ==> states[n].files[IdOf(hash, m)] == FileOf(hash, m)
  {
    if n > 0 {
      NoCollision(hash, states, steps, n - 1, m);
      assert Next(hash, states[n - 1], states[n], steps[n - 1]);
      if steps[n - 1].WriteManifest? {
        var w := PhaseOf(states[n - 1], steps[n - 1].p).m;
        assert IdOf(hash, w) == IdOf(hash, m) ==> GenerationDocument(w) == GenerationDocument(m);
      }
    }
  }

  /**
   * Comparing decides: a committer goes on exactly when CURRENT is what it expects and its payload is acceptable, with a
   * manifest that names what it expects as its predecessor; otherwise it gives up and nothing else changes.
   */
  lemma CompareDecides(hash: Hash, s: System, t: System, p: Process, schemaOk: bool)
    requires PhaseOf(s, p).Locked? && Next(hash, s, t, Compare(p, schemaOk))
    ensures var expected, payload := PhaseOf(s, p).expected, PhaseOf(s, p).payload;
            && (PhaseOf(t, p) == Compared(Built(hash, payload, expected))
                <==> s.current == expected && Acceptable(hash, payload, schemaOk))
            && (PhaseOf(t, p) != Compared(Built(hash, payload, expected)) ==>
                  PhaseOf(t, p).Idle? && t.lock == (if s.lock == Some(p) then None else s.lock))
    ensures t.files == s.files && t.current == s.current
  {
  }

  /** An undisturbed commit that expects CURRENT succeeds, and its steps have the effect of the atomic operation. */
  lemma StepsAreAtomicCommit(hash: Hash, s: System, p: Process, payload: Manifest, t1: System, t2: System,
                             t3: System, t4: System)
    requires Next(hash, s, t1, Acquire(p, s.current, payload)) && Next(hash, t1, t2, Compare(p, true))
    requires Acceptable(hash, payload, true)
    requires var m := Built(hash, payload, s.current);
             IdOf(hash, m) in s.files ==> s.files[IdOf(hash, m)] == FileOf(hash, m)
    requires Next(hash, t2, t3, WriteManifest(p)) && Next(hash, t3, t4, MovePointer(p))
    ensures var m := Built(hash, payload, s.current);
            && t4.files == s.files[IdOf(hash, m) := FileOf(hash, m)] && t4.current == Some(IdOf(hash, m))
            && t4.lock == s.lock && PhaseOf(t4, p) == PhaseOf(s, p)
  {
  }

  /** The four steps can always be taken. */
  lemma CommitCanBePlayed(hash: Hash, s: System, p: Process, payload: Manifest) returns (t1: System, t2: System, t3: System, t4: System)
    requires PhaseOf(s, p).Idle? && s.lock.None? && Acceptable(hash, payload, true)
    requires var m := Built(hash, payload, s.current);
             IdOf(hash, m) in s.files ==> s.files[IdOf(hash, m)] == FileOf(hash, m)
    ensures Next(hash, s, t1, Acquire(p, s.current, payload)) && Next(hash, t1, t2, Compare(p, true))
    ensures Next(hash, t2, t3, WriteManifest(p)) && Next(hash, t3, t4, MovePointer(p))
  {
    var m := Built(hash, payload, s.current);
    t1 := s.(lock := Some(p), phases := Put(s, p, Locked(s.current, payload)));
    t2 := t1.(phases := Put(t1, p, Compared(m)));
    t3 := t2.(files := t2.files[IdOf(hash, m) := FileOf(hash, m)], phases := Put(t2, p, Written(m)));
    t4 := Released(t3, p).(current := Some(IdOf(hash, m)));
  }

  // ----- what the generations record of their histories

  /** The history is valid and the recorded root is the digest of its last event, or that of the empty history. */
  ghost predicate RecordsRoot(hash: Hash, m: Manifest)
  {
    && ValidHistory(hash, m.history)
    && (m.history == [] ==> m.historyRoot == hash(EmptyHistory))
    && (m.history != [] ==>
          && m.historyRoot == m.history[|m.history| - 1].digest
          && m.historyRoot == hash(HistoryDocument(m.history[|m.history| - 1].body)))
  }

  ghost predicate AllRecordRoots(hash: Hash, s: System)
  {
    && (forall id :: id in s.files ==> RecordsRoot(hash, s.files[id].manifest))
    && (forall p: Process :: PhaseOf(s, p).Compared? || PhaseOf(s, p).Written? ==> RecordsRoot(hash, PhaseOf(s, p).m))
  }

  lemma BuiltRecordsRoot(hash: Hash, payload: Manifest, schemaOk: bool, previous: Option<Digest>)
    requires Acceptable(hash, payload, schemaOk)
    ensures RecordsRoot(hash, Built(hash, payload, previous)) && Built(hash, payload, previous).history == payload.history
  {
    if payload.history != [] {
      var last := payload.history[|payload.history| - 1];
      assert last.digest == hash(HistoryDocument(last.body));
    }
  }

  lemma StepKeepsRoots(hash: Hash, s: System, t: System, step: Step)
    requires AllRecordRoots(hash, s) && Next(hash, s, t, step)
    ensures AllRecordRoots(hash, t)
  {
    if step.Compare? && Acceptable(hash, PhaseOf(s, step.p).payload, step.schemaOk) {
      BuiltRecordsRoot(hash, PhaseOf(s, step.p).payload, step.schemaOk, s.current);
    }
    forall q | q != step.p ensures PhaseOf(t, q) == PhaseOf(s, q) {
    }
  }

  /** After any interleaving and any crashes every generation that can be loaded records the root of its own history. */
  lemma {:induction false} RunRecordsRoots(hash: Hash, states: seq<System>, steps: seq<Step>, n: nat)
    requires IsRun(hash, states, steps) && n <= |steps|
    ensures AllRecordRoots(hash, states[n])
    ensures forall id :: Load(hash, states[n].files, id).Some? ==> RecordsRoot(hash, Load(hash, states[n].files, id).value)
  {
    if n > 0 {
      RunRecordsRoots(hash, states, steps, n - 1);
      assert Next(hash, states[n - 1], states[n], steps[n - 1]);
      StepKeepsRoots(hash, states[n - 1], states[n], steps[n - 1]);
    }
  }

  /** With an injective digest the recorded root says which history a generation has. */
  lemma RootsIdentifyHistories(hash: Hash, states: seq<System>, steps: seq<Step>, n: nat, a: Digest, b: Digest)
    requires Injective(hash) && IsRun(hash, states, steps) && n <= |steps|
    requires Load(hash, states[n].files, a).Some? && Load(hash, states[n].files, b).Some?
    ensures var x, y := Load(hash, states[n].files, a).value, Load(hash, states[n].files, b).value;
            x.historyRoot == y.historyRoot <==> x.history == y.history
  {
    var x, y := Load(hash, states[n].files, a).value, Load(hash, states[n].files, b).value;
    RunRecordsRoots(hash, states, steps, n);
    assert Root(hash, x.history) == x.historyRoot && Root(hash, y.history) == y.historyRoot;
    if x.historyRoot == y.historyRoot {
      RootDeterminesHistory(hash, x.history, y.history);
    }
  }
}
