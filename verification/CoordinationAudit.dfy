/** The coordination dimension of the scientific audit, read against the protocol invariant. */
module CoordinationAudit {
  import opened Ids
  import opened Ledger
  import opened Coordination
  import opened CoordinationSafety

  datatype Status = Unknown | Satisfied | Violated

  datatype Reason =
    | NotObserved
    | NotTerminated(sid: Id)
    | CapacityUnsatisfied(sid: Id)
    | CommitRevealIncomplete(sid: Id)

  /** The reasons one session gives. */
  ghost predicate Gives(s: Session, r: Reason)
  {
    match r
    case NotObserved => false
    case NotTerminated(sid) => sid == s.id && !s.stage.Terminated?
    case CapacityUnsatisfied(sid) => sid == s.id && !s.capacity
    case CommitRevealIncomplete(sid) => sid == s.id && s.commitments.Keys != s.openings.Keys
  }

  /** Every active session object is a readable session. */
  predicate Observable(w: World)
  {
    forall i :: 0 <= i < |w.manifest.objects| && IsActiveSession(w.manifest.objects[i]) ==>
      w.manifest.objects[i].digest in w.cas && w.cas[w.manifest.objects[i].digest].SessionDocument?
  }

  ghost predicate IsActiveValue(w: World, s: Session)
  {
    exists i :: 0 <= i < |w.manifest.objects| && IsActiveSession(w.manifest.objects[i])
                && w.manifest.objects[i].digest in w.cas
                && w.cas[w.manifest.objects[i].digest] == SessionDocument(s)
  }

  /** The active session values, in ledger order. */
  method ActiveSessions(w: World) returns (sessions: seq<Session>)
    requires Observable(w)
    ensures forall s :: s in sessions <==> IsActiveValue(w, s)
  {
    sessions := [];
    for i := 0 to |w.manifest.objects|
      invariant forall s :: s in sessions <==>
                              exists j :: 0 <= j < i && IsActiveSession(w.manifest.objects[j])
                                          && w.manifest.objects[j].digest in w.cas
                                          && w.cas[w.manifest.objects[j].digest] == SessionDocument(s)
    {
      var e := w.manifest.objects[i];
      if IsActiveSession(e) {
        sessions := sessions + [w.cas[e.digest].session];
      }
    }
  }

  /** _coordination */
  method Audit(w: World) returns (status: Status, reasons: seq<Reason>)
    requires Observable(w)
    ensures status.Unknown? <==> forall s :: !IsActiveValue(w, s)
    ensures status.Unknown? ==> reasons == [NotObserved]
    ensures !status.Unknown? ==> forall r :: r in reasons <==> exists s :: IsActiveValue(w, s) && Gives(s, r)
    ensures !status.Unknown? ==> (status.Satisfied? <==> reasons == [])
  {
    var sessions := ActiveSessions(w);
    if sessions == [] {
      return Unknown, [NotObserved];
    }
    assert sessions[0] in sessions;
    reasons := [];
    for i := 0 to |sessions|
      invariant forall r :: r in reasons <==> exists j :: 0 <= j < i && Gives(sessions[j], r)
    {
      var s := sessions[i];
      if !s.stage.Terminated? {
        reasons := reasons + [NotTerminated(s.id)];
      }
      if !s.capacity {
        reasons := reasons + [CapacityUnsatisfied(s.id)];
      }
      if s.commitments.Keys != s.openings.Keys {
        reasons := reasons + [CommitRevealIncomplete(s.id)];
      }
    }
    forall r ensures r in reasons <==> exists s :: IsActiveValue(w, s) && Gives(s, r) {
      if s :| IsActiveValue(w, s) && Gives(s, r) {
        assert s in sessions;
      }
    }
    status := if reasons == [] then Satisfied else Violated;
  }

  /**
   * In every reachable world the third check adds nothing: an active session whose commitments and openings
   * differ is already reported for its missing verification capacity. So the audit is satisfied
   * exactly when there is an active session and all of them are terminated with capacity.
   */
  lemma ThirdCheckIsImplied(hash: Hash, worlds: seq<World>, commands: seq<Command>, n: nat, s: Session, sid: Id)
    requires Injective(hash) && IsRun(hash, worlds, commands) && n <= |commands|
    requires IsActiveValue(worlds[n], s)
    ensures Gives(s, CommitRevealIncomplete(sid)) ==> Gives(s, CapacityUnsatisfied(sid))
    ensures (forall r :: !Gives(s, r)) <==> s.stage.Terminated? && s.capacity
  {
    var w := worlds[n];
    var i :| 0 <= i < |w.manifest.objects| && IsActiveSession(w.manifest.objects[i])
             && w.manifest.objects[i].digest in w.cas && w.cas[w.manifest.objects[i].digest] == SessionDocument(s);
    var e := w.manifest.objects[i];
    assert e in w.manifest.objects;
    CommitRevealSafety(hash, worlds, commands, n, e);
    if forall r :: !Gives(s, r) {
      assert !Gives(s, NotTerminated(s.id)) && !Gives(s, CapacityUnsatisfied(s.id));
    }
  }

  /** Reachable worlds are observable. */
  lemma ReachableIsObservable(hash: Hash, worlds: seq<World>, commands: seq<Command>, n: nat)
    requires Injective(hash) && IsRun(hash, worlds, commands) && n <= |commands|
    ensures Observable(worlds[n])
  {
    var w := worlds[n];
    forall i | 0 <= i < |w.manifest.objects| && IsActiveSession(w.manifest.objects[i])
      ensures w.manifest.objects[i].digest in w.cas && w.cas[w.manifest.objects[i].digest].SessionDocument?
    {
      assert w.manifest.objects[i] in w.manifest.objects;
      CommitRevealSafety(hash, worlds, commands, n, w.manifest.objects[i]);
    }
  }
}
