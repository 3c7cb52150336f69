/** Typed documents with one digest, the object ledger and the hash-chained history of a generation. */
module Ledger {
  import opened Ids

  type Digest = string

  datatype EventBody = EventBody(eventId: Id, eventType: string, subjects: seq<Digest>, previous: Option<Digest>)

  /** A recorded history event: its body and the digest written beside it. */
  datatype Event = Event(body: EventBody, digest: Digest)

  datatype Lifecycle = Active | Withdrawn | OtherLifecycle(name: string)

  datatype Entry = Entry(digest: Digest, kind: string, schemaRef: string, sources: seq<Digest>,
                         authorityKey: Option<Id>, policy: Option<Digest>, lifecycle: Lifecycle)

  /** The fields a commit copies unchanged: contract, trust policy, time and quarantine. */
  datatype Context = Context(contract: Digest, trustPolicy: Digest, epoch: Option<string>, quarantine: seq<Digest>)

  /** A generation manifest without its own identifier. */
  datatype Manifest = Manifest(previous: Option<Digest>, objects: seq<Entry>, history: seq<Event>,
                               historyRoot: Digest, context: Context)

  datatype Stage = Created | CommitOpen | CommitClosed | RevealOpen | Verify | Integrate | Terminated

  datatype Session = Session(id: Id, stage: Stage, plan: Digest, participants: seq<Id>, commitments: map<Id, Digest>,
                             openings: map<Id, Digest>, capacity: bool, reason: Option<string>)

  datatype Plan = Plan(planId: Id, participants: seq<Id>, terminationRule: string)

  datatype StatementPayload =
    | Commitment(session: Id, participant: Id, commitment: Digest)
    | Reveal(session: Id, participant: Id, proposal: string, nonce: string)

  datatype Statement = Statement(principal: Id, key: Id, payload: StatementPayload)

  /** Every JSON document that is digested, by shape; documents of different shapes are different documents. */
  datatype Document =
    | EmptyHistory
    | HistoryDocument(event: EventBody)
    | GenerationDocument(manifest: Manifest)
    | SessionDocument(session: Session)
    | StatementDocument(statement: Statement)
    | PlanDocument(plan: Plan)
    | OpeningDocument(proposal: string, nonce: string)

  /** digest_v3_json; all that is ever used of it is that it does not collide. */
  type Hash = Document -> Digest

  ghost predicate Injective(hash: Hash)
  {
    forall a, b :: hash(a) == hash(b) ==> a == b
  }

  const KINDS: set<string> := {
    "contract", "genesis-policy-statement", "trust-policy", "trust-quorum-decision", "trusted-time-receipt",
    "unit-registry", "typed-flow-profile", "raw-artifact", "principal-attestation", "adapter-capability",
    "execution-policy", "process-receipt", "action-receipt", "pending-projection", "projection-approval",
    "promoted-projection", "analysis-snapshot", "scientific-witness", "perturbation-suite", "perturbation-result",
    "coordination-plan", "coordination-session", "coordination-event", "measurement-protocol",
    "registration-receipt", "protocol-amendment", "dataset-record", "analysis-executable-record",
    "trial-result-certificate", "acceleration-evidence", "bundle-root-attestation", "legacy-manifest"
  }

  // ----- history

  function LastDigest(history: seq<Event>): Option<Digest>
  {
    if history == [] then None else Some(history[|history| - 1].digest)
  }

  /** history_event: the body names the digest of the last event so far. */
  function NewEvent(hash: Hash, history: seq<Event>, eventId: Id, eventType: string, subjects: set<Digest>): Event
  {
    var body := EventBody(eventId, eventType, Sorted(subjects), LastDigest(history));
    Event(body, hash(HistoryDocument(body)))
  }

  function Root(hash: Hash, history: seq<Event>): Digest
  {
    if history == [] then hash(EmptyHistory) else history[|history| - 1].digest
  }

  /** The event is right about itself and its predecessor, and its identifier is fresh. */
  ghost predicate Follows(hash: Hash, history: seq<Event>, event: Event)
  {
    && event.digest == hash(HistoryDocument(event.body))
    && event.body.previous == LastDigest(history)
    && forall j :: 0 <= j < |history| ==> history[j].body.eventId != event.body.eventId
  }

  ghost predicate ValidHistory(hash: Hash, history: seq<Event>)
  {
    history == [] ||
    (ValidHistory(hash, history[..|history| - 1]) && Follows(hash, history[..|history| - 1], history[|history| - 1]))
  }

  lemma ValidHistoryExtends(hash: Hash, history: seq<Event>, event: Event)
    ensures ValidHistory(hash, history + [event]) <==> ValidHistory(hash, history) && Follows(hash, history, event)
  {
    assert (history + [event])[..|history|] == history;
  }

  datatype HistoryError = PreviousMismatch(index: nat) | DigestMismatch(index: nat) | DuplicateEventId(index: nat)

  method ValidateHistory(hash: Hash, history: seq<Event>) returns (errors: seq<HistoryError>)
    ensures errors == [] <==> ValidHistory(hash, history)
  {
    errors := [];
    var previous: Option<Digest> := None;
    var ids: set<Id> := {};
    for i := 0 to |history|
      invariant previous == LastDigest(history[..i])
      invariant ids == set j | 0 <= j < i :: history[j].body.eventId
      invariant errors == [] <==> ValidHistory(hash, history[..i])
    {
      var event := history[i];
      var found := EventErrors(hash, i, event, previous, ids);
      ids := ids + {event.body.eventId};
      previous := Some(event.digest);
      errors := errors + found;
      ValidHistoryExtends(hash, history[..i], event);
      assert history[..i + 1] == history[..i] + [event];
    }
    assert history[..|history|] == history;
  }

  method EventErrors(hash: Hash, index: nat, event: Event, previous: Option<Digest>, ids: set<Id>)
    returns (errors: seq<HistoryError>)
    ensures errors == [] <==> event.body.previous == previous && event.digest == hash(HistoryDocument(event.body))
                              && event.body.eventId !in ids
  {
    errors := [];
    if event.body.previous != previous {
      errors := errors + [PreviousMismatch(index)];
    }
    if event.digest != hash(HistoryDocument(event.body)) {
      errors := errors + [DigestMismatch(index)];
    }
    if event.body.eventId in ids {
      errors := errors + [DuplicateEventId(index)];
    }
  }

  /**
   * Appending history_event with a fresh identifier keeps the history valid and moves the root to the new event,
   * which names each of its subjects once.
   */
  lemma AppendKeepsValid(hash: Hash, history: seq<Event>, eventId: Id, eventType: string, subjects: set<Digest>)
    requires ValidHistory(hash, history)
    requires forall j :: 0 <= j < |history| ==> history[j].body.eventId != eventId
    ensures var event := NewEvent(hash, history, eventId, eventType, subjects);
            && ValidHistory(hash, history + [event]) && Root(hash, history + [event]) == event.digest
            && event.body.eventId == eventId && event.body.eventType == eventType
            && NoDuplicates(event.body.subjects) && forall d :: d in event.body.subjects <==> d in subjects
  {
    SortedHasNoDuplicates(Sorted(subjects));
    ValidHistoryExtends(hash, history, NewEvent(hash, history, eventId, eventType, subjects));
  }

  /** The root determines the whole history. */
  lemma {:induction false} RootDeterminesHistory(hash: Hash, a: seq<Event>, b: seq<Event>)
    requires Injective(hash) && ValidHistory(hash, a) && ValidHistory(hash, b)
    requires Root(hash, a) == Root(hash, b)
    ensures a == b
  {
    if a != [] && b != [] {
      var x, y := a[|a| - 1], b[|b| - 1];
      var p, q := a[..|a| - 1], b[..|b| - 1];
      SameLastEvent(hash, p, x, q, y);
      if p != [] && q != [] {
        RootDeterminesHistory(hash, p, q);
      }
      assert a == p + [x] && b == q + [y];
    } else if a != [] {
      NonemptyRootDiffers(hash, a);
    } else if b != [] {
      NonemptyRootDiffers(hash, b);
    }
  }

  lemma SameLastEvent(hash: Hash, p: seq<Event>, x: Event, q: seq<Event>, y: Event)
    requires Injective(hash) && Follows(hash, p, x) && Follows(hash, q, y) && x.digest == y.digest
    ensures x == y && LastDigest(p) == LastDigest(q)
  {
    assert hash(HistoryDocument(x.body)) == hash(HistoryDocument(y.body));
  }

  lemma NonemptyRootDiffers(hash: Hash, history: seq<Event>)
    requires Injective(hash) && ValidHistory(hash, history) && history != []
    ensures Root(hash, history) != hash(EmptyHistory)
  {
    assert hash(HistoryDocument(history[|history| - 1].body)) != hash(EmptyHistory);
  }

  // ----- the object ledger

  function Digests(objects: seq<Entry>): (s: set<Digest>)
    ensures forall i :: 0 <= i < |objects| ==> objects[i].digest in s
  {
    set i | 0 <= i < |objects| :: objects[i].digest
  }

  /** Distinct digests, registered kinds, no dangling sources. */
  ghost predicate ValidObjects(objects: seq<Entry>)
  {
    && (forall i, j :: 0 <= i < j < |objects| ==> objects[i].digest != objects[j].digest)
    && (forall i :: 0 <= i < |objects| ==> objects[i].kind in KINDS)
    && (forall i, d :: 0 <= i < |objects| && d in objects[i].sources ==> d in Digests(objects))
  }

  datatype ObjectError = DuplicateDigest(index: nat) | UnregisteredKind(index: nat) | DanglingSource(index: nat)

  method ValidateObjects(objects: seq<Entry>) returns (errors: seq<ObjectError>)
    ensures errors == [] <==> ValidObjects(objects)
  {
    errors := [];
    var digests: set<Digest> := {};
    for i := 0 to |objects|
      invariant digests == Digests(objects[..i])
      invariant errors == [] <==>
                && (forall j, k :: 0 <= j < k < i ==> objects[j].digest != objects[k].digest)
                && (forall j :: 0 <= j < i ==> objects[j].kind in KINDS)
    {
      if objects[i].digest in digests {
        errors := errors + [DuplicateDigest(i)];
      }
      digests := digests + {objects[i].digest};
      if objects[i].kind !in KINDS {
        errors := errors + [UnregisteredKind(i)];
      }
    }
    assert objects[..|objects|] == objects;
    ghost var early := errors == [];
    for i := 0 to |objects|
      invariant errors == [] <==> early && forall j, d :: 0 <= j < i && d in objects[j].sources ==> d in digests
    {
      for k := 0 to |objects[i].sources|
        invariant errors == [] <==> early && (forall j, d :: 0 <= j < i && d in objects[j].sources ==> d in digests)
                                    && forall d :: d in objects[i].sources[..k] ==> d in digests
      {
        if objects[i].sources[k] !in digests {
          errors := errors + [DanglingSource(i)];
        }
      }
      assert objects[i].sources[..|objects[i].sources|] == objects[i].sources;
    }
  }
}
