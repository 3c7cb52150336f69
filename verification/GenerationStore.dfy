/** Immutable generation manifests behind one compare-and-set CURRENT pointer. */
module GenerationStore {
  import opened Ids
  import opened Ledger

  const MAX_GENERATION_DEPTH: nat := 4096

  /** What lies at a manifest path: the identifier it records, the manifest, and whether it meets the schema. */
  datatype File = File(generationId: Digest, manifest: Manifest, wellFormed: bool)

  type Files = map<Digest, File>

  /** load_manifest: only a well-formed manifest stored under its own digest is accepted. */
  function Load(hash: Hash, files: Files, id: Digest): Option<Manifest>
  {
    if id in files && files[id].wellFormed && files[id].generationId == id
       && hash(GenerationDocument(files[id].manifest)) == id
    then Some(files[id].manifest) else None
  }

  /** What is loaded under an identifier is the stored manifest with that digest, and nothing else. */
  lemma LoadIsGenuine(hash: Hash, files: Files, id: Digest, m: Manifest)
    ensures Load(hash, files, id) == Some(m) <==> id in files && files[id] == File(id, m, true) && IdOf(hash, m) == id
  {
  }

  /** With an injective digest an identifier stands for one manifest, in whatever store it is found. */
  lemma IdentifierDeterminesManifest(hash: Hash, files: Files, others: Files, id: Digest)
    requires Injective(hash) && Load(hash, files, id).Some? && Load(hash, others, id).Some?
    ensures Load(hash, files, id) == Load(hash, others, id)
  {
    var m, n := Load(hash, files, id).value, Load(hash, others, id).value;
    LoadIsGenuine(hash, files, id, m);
    LoadIsGenuine(hash, others, id, n);
    assert hash(GenerationDocument(m)) == hash(GenerationDocument(n));
  }

  // ----- chains

  /** The generations met from start by following previous pointers, down to null. */
  ghost predicate Linked(hash: Hash, files: Files, start: Option<Digest>, chain: seq<Digest>)
    decreases |chain|
  {
    if chain == [] then start.None?
    else
      && start == Some(chain[0]) && Load(hash, files, chain[0]).Some?
      && Linked(hash, files, Load(hash, files, chain[0]).value.previous, chain[1..])
  }

  lemma {:induction false} ChainIsUnique(hash: Hash, files: Files, start: Option<Digest>, a: seq<Digest>, b: seq<Digest>)
    requires Linked(hash, files, start, a) && Linked(hash, files, start, b)
    ensures a == b
    decreases |a|
  {
    if a != [] && b != [] {
      ChainIsUnique(hash, files, Load(hash, files, a[0]).value.previous, a[1..], b[1..]);
      assert a == [a[0]] + a[1..] && b == [b[0]] + b[1..];
    }
  }

  /** Following the chain from its start until the k-th generation. */
  lemma {:induction false} ChainSuffix(hash: Hash, files: Files, start: Option<Digest>, chain: seq<Digest>, k: nat)
    requires Linked(hash, files, start, chain) && k < |chain|
    ensures Linked(hash, files, Some(chain[k]), chain[k..])
    decreases |chain|
  {
    if k > 0 {
      ChainSuffix(hash, files, Load(hash, files, chain[0]).value.previous, chain[1..], k - 1);
      assert chain[1..][k - 1..] == chain[k..];
    }
  }

  /** The pointer fixes everything behind it: two stores with the same CURRENT have the same chain of the same manifests. */
  lemma {:induction false} PointerDeterminesChain(hash: Hash, files: Files, others: Files, start: Option<Digest>,
                                                 a: seq<Digest>, b: seq<Digest>)
    requires Injective(hash) && Linked(hash, files, start, a) && Linked(hash, others, start, b)
    ensures a == b && forall k :: 0 <= k < |a| ==> Load(hash, files, a[k]) == Load(hash, others, a[k])
    decreases |a|
  {
    if a != [] {
      IdentifierDeterminesManifest(hash, files, others, a[0]);
      PointerDeterminesChain(hash, files, others, Load(hash, files, a[0]).value.previous, a[1..], b[1..]);
      assert a == [a[0]] + a[1..] && b == [b[0]] + b[1..];
      forall k | 0 <= k < |a| ensures Load(hash, files, a[k]) == Load(hash, others, a[k]) {
        if k > 0 {
          assert a[k] == a[1..][k - 1];
        }
      }
    }
  }

  /** A finite chain meets no generation twice. */
  lemma ChainHasNoDuplicates(hash: Hash, files: Files, start: Option<Digest>, chain: seq<Digest>)
    requires Linked(hash, files, start, chain)
    ensures NoDuplicates(chain)
  {
    forall i, j | 0 <= i < j < |chain| ensures chain[i] != chain[j] {
      ChainSuffix(hash, files, start, chain, i);
      ChainSuffix(hash, files, start, chain, j);
      if chain[i] == chain[j] {
        ChainIsUnique(hash, files, Some(chain[i]), chain[i..], chain[j..]);
      }
    }
  }

  lemma {:induction false} ChainSurvives(hash: Hash, files: Files, more: Files, start: Option<Digest>, chain: seq<Digest>)
    requires Linked(hash, files, start, chain)
    requires forall id :: id in files ==> id in more && more[id] == files[id]
    ensures Linked(hash, more, start, chain)
    decreases |chain|
  {
    if chain != [] {
      ChainSurvives(hash, files, more, Load(hash, files, chain[0]).value.previous, chain[1..]);
    }
  }

  /** The walk of verify_chain: prefix has been met, selected comes next. */
  ghost predicate Walked(hash: Hash, files: Files, start: Option<Digest>, prefix: seq<Digest>, selected: Option<Digest>)
    decreases |prefix|
  {
    if prefix == [] then start == selected
    else
      && start == Some(prefix[0]) && Load(hash, files, prefix[0]).Some?
      && Walked(hash, files, Load(hash, files, prefix[0]).value.previous, prefix[1..], selected)
  }

  lemma {:induction false} WalkExtends(hash: Hash, files: Files, start: Option<Digest>, prefix: seq<Digest>, next: Digest)
    requires Walked(hash, files, start, prefix, Some(next)) && Load(hash, files, next).Some?
    ensures Walked(hash, files, start, prefix + [next], Load(hash, files, next).value.previous)
    decreases |prefix|
  {
    if prefix != [] {
      WalkExtends(hash, files, Load(hash, files, prefix[0]).value.previous, prefix[1..], next);
      assert (prefix + [next])[1..] == prefix[1..] + [next];
    }
  }

  /** Any chain from the start begins with what has been walked. */
  lemma {:induction false} WalkIsPrefix(hash: Hash, files: Files, start: Option<Digest>, prefix: seq<Digest>,
                                        selected: Option<Digest>, chain: seq<Digest>)
    requires Walked(hash, files, start, prefix, selected) && Linked(hash, files, start, chain)
    ensures prefix <= chain && Linked(hash, files, selected, chain[|prefix|..])
    decreases |prefix|
  {
    if prefix != [] {
      WalkIsPrefix(hash, files, Load(hash, files, prefix[0]).value.previous, prefix[1..], selected, chain[1..]);
      assert chain == [chain[0]] + chain[1..] && prefix == [prefix[0]] + prefix[1..];
      assert chain[1..][|prefix[1..]|..] == chain[|prefix|..];
    } else {
      assert chain[0..] == chain;
    }
  }

  lemma {:induction false} WalkedOut(hash: Hash, files: Files, start: Option<Digest>, prefix: seq<Digest>)
    requires Walked(hash, files, start, prefix, None)
    ensures Linked(hash, files, start, prefix)
    decreases |prefix|
  {
    if prefix != [] {
      WalkedOut(hash, files, Load(hash, files, prefix[0]).value.previous, prefix[1..]);
    }
  }

  ghost predicate SoundWithin(hash: Hash, files: Files, start: Option<Digest>, limit: nat)
  {
    exists chain :: Linked(hash, files, start, chain) && |chain| <= limit
  }

  ghost predicate Exceeds(hash: Hash, files: Files, start: Option<Digest>, prefix: seq<Digest>)
  {
    |prefix| == MAX_GENERATION_DEPTH && exists next :: Walked(hash, files, start, prefix, Some(next))
  }

  ghost predicate Repeats(hash: Hash, files: Files, start: Option<Digest>, prefix: seq<Digest>, id: Digest)
  {
    Walked(hash, files, start, prefix, Some(id)) && id in prefix
  }

  ghost predicate Breaks(hash: Hash, files: Files, start: Option<Digest>, prefix: seq<Digest>, id: Digest)
  {
    Walked(hash, files, start, prefix, Some(id)) && Load(hash, files, id).None?
  }

  /** What the walk from CURRENT met: more than the limit, a generation for the second time, or one it cannot load. */
  ghost predicate IsChainError(hash: Hash, files: Files, start: Option<Digest>, e: ChainError)
  {
    match e
    case LimitExceeded => exists prefix :: Exceeds(hash, files, start, prefix)
    case Cycle(id) => exists prefix :: Repeats(hash, files, start, prefix, id)
    case GenerationInvalid(id) => exists prefix :: Breaks(hash, files, start, prefix, id)
  }

  // ----- commits

  /** The manifest a commit builds from a payload. */
  function Built(hash: Hash, payload: Manifest, previous: Option<Digest>): Manifest
  {
    payload.(previous := previous, historyRoot := Root(hash, payload.history))
  }

  function IdOf(hash: Hash, m: Manifest): Digest
  {
    hash(GenerationDocument(m))
  }

  /** Everything commit checks about the payload itself; schemaOk is the outcome of the schema check. */
  ghost predicate Acceptable(hash: Hash, payload: Manifest, schemaOk: bool)
  {
    schemaOk && ValidHistory(hash, payload.history) && ValidObjects(payload.objects)
  }

  datatype ChainError = LimitExceeded | Cycle(id: Digest) | GenerationInvalid(id: Digest)

  datatype CommitResult = Committed(id: Digest, previous: Option<Digest>) | Concurrent | PayloadInvalid | Collision | Crashed

  /** Where a commit may be cut short. */
  datatype Fault = NoFault | BeforeManifest | BeforePointer

  class Store {
    const hash: Hash
    var files: Files
    var current: Option<Digest>
    var cas: map<Digest, Document>

    constructor (hash: Hash)
      ensures this.hash == hash && files == map[] && current == None && cas == map[]
    {
      this.hash := hash;
      files, current, cas := map[], None, map[];
    }

    /** Content-addressed objects are stored under their digest. */
    method PutJson(document: Document) returns (digest: Digest)
      modifies this`cas
      ensures digest == hash(document) && cas == old(cas)[digest := document]
    {
      digest := hash(document);
      cas := cas[digest := document];
    }

    /**
     * commit: compare, build, validate, write the manifest, move the pointer. A fault after the manifest was
     * written leaves an unreferenced file and nothing else.
     */
    method Commit(payload: Manifest, expected: Option<Digest>, schemaOk: bool, fault: Fault) returns (r: CommitResult)
      modifies this`files, this`current
      ensures r.Concurrent? <==> old(current) != expected
      ensures r.PayloadInvalid? <==> old(current) == expected && !Acceptable(hash, payload, schemaOk)
      ensures var m := Built(hash, payload, old(current));
              var id := IdOf(hash, m);
              var file := File(id, m, true);
              && (r.Collision? <==> old(current) == expected && Acceptable(hash, payload, schemaOk)
                                    && fault != BeforeManifest && id in old(files) && old(files)[id] != file)
              && (r.Crashed? ==> fault != NoFault)
              && (r.Committed? ==> r == Committed(id, old(current)) && current == Some(id)
                                   && files == old(files)[id := file])
              && (!r.Committed? ==> current == old(current))
              && (r.Crashed? && fault == BeforePointer ==> files == old(files)[id := file])
              && (!r.Committed? && !(r.Crashed? && fault == BeforePointer) ==> files == old(files))
      ensures old(current) == expected && Acceptable(hash, payload, schemaOk) && !r.Collision?
              ==> if fault == NoFault then r.Committed? else r.Crashed?
    {
      var actual := current;
      if actual != expected {
        return Concurrent;
      }
      var manifest := Built(hash, payload, actual);
      var identifier := IdOf(hash, manifest);
      var historyErrors := ValidateHistory(hash, payload.history);
      var objectErrors := ValidateObjects(payload.objects);
      if !schemaOk || historyErrors != [] || objectErrors != [] {
        return PayloadInvalid;
      }
      if fault == BeforeManifest {
        return Crashed;
      }
      if identifier in files {
        if files[identifier] != File(identifier, manifest, true) {
          return Collision;
        }
      } else {
        files := files[identifier := File(identifier, manifest, true)];
      }
      if fault == BeforePointer {
        return Crashed;
      }
      current := Some(identifier);
      r := Committed(identifier, actual);
    }

    /** verify_chain: no error exactly when the chain from CURRENT is sound and within the depth limit. */
    method VerifyChain() returns (errors: seq<ChainError>)
      ensures errors == [] <==> SoundWithin(hash, files, current, MAX_GENERATION_DEPTH)
      ensures |errors| <= 1 && forall i :: 0 <= i < |errors| ==> IsChainError(hash, files, current, errors[i])
    {
      errors := [];
      var seen: set<Digest> := {};
      var selected := current;
      var depth := 0;
      ghost var prefix: seq<Digest> := [];
      while selected.Some?
        invariant Walked(hash, files, current, prefix, selected)
        invariant depth == |prefix| <= MAX_GENERATION_DEPTH
        invariant seen == set d | d in prefix
        decreases MAX_GENERATION_DEPTH - depth
      {
        depth := depth + 1;
        if depth > MAX_GENERATION_DEPTH {
          assert Exceeds(hash, files, current, prefix);
          NoShortChain(hash, files, current, prefix, selected, MAX_GENERATION_DEPTH);
          return [LimitExceeded];
        }
        if selected.value in seen {
          assert Repeats(hash, files, current, prefix, selected.value);
          NoChainThroughCycle(hash, files, current, prefix, selected.value);
          return [Cycle(selected.value)];
        }
        seen := seen + {selected.value};
        var manifest := Load(hash, files, selected.value);
        if manifest.None? {
          assert Breaks(hash, files, current, prefix, selected.value);
          NoChainThroughInvalid(hash, files, current, prefix, selected.value);
          return [GenerationInvalid(selected.value)];
        }
        WalkExtends(hash, files, current, prefix, selected.value);
        prefix := prefix + [selected.value];
        selected := manifest.value.previous;
      }
      WalkedOut(hash, files, current, prefix);
    }
  }

  lemma NoShortChain(hash: Hash, files: Files, start: Option<Digest>, prefix: seq<Digest>, selected: Option<Digest>,
                     limit: nat)
    requires Walked(hash, files, start, prefix, selected) && selected.Some? && |prefix| == limit
    ensures !SoundWithin(hash, files, start, limit)
  {
    forall chain | Linked(hash, files, start, chain) ensures |chain| > limit {
      WalkIsPrefix(hash, files, start, prefix, selected, chain);
    }
  }

  lemma NoChainThroughCycle(hash: Hash, files: Files, start: Option<Digest>, prefix: seq<Digest>, selected: Digest)
    requires Walked(hash, files, start, prefix, Some(selected)) && selected in prefix
    ensures forall chain :: !Linked(hash, files, start, chain)
  {
    var i :| 0 <= i < |prefix| && prefix[i] == selected;
    forall chain ensures !Linked(hash, files, start, chain) {
      if Linked(hash, files, start, chain) {
        WalkIsPrefix(hash, files, start, prefix, Some(selected), chain);
        ChainHasNoDuplicates(hash, files, start, chain);
        assert false;
      }
    }
  }

  lemma NoChainThroughInvalid(hash: Hash, files: Files, start: Option<Digest>, prefix: seq<Digest>, selected: Digest)
    requires Walked(hash, files, start, prefix, Some(selected)) && Load(hash, files, selected).None?
    ensures forall chain :: !Linked(hash, files, start, chain)
  {
    forall chain ensures !Linked(hash, files, start, chain) {
      if Linked(hash, files, start, chain) {
        WalkIsPrefix(hash, files, start, prefix, Some(selected), chain);
        assert false;
      }
    }
  }
}
