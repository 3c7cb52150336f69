/** Layered formation witnesses: which transformations fire, in which order, on which balances. */
module Formation {
  import opened Ids

  /** Flow quantities are None where their text is not a rational number. */
  datatype Edge = Edge(
    inputs: set<Id>, readEnablers: set<Id>, evidence: set<Id>, authority: set<Id>, hazards: set<Id>,
    inhibitors: set<Id>, catalysts: seq<set<Id>>, uncatalyzed: bool,
    outputs: set<Id>, flows: map<Id, Option<real>>, supply: set<Id>)

  datatype Network = Network(id: Id, nodes: set<Id>, edges: map<Id, Edge>)

  /** A floor entry that is not a record is never compared. */
  datatype Floor = NotRecord | Floor(quantity: Option<real>)

  datatype Contract = Contract(targets: set<Id>, maximumLayers: int, registry: set<Id>, floors: map<Id, Floor>)

  /** Coordinates in the order the marking lists them. */
  datatype Marking = Marking(id: Id, states: set<Id>, coordinates: seq<(Id, Option<real>)>)

  /** A layer that is not a list is None. */
  datatype Witness = Witness(
    transformations: set<Id>, targets: set<Id>, networkRef: Id, markingRef: Id, layers: seq<Option<seq<Id>>>)

  datatype Reason =
    | OrganizationMismatch | TargetMismatch | NetworkMismatch | MarkingMismatch
    | LayerLimit | LayerCoverage | CoordinatesInvalid | LayerInvalid(layer: nat)
    | TransformationMissing(id: Id) | NotStrictlyPrior(id: Id)
    | FloorViolation(layer: nat, id: Id, coordinate: Id) | CoordinateInvalid(id: Id, coordinate: Id)
    | TargetsNotFormed

  function Get(m: map<Id, real>, key: Id): real
  {
    if key in m then m[key] else 0.0
  }

  // ----- one transformation

  predicate Enabled(edge: Edge, available: set<Id>, nodes: set<Id>)
  {
    && edge.inputs + edge.readEnablers + edge.evidence + edge.authority + edge.hazards <= available
    && edge.inhibitors * available == {}
    && (edge.uncatalyzed || exists i :: 0 <= i < |edge.catalysts| && edge.catalysts[i] != {} && edge.catalysts[i] <= available)
    && edge.outputs != {} && edge.outputs <= nodes
  }

  function Flow(edge: Edge, coordinate: Id): Option<real>
  {
    if coordinate in edge.flows then edge.flows[coordinate] else Some(0.0)
  }

  // ----- a firing sequence

  datatype Setting = Setting(contract: Contract, net: Network, start: map<Id, real>)

  /** What firing the transformation adds to a coordinate: nothing outside the registry. */
  function Change(s: Setting, id: Id, coordinate: Id): real
  {
    if id in s.net.edges && coordinate in s.contract.registry && Flow(s.net.edges[id], coordinate).Some?
      then Flow(s.net.edges[id], coordinate).value else 0.0
  }

  function Balance(s: Setting, fired: seq<Id>, coordinate: Id): real
  {
    if fired == [] then Get(s.start, coordinate)
    else Balance(s, fired[..|fired| - 1], coordinate) + Change(s, fired[|fired| - 1], coordinate)
  }

  predicate FlowParses(s: Setting, id: Id, coordinate: Id)
  {
    id in s.net.edges ==> Flow(s.net.edges[id], coordinate).Some?
  }

  predicate FloorParses(s: Setting, coordinate: Id)
  {
    coordinate in s.contract.floors ==>
      s.contract.floors[coordinate].NotRecord? || s.contract.floors[coordinate].quantity.Some?
  }

  predicate HasFloor(contract: Contract, coordinate: Id)
  {
    coordinate in contract.floors && contract.floors[coordinate].Floor? && contract.floors[coordinate].quantity.Some?
  }

  function FloorOf(contract: Contract, coordinate: Id): real
  {
    if HasFloor(contract, coordinate) then contract.floors[coordinate].quantity.value else 0.0
  }

  predicate BelowFloor(s: Setting, balance: real, coordinate: Id)
  {
    HasFloor(s.contract, coordinate) && balance < FloorOf(s.contract, coordinate)
  }

  /** What a coordinate contributes when the transformation fires with the given balance afterwards. */
  function CoordinateReasons(s: Setting, layer: nat, id: Id, after: real, coordinate: Id): set<Reason>
  {
    if !FlowParses(s, id, coordinate) || !FloorParses(s, coordinate) then {CoordinateInvalid(id, coordinate)}
    else if BelowFloor(s, after, coordinate) then {FloorViolation(layer, id, coordinate)}
    else {}
  }

  function FiringReasons(s: Setting, layer: nat, id: Id, after: Id -> real): set<Reason>
  {
    set c, r | c in s.contract.registry && r in CoordinateReasons(s, layer, id, after(c), c) :: r
  }

  function After(s: Setting, fired: seq<Id>, id: Id): Id -> real
  {
    c => Balance(s, fired + [id], c)
  }

  /** What firing one transformation of a layer contributes, after the given ones and with the strictly prior states. */
  function StepReasons(s: Setting, layer: nat, prior: set<Id>, fired: seq<Id>, id: Id): set<Reason>
  {
    if id !in s.net.edges then {TransformationMissing(id)}
    else
      (if Enabled(s.net.edges[id], prior, s.net.nodes) then {} else {NotStrictlyPrior(id)})
      + FiringReasons(s, layer, id, After(s, fired, id))
  }

  /** The reasons of the first n parts together. */
  function Union(n: nat, part: nat -> set<Reason>): set<Reason>
  {
    set i: nat, r | i < n && r in part(i) :: r
  }

  lemma UnionNext(n: nat, part: nat -> set<Reason>)
    ensures Union(n + 1, part) == Union(n, part) + part(n)
  {
  }

  lemma UnionIsEmpty(n: nat, part: nat -> set<Reason>)
    ensures Union(n, part) == {} <==> forall i: nat :: i < n ==> part(i) == {}
  {
    forall i: nat | i < n ensures part(i) <= Union(n, part) {
    }
  }

  function StepPart(s: Setting, layer: nat, prior: set<Id>, fired: seq<Id>, ids: seq<Id>): nat -> set<Reason>
  {
    (i: nat) => if i < |ids| then StepReasons(s, layer, prior, fired + ids[..i], ids[i]) else {}
  }

  function LayerReasons(s: Setting, layer: nat, prior: set<Id>, fired: seq<Id>, ids: seq<Id>): set<Reason>
  {
    Union(|ids|, StepPart(s, layer, prior, fired, ids))
  }

  function Outputs(net: Network, ids: seq<Id>): set<Id>
  {
    set id, p | id in ids && id in net.edges && p in net.edges[id].outputs :: p
  }

  // ----- layers

  function Flatten(layers: seq<Option<seq<Id>>>): seq<Id>
  {
    if layers == [] then []
    else Flatten(layers[..|layers| - 1]) + (if layers[|layers| - 1].Some? then layers[|layers| - 1].value else [])
  }

  /** The states available once these layers have fired. */
  function Available(net: Network, states: set<Id>, layers: seq<Option<seq<Id>>>): set<Id>
  {
    if layers == [] then states * net.nodes
    else
      var last := layers[|layers| - 1];
      Available(net, states, layers[..|layers| - 1]) + (if last.Some? then Outputs(net, last.value) else {})
  }

  function LayerPart(s: Setting, states: set<Id>, layers: seq<Option<seq<Id>>>): nat -> set<Reason>
  {
    (n: nat) =>
      if n >= |layers| then {}
      else if layers[n] == None || layers[n].value == [] then {LayerInvalid(n)}
      else LayerReasons(s, n, Available(s.net, states, layers[..n]), Flatten(layers[..n]), layers[n].value)
  }

  function LayersReasons(s: Setting, states: set<Id>, layers: seq<Option<seq<Id>>>): set<Reason>
  {
    Union(|layers|, LayerPart(s, states, layers))
  }

  /** Reads coordinates until the first that does not parse. */
  function Parsed(coordinates: seq<(Id, Option<real>)>): (balances: map<Id, real>)
  {
    if coordinates == [] then map[]
    else
      var n := |coordinates| - 1;
      var balances := Parsed(coordinates[..n]);
      if AllParse(coordinates) then balances[coordinates[n].0 := coordinates[n].1.value] else balances
  }

  predicate AllParse(coordinates: seq<(Id, Option<real>)>)
  {
    forall i :: 0 <= i < |coordinates| ==> coordinates[i].1.Some?
  }

  function SettingOf(contract: Contract, net: Network, marking: Marking): Setting
  {
    Setting(contract, net, Parsed(marking.coordinates))
  }

  predicate LayersInRange(contract: Contract, w: Witness)
  {
    w.layers != [] && |w.layers| <= contract.maximumLayers
  }

  function UsedLayers(contract: Contract, w: Witness): seq<Option<seq<Id>>>
  {
    if LayersInRange(contract, w) then w.layers else []
  }

  function AsSet(ids: seq<Id>): set<Id>
  {
    set id | id in ids
  }

  predicate Covers(layers: seq<Option<seq<Id>>>, transformations: set<Id>)
  {
    NoDuplicates(Flatten(layers)) && AsSet(Flatten(layers)) == transformations
  }

  function Unless(condition: bool, reason: Reason): set<Reason>
  {
    if condition then {} else {reason}
  }

  function BindingReasons(contract: Contract, net: Network, marking: Marking, w: Witness, organization: set<Id>): set<Reason>
  {
    Unless(w.transformations == organization, OrganizationMismatch)
    + Unless(w.targets == contract.targets, TargetMismatch)
    + Unless(w.networkRef == net.id, NetworkMismatch)
    + Unless(w.markingRef == marking.id, MarkingMismatch)
    + Unless(LayersInRange(contract, w), LayerLimit)
    + Unless(Covers(UsedLayers(contract, w), w.transformations), LayerCoverage)
  }

  // ----- validate_formation

  method ReadBalances(coordinates: seq<(Id, Option<real>)>) returns (balances: map<Id, real>, ok: bool)
    ensures ok <==> AllParse(coordinates)
    ensures balances == Parsed(coordinates)
  {
    balances, ok := map[], true;
    for i := 0 to |coordinates|
      invariant AllParse(coordinates[..i])
      invariant balances == Parsed(coordinates[..i])
    {
      var next := coordinates[..i + 1];
      assert next[..i] == coordinates[..i];
      if coordinates[i].1 == None {
        ok := false;
        ParsedStops(coordinates, i);
        return;
      }
      balances := balances[coordinates[i].0 := coordinates[i].1.value];
    }
    assert coordinates[..|coordinates|] == coordinates;
  }

  lemma {:induction false} ParsedStops(coordinates: seq<(Id, Option<real>)>, i: nat)
    requires i < |coordinates| && coordinates[i].1 == None
    ensures Parsed(coordinates) == Parsed(coordinates[..i])
  {
    var n := |coordinates| - 1;
    if i < n {
      assert coordinates[..n][..i] == coordinates[..i];
      ParsedStops(coordinates[..n], i);
    }
  }

  /** One coordinate of a firing: add the flow, then compare with the floor. */
  method FireCoordinate(s: Setting, layer: nat, id: Id, c: Id, before: real) returns (after: real, reasons: set<Reason>)
    requires id in s.net.edges && c in s.contract.registry
    ensures after == before + Change(s, id, c)
    ensures reasons == CoordinateReasons(s, layer, id, after, c)
  {
    after, reasons := before, {};
    var flow := Flow(s.net.edges[id], c);
    if flow == None {
      reasons := {CoordinateInvalid(id, c)};
    } else {
      after := before + flow.value;
      if c in s.contract.floors && s.contract.floors[c].Floor? {
        var floor := s.contract.floors[c].quantity;
        if floor == None {
          reasons := {CoordinateInvalid(id, c)};
        } else if after < floor.value {
          reasons := {FloorViolation(layer, id, c)};
        }
      }
    }
  }

  /** Fires one known transformation on the balances, coordinate by coordinate. */
  method Fire(s: Setting, layer: nat, id: Id, before: map<Id, real>, ghost after: Id -> real)
    returns (balances: map<Id, real>, reasons: set<Reason>)
    requires id in s.net.edges
    requires forall c :: after(c) == Get(before, c) + Change(s, id, c)
    ensures forall c :: Get(balances, c) == after(c)
    ensures reasons == FiringReasons(s, layer, id, after)
  {
    balances, reasons := before, {};
    var todo := s.contract.registry;
    while todo != {}
      invariant todo <= s.contract.registry
      invariant forall c :: Get(balances, c) == if c in todo then Get(before, c) else after(c)
      invariant forall r :: r in reasons <==>
        exists c :: c in s.contract.registry - todo && r in CoordinateReasons(s, layer, id, after(c), c)
      decreases |todo|
    {
      var c :| c in todo;
      var balance, found := FireCoordinate(s, layer, id, c, Get(balances, c));
      balances := balances[c := balance];
      reasons := reasons + found;
      todo := todo - {c};
    }
  }

  method FireLayer(s: Setting, layer: nat, prior: set<Id>, ghost fired: seq<Id>, ids: seq<Id>, before: map<Id, real>)
    returns (additions: set<Id>, balances: map<Id, real>, reasons: set<Reason>)
    requires forall c :: Get(before, c) == Balance(s, fired, c)
    ensures additions == Outputs(s.net, ids)
    ensures forall c :: Get(balances, c) == Balance(s, fired + ids, c)
    ensures reasons == LayerReasons(s, layer, prior, fired, ids)
  {
    additions, balances, reasons := {}, before, {};
    assert fired + ids[..0] == fired;
    for i := 0 to |ids|
      invariant additions == Outputs(s.net, ids[..i])
      invariant forall c :: Get(balances, c) == Balance(s, fired + ids[..i], c)
      invariant reasons == Union(i, StepPart(s, layer, prior, fired, ids))
    {
      var id := ids[i];
      OutputsNext(s.net, ids, i);
      FiredNext(fired, ids, i);
      UnionNext(i, StepPart(s, layer, prior, fired, ids));
      if id !in s.net.edges {
        reasons := reasons + {TransformationMissing(id)};
        BalanceExtends(s, fired + ids[..i], id);
      } else {
        var edge := s.net.edges[id];
        var step: set<Reason> := {};
        if !Enabled(edge, prior, s.net.nodes) {
          step := {NotStrictlyPrior(id)};
        }
        additions := additions + edge.outputs;
        var firing;
        BalanceExtends(s, fired + ids[..i], id);
        balances, firing := Fire(s, layer, id, balances, After(s, fired + ids[..i], id));
        reasons := reasons + (step + firing);
      }
    }
    assert ids[..|ids|] == ids;
  }

  lemma OutputsNext(net: Network, ids: seq<Id>, i: nat)
    requires i < |ids|
    ensures Outputs(net, ids[..i + 1]) == Outputs(net, ids[..i]) + (if ids[i] in net.edges then net.edges[ids[i]].outputs else {})
  {
    TakeOneMore(ids, i);
    assert forall id :: id in ids[..i + 1] <==> id in ids[..i] || id == ids[i];
  }

  lemma FiredNext(fired: seq<Id>, ids: seq<Id>, i: nat)
    requires i < |ids|
    ensures fired + ids[..i + 1] == fired + ids[..i] + [ids[i]]
  {
    TakeOneMore(ids, i);
  }

  lemma BalanceExtends(s: Setting, fired: seq<Id>, id: Id)
    ensures forall c :: Balance(s, fired + [id], c) == Balance(s, fired, c) + Change(s, id, c)
  {
    assert (fired + [id])[..|fired|] == fired;
  }

  // ----- the layers in turn

  /** What the report keeps of a layer: its position, and the states and balances once it has fired. */
  datatype Prefix = Prefix(layer: nat, available: set<Id>, balances: map<Id, real>)

  predicate GoodLayer(layer: Option<seq<Id>>)
  {
    layer.Some? && layer.value != []
  }

  /** These are the states and balances after the first n layers. */
  ghost predicate Reached(s: Setting, states: set<Id>, layers: seq<Option<seq<Id>>>, n: nat, available: set<Id>,
                          balances: map<Id, real>)
    requires n <= |layers|
  {
    && available == Available(s.net, states, layers[..n])
    && forall c :: Get(balances, c) == Balance(s, Flatten(layers[..n]), c)
  }

  ghost predicate IsPrefix(s: Setting, states: set<Id>, layers: seq<Option<seq<Id>>>, n: nat, p: Prefix)
    requires n <= |layers|
  {
    p.layer < n && GoodLayer(layers[p.layer]) && Reached(s, states, layers, p.layer + 1, p.available, p.balances)
  }

  /** One record for each usable layer among the first n, in their order. */
  ghost predicate ArePrefixes(s: Setting, states: set<Id>, layers: seq<Option<seq<Id>>>, n: nat, prefix: seq<Prefix>)
    requires n <= |layers|
  {
    && (forall k :: 0 <= k < |prefix| ==> IsPrefix(s, states, layers, n, prefix[k]))
    && (forall k, l :: 0 <= k < l < |prefix| ==> prefix[k].layer < prefix[l].layer)
    && forall m :: 0 <= m < n && GoodLayer(layers[m]) ==> Recorded(prefix, m)
  }

  ghost predicate Recorded(prefix: seq<Prefix>, layer: nat)
  {
    exists k :: 0 <= k < |prefix| && prefix[k].layer == layer
  }

  lemma SkipLayer(s: Setting, states: set<Id>, layers: seq<Option<seq<Id>>>, n: nat, available: set<Id>,
                  balances: map<Id, real>, prefix: seq<Prefix>)
    requires n < |layers| && !GoodLayer(layers[n])
    requires Reached(s, states, layers, n, available, balances) && ArePrefixes(s, states, layers, n, prefix)
    ensures Reached(s, states, layers, n + 1, available, balances) && ArePrefixes(s, states, layers, n + 1, prefix)
  {
    var next := layers[..n + 1];
    assert next[..n] == layers[..n] && next[n] == layers[n];
    assert Flatten(next) == Flatten(layers[..n]);
    assert Available(s.net, states, next) == available;
    forall k | 0 <= k < |prefix| ensures IsPrefix(s, states, layers, n + 1, prefix[k]) {
      assert IsPrefix(s, states, layers, n, prefix[k]);
    }
  }

  lemma PassLayer(s: Setting, states: set<Id>, layers: seq<Option<seq<Id>>>, n: nat, available: set<Id>,
                  after: map<Id, real>)
    requires n < |layers| && GoodLayer(layers[n]) && available == Available(s.net, states, layers[..n])
    requires forall c :: Get(after, c) == Balance(s, Flatten(layers[..n]) + layers[n].value, c)
    ensures Reached(s, states, layers, n + 1, available + Outputs(s.net, layers[n].value), after)
  {
    var next := layers[..n + 1];
    assert next[..n] == layers[..n] && next[n] == layers[n];
    assert Flatten(next) == Flatten(layers[..n]) + layers[n].value;
  }

  lemma RecordLayer(s: Setting, states: set<Id>, layers: seq<Option<seq<Id>>>, n: nat, prefix: seq<Prefix>, p: Prefix)
    requires n < |layers| && ArePrefixes(s, states, layers, n, prefix)
    requires p.layer == n && GoodLayer(layers[n]) && Reached(s, states, layers, n + 1, p.available, p.balances)
    ensures ArePrefixes(s, states, layers, n + 1, prefix + [p])
  {
    var more := prefix + [p];
    forall k | 0 <= k < |more| ensures IsPrefix(s, states, layers, n + 1, more[k]) {
      assert k < |prefix| ==> IsPrefix(s, states, layers, n, prefix[k]);
    }
    forall k, l | 0 <= k < l < |more| ensures more[k].layer < more[l].layer {
      assert IsPrefix(s, states, layers, n, prefix[k]);
    }
    forall m | 0 <= m <= n && GoodLayer(layers[m]) ensures Recorded(more, m) {
      if m < n {
        var k :| 0 <= k < |prefix| && prefix[k].layer == m;
        assert more[k].layer == m;
      } else {
        assert more[|prefix|].layer == m;
      }
    }
  }

  /** validate_formation once witness, marking and organization are all present. */
  method ValidateFormation(contract: Contract, net: Network, marking: Marking, w: Witness, organization: set<Id>)
    returns (reasons: set<Reason>, prefix: seq<Prefix>)
    ensures reasons == FormationReasons(contract, net, marking, w, organization)
    ensures var layers := UsedLayers(contract, w);
            ArePrefixes(SettingOf(contract, net, marking), marking.states, layers, |layers|, prefix)
  {
    reasons := BindingReasons(contract, net, marking, w, organization);
    var layers := UsedLayers(contract, w);
    var balances, ok := ReadBalances(marking.coordinates);
    if !ok { reasons := reasons + {CoordinatesInvalid}; }
    var fired, found;
    fired, found, prefix := FireLayers(SettingOf(contract, net, marking), marking.states, layers, balances);
    reasons := reasons + found;
    if !(contract.targets <= fired) { reasons := reasons + {TargetsNotFormed}; }
  }

  method FireLayers(s: Setting, states: set<Id>, layers: seq<Option<seq<Id>>>, start: map<Id, real>)
    returns (available: set<Id>, reasons: set<Reason>, prefix: seq<Prefix>)
    requires start == s.start
    ensures available == Available(s.net, states, layers)
    ensures reasons == LayersReasons(s, states, layers)
    ensures ArePrefixes(s, states, layers, |layers|, prefix)
  {
    var balances := start;
    available, reasons, prefix := states * s.net.nodes, {}, [];
    for n := 0 to |layers|
      invariant Reached(s, states, layers, n, available, balances)
      invariant reasons == Union(n, LayerPart(s, states, layers))
      invariant ArePrefixes(s, states, layers, n, prefix)
    {
      UnionNext(n, LayerPart(s, states, layers));
      if layers[n] == None || layers[n].value == [] {
        reasons := reasons + {LayerInvalid(n)};
        SkipLayer(s, states, layers, n, available, balances, prefix);
      } else {
        var additions, found;
        additions, balances, found := FireLayer(s, n, available, Flatten(layers[..n]), layers[n].value, balances);
        PassLayer(s, states, layers, n, available, balances);
        available := available + additions;
        reasons := reasons + found;
        var snapshot := Prefix(n, available, balances);
        RecordLayer(s, states, layers, n, prefix, snapshot);
        prefix := prefix + [snapshot];
      }
    }
    assert layers[..|layers|] == layers;
  }

  function FormationReasons(contract: Contract, net: Network, marking: Marking, w: Witness, organization: set<Id>): set<Reason>
  {
    var layers := UsedLayers(contract, w);
    BindingReasons(contract, net, marking, w, organization)
    + Unless(AllParse(marking.coordinates), CoordinatesInvalid)
    + LayersReasons(SettingOf(contract, net, marking), marking.states, layers)
    + Unless(contract.targets <= Available(net, marking.states, layers), TargetsNotFormed)
  }

  // ----- what acceptance means

  /** Everything needed is there, nothing inhibiting is, a catalyst is complete or none is needed, and it produces known states. */
  ghost predicate PrerequisitesMet(edge: Edge, available: set<Id>, nodes: set<Id>)
  {
    && (forall p :: p in edge.inputs || p in edge.readEnablers || p in edge.evidence || p in edge.authority || p in edge.hazards
          ==> p in available)
    && (forall p :: p in edge.inhibitors ==> p !in available)
    && (edge.uncatalyzed || exists i :: 0 <= i < |edge.catalysts| && CatalystComplete(edge.catalysts[i], available))
    && (exists p :: p in edge.outputs) && (forall p :: p in edge.outputs ==> p in nodes)
  }

  ghost predicate CatalystComplete(catalyst: set<Id>, available: set<Id>)
  {
    (exists p :: p in catalyst) && forall p :: p in catalyst ==> p in available
  }

  lemma EnabledIffMet(edge: Edge, available: set<Id>, nodes: set<Id>)
    ensures Enabled(edge, available, nodes) <==> PrerequisitesMet(edge, available, nodes)
  {
    assert (exists p :: p in edge.outputs) <==> edge.outputs != {};
    assert forall i :: 0 <= i < |edge.catalysts| ==>
      (CatalystComplete(edge.catalysts[i], available) <==> edge.catalysts[i] != {} && edge.catalysts[i] <= available);
    DisjointByMembers(edge.inhibitors, available);
    if PrerequisitesMet(edge, available, nodes) {
      assert edge.inputs <= available && edge.readEnablers <= available && edge.evidence <= available;
      assert edge.authority <= available && edge.hazards <= available;
    }
  }

  /** The transformation is known and enabled by strictly prior states; every registered coordinate stays on its floor. */
  ghost predicate StepIsSound(s: Setting, prior: set<Id>, fired: seq<Id>, id: Id)
  {
    && id in s.net.edges && PrerequisitesMet(s.net.edges[id], prior, s.net.nodes)
    && forall c :: c in s.contract.registry ==>
         FlowParses(s, id, c) && FloorParses(s, c) && !BelowFloor(s, Balance(s, fired + [id], c), c)
  }

  lemma StepReasonsEmptyIffSound(s: Setting, layer: nat, prior: set<Id>, fired: seq<Id>, id: Id)
    ensures StepReasons(s, layer, prior, fired, id) == {} <==> StepIsSound(s, prior, fired, id)
  {
    if id in s.net.edges {
      EnabledIffMet(s.net.edges[id], prior, s.net.nodes);
    }
    var after := After(s, fired, id);
    forall c | c in s.contract.registry
      ensures CoordinateReasons(s, layer, id, after(c), c) <= FiringReasons(s, layer, id, after)
    {
    }
    if FiringReasons(s, layer, id, after) == {} {
      forall c | c in s.contract.registry
        ensures FlowParses(s, id, c) && FloorParses(s, c) && !BelowFloor(s, after(c), c)
      {
        assert CoordinateReasons(s, layer, id, after(c), c) == {};
      }
    }
  }

  ghost predicate LayerIsSound(s: Setting, prior: set<Id>, fired: seq<Id>, ids: seq<Id>)
  {
    forall i: nat :: i < |ids| ==> StepIsSound(s, prior, fired + ids[..i], ids[i])
  }

  lemma LayerReasonsEmptyIffSound(s: Setting, layer: nat, prior: set<Id>, fired: seq<Id>, ids: seq<Id>)
    ensures LayerReasons(s, layer, prior, fired, ids) == {} <==> LayerIsSound(s, prior, fired, ids)
  {
    var part := StepPart(s, layer, prior, fired, ids);
    UnionIsEmpty(|ids|, part);
    forall i: nat | i < |ids| ensures part(i) == {} <==> StepIsSound(s, prior, fired + ids[..i], ids[i]) {
      StepReasonsEmptyIffSound(s, layer, prior, fired + ids[..i], ids[i]);
    }
  }

  /** Every layer is a nonempty list that is sound after the layers before it. */
  ghost predicate LayersAreSound(s: Setting, states: set<Id>, layers: seq<Option<seq<Id>>>)
  {
    forall n: nat :: n < |layers| ==>
      && layers[n].Some? && layers[n].value != []
      && LayerIsSound(s, Available(s.net, states, layers[..n]), Flatten(layers[..n]), layers[n].value)
  }

  lemma LayersReasonsEmptyIffSound(s: Setting, states: set<Id>, layers: seq<Option<seq<Id>>>)
    ensures LayersReasons(s, states, layers) == {} <==> LayersAreSound(s, states, layers)
  {
    var part := LayerPart(s, states, layers);
    UnionIsEmpty(|layers|, part);
    forall n: nat | n < |layers|
      ensures part(n) == {}
         <==> (layers[n].Some? && layers[n].value != []
               && LayerIsSound(s, Available(s.net, states, layers[..n]), Flatten(layers[..n]), layers[n].value))
    {
      if layers[n].Some? && layers[n].value != [] {
        LayerReasonsEmptyIffSound(s, n, Available(s.net, states, layers[..n]), Flatten(layers[..n]), layers[n].value);
      }
    }
  }

  /** What a formation witness has to show. */
  ghost predicate SoundFormation(contract: Contract, net: Network, marking: Marking, w: Witness, organization: set<Id>)
  {
    && w.transformations == organization && w.targets == contract.targets
    && w.networkRef == net.id && w.markingRef == marking.id
    && AllParse(marking.coordinates)
    && 0 < |w.layers| <= contract.maximumLayers
    && Covers(w.layers, organization)
    && LayersAreSound(SettingOf(contract, net, marking), marking.states, w.layers)
    && contract.targets <= Available(net, marking.states, w.layers)
  }

  lemma AcceptedIffSound(contract: Contract, net: Network, marking: Marking, w: Witness, organization: set<Id>)
    ensures FormationReasons(contract, net, marking, w, organization) == {}
       <==> SoundFormation(contract, net, marking, w, organization)
  {
    LayersReasonsEmptyIffSound(SettingOf(contract, net, marking), marking.states, UsedLayers(contract, w));
  }

  // ----- floors along the whole run

  /** The k-th firing overall is the i-th of layer n. */
  ghost predicate FiredAt(layers: seq<Option<seq<Id>>>, k: nat, n: nat, i: nat)
  {
    && k < |Flatten(layers)| && n < |layers| && layers[n].Some? && i < |layers[n].value|
    && Flatten(layers)[..k] == Flatten(layers[..n]) + layers[n].value[..i]
    && Flatten(layers)[k] == layers[n].value[i]
  }

  lemma {:induction false} Locate(layers: seq<Option<seq<Id>>>, k: nat) returns (n: nat, i: nat)
    requires k < |Flatten(layers)|
    ensures FiredAt(layers, k, n, i)
  {
    n := |layers| - 1;
    var init, all := layers[..n], Flatten(layers);
    if k < |Flatten(init)| {
      var last := n;
      n, i := Locate(init, k);
      assert init[..n] == layers[..n] && init[n] == layers[n];
      assert Flatten(init)[..k] == all[..k];
    } else {
      i := k - |Flatten(init)|;
      assert all[..k] == Flatten(init) + layers[n].value[..i];
    }
  }

  lemma StepWithoutObjection(s: Setting, layer: nat, prior: set<Id>, fired: seq<Id>, ids: seq<Id>, i: nat)
    requires LayerReasons(s, layer, prior, fired, ids) == {} && i < |ids|
    ensures StepReasons(s, layer, prior, fired + ids[..i], ids[i]) == {}
  {
    var part := StepPart(s, layer, prior, fired, ids);
    UnionIsEmpty(|ids|, part);
    assert part(i) == {};
  }

  lemma LayerWithoutObjection(s: Setting, states: set<Id>, layers: seq<Option<seq<Id>>>, n: nat)
    requires LayersReasons(s, states, layers) == {} && n < |layers|
    ensures layers[n].Some?
    ensures LayerReasons(s, n, Available(s.net, states, layers[..n]), Flatten(layers[..n]), layers[n].value) == {}
  {
    var part := LayerPart(s, states, layers);
    UnionIsEmpty(|layers|, part);
    assert part(n) == {};
  }

  /** Each firing of a run without objection is sound, with the states of the strictly earlier layers. */
  lemma EveryFiringIsSound(s: Setting, states: set<Id>, layers: seq<Option<seq<Id>>>, k: nat) returns (n: nat)
    requires LayersReasons(s, states, layers) == {} && k < |Flatten(layers)|
    ensures n < |layers|
    ensures StepReasons(s, n, Available(s.net, states, layers[..n]), Flatten(layers)[..k], Flatten(layers)[k]) == {}
  {
    var i;
    n, i := Locate(layers, k);
    LayerWithoutObjection(s, states, layers, n);
    StepWithoutObjection(s, n, Available(s.net, states, layers[..n]), Flatten(layers[..n]), layers[n].value, i);
  }

  lemma FloorAfterFiring(s: Setting, layer: nat, prior: set<Id>, fired: seq<Id>, id: Id, c: Id)
    requires StepReasons(s, layer, prior, fired, id) == {} && c in s.contract.registry && HasFloor(s.contract, c)
    ensures Balance(s, fired + [id], c) >= FloorOf(s.contract, c)
  {
    StepReasonsEmptyIffSound(s, layer, prior, fired, id);
  }

  /** A run of layers without objection keeps every registered protected coordinate on or above its floor. */
  lemma FloorsHoldAlong(s: Setting, states: set<Id>, layers: seq<Option<seq<Id>>>, fired: seq<Id>, c: Id)
    requires LayersReasons(s, states, layers) == {} && fired != [] && fired <= Flatten(layers)
    requires c in s.contract.registry && HasFloor(s.contract, c)
    ensures Balance(s, fired, c) >= FloorOf(s.contract, c)
  {
    var k := |fired| - 1;
    var n := EveryFiringIsSound(s, states, layers, k);
    FloorAfterFiring(s, n, Available(s.net, states, layers[..n]), Flatten(layers)[..k], Flatten(layers)[k], c);
    assert fired == Flatten(layers)[..k] + [Flatten(layers)[k]];
  }

  lemma NoObjections(contract: Contract, net: Network, marking: Marking, w: Witness, organization: set<Id>)
    requires FormationReasons(contract, net, marking, w, organization) == {}
    ensures LayersReasons(SettingOf(contract, net, marking), marking.states, w.layers) == {}
    ensures Covers(w.layers, organization) && w.transformations == organization
  {
  }

  /** In an accepted formation the floors hold after every firing: for every nonempty prefix of the run. */
  lemma FloorsHoldThroughout(contract: Contract, net: Network, marking: Marking, w: Witness, organization: set<Id>,
                             fired: seq<Id>, c: Id)
    requires FormationReasons(contract, net, marking, w, organization) == {}
    requires fired != [] && fired <= Flatten(w.layers) && c in contract.registry && HasFloor(contract, c)
    ensures Balance(SettingOf(contract, net, marking), fired, c) >= FloorOf(contract, c)
  {
    NoObjections(contract, net, marking, w, organization);
    FloorsHoldAlong(SettingOf(contract, net, marking), marking.states, w.layers, fired, c);
  }
}
