/** Exact flux coupling: blocked transformations and fully coupled classes of a balanced flux space. */
module FluxCoupling {
  import opened Ids
  import opened Vectors
  import Nullspace

  type Flows = map<Id, real>
  type Transformations = map<Id, Flows>

  datatype Ratio = NoRatio | Ratio(value: real)

  /** The report of exact_flux_coupling; ratios are keyed by the joined text "anchor|candidate". */
  datatype Report = Report(blocked: seq<Id>, classes: seq<seq<Id>>, ratios: map<string, real>, dimension: nat)

  function Flow(flows: Flows, coordinate: Id): real
  {
    if coordinate in flows then flows[coordinate] else 0.0
  }

  function FlowRow(ts: Transformations, coordinate: Id): (row: Vec)
    ensures |row| == |ts|
  {
    var ids := Sorted(ts.Keys);
    seq(|ids|, i requires 0 <= i < |ids| => Flow(ts[ids[i]], coordinate))
  }

  function FlowMatrix(ts: Transformations, coordinates: seq<Id>): (m: seq<Vec>)
    ensures |m| == |coordinates| && Nullspace.Rows(m, |ts|)
  {
    seq(|coordinates|, c requires 0 <= c < |coordinates| => FlowRow(ts, coordinates[c]))
  }

  function Position(ids: seq<Id>, id: Id): (p: nat)
    requires id in ids
    ensures p < |ids| && ids[p] == id
  {
    if ids[0] == id then 0 else 1 + Position(ids[1..], id)
  }

  /** Where a transformation stands in a flux vector. */
  function Column(ts: Transformations, id: Id): (p: nat)
    requires id in ts
    ensures p < |ts|
  {
    Position(Sorted(ts.Keys), id)
  }

  /** The flux x keeps every coordinate in balance. */
  ghost predicate Balanced(ts: Transformations, coordinates: seq<Id>, x: Vec)
  {
    && |x| == |ts|
    && forall c :: 0 <= c < |coordinates| ==> Dot(FlowRow(ts, coordinates[c]), x, |ts|) == 0.0
  }

  /** The transformation carries no flux in any balanced vector. */
  ghost predicate Blocked(ts: Transformations, coordinates: seq<Id>, id: Id)
    requires id in ts
  {
    forall x: Vec :: Balanced(ts, coordinates, x) ==> x[Column(ts, id)] == 0.0
  }

  ghost predicate FixedRatio(ts: Transformations, coordinates: seq<Id>, p: nat, q: nat, ratio: real)
    requires p < |ts| && q < |ts|
  {
    forall x: Vec :: Balanced(ts, coordinates, x) ==> x[q] == ratio * x[p]
  }

  /** One fixed nonzero ratio relates the two fluxes in every balanced vector. */
  ghost predicate CoupledBy(ts: Transformations, coordinates: seq<Id>, a: Id, b: Id, ratio: real)
    requires a in ts && b in ts
  {
    ratio != 0.0 && FixedRatio(ts, coordinates, Column(ts, a), Column(ts, b), ratio)
  }

  ghost predicate Coupled(ts: Transformations, coordinates: seq<Id>, a: Id, b: Id)
    requires a in ts && b in ts
  {
    exists ratio :: CoupledBy(ts, coordinates, a, b, ratio)
  }

  // ----- signatures

  predicate IsZero(a: Vec)
  {
    forall k :: 0 <= k < |a| ==> a[k] == 0.0
  }

  ghost predicate Proportional(a: Vec, b: Vec, ratio: real)
  {
    && |a| == |b| && ratio != 0.0
    && forall k :: 0 <= k < |a| ==> b[k] == ratio * a[k]
  }

  ghost predicate SameDirection(a: Vec, b: Vec)
  {
    exists ratio :: Proportional(a, b, ratio)
  }

  lemma ProportionalInverse(a: Vec, b: Vec, ratio: real)
    requires Proportional(a, b, ratio)
    ensures Proportional(b, a, 1.0 / ratio)
  {
    forall k | 0 <= k < |a| ensures a[k] == (1.0 / ratio) * b[k] {
      assert (1.0 / ratio) * (ratio * a[k]) == (1.0 / ratio) * ratio * a[k] == 1.0 * a[k];
    }
  }

  lemma ProportionalCompose(a: Vec, b: Vec, c: Vec, r: real, s: real)
    requires Proportional(a, b, r) && Proportional(b, c, s)
    ensures Proportional(a, c, s * r)
  {
    forall k | 0 <= k < |a| ensures c[k] == (s * r) * a[k] {
      assert s * (r * a[k]) == (s * r) * a[k];
    }
  }

  lemma SameDirectionSymmetric(a: Vec, b: Vec)
    requires SameDirection(a, b)
    ensures SameDirection(b, a)
  {
    var r :| Proportional(a, b, r);
    ProportionalInverse(a, b, r);
  }

  lemma SameDirectionTransitive(a: Vec, b: Vec, c: Vec)
    requires SameDirection(a, b) && SameDirection(b, c)
    ensures SameDirection(a, c)
  {
    var r :| Proportional(a, b, r);
    var s :| Proportional(b, c, s);
    ProportionalCompose(a, b, c, r, s);
  }

  function Signature(basis: seq<Vec>, p: nat): (s: Vec)
    requires forall i :: 0 <= i < |basis| ==> p < |basis[i]|
    ensures |s| == |basis|
  {
    seq(|basis|, k requires 0 <= k < |basis| => basis[k][p])
  }

  /** The basis answers every question about the balanced space, provided there is a coordinate. */
  ghost predicate IsBasis(ts: Transformations, coordinates: seq<Id>, basis: seq<Vec>, free: seq<nat>)
  {
    && coordinates != []
    && Nullspace.IsNullspaceBasis(FlowMatrix(ts, coordinates), |ts|, free, basis)
  }

  lemma BalancedIsSolution(ts: Transformations, coordinates: seq<Id>, x: Vec)
    ensures Balanced(ts, coordinates, x) <==> Nullspace.Solves(FlowMatrix(ts, coordinates), x, |ts|)
  {
    var m := FlowMatrix(ts, coordinates);
    if Nullspace.Solves(m, x, |ts|) {
      forall c | 0 <= c < |coordinates| ensures Dot(FlowRow(ts, coordinates[c]), x, |ts|) == 0.0 {
        assert m[c] == FlowRow(ts, coordinates[c]);
      }
    }
  }

  lemma BlockedIffZeroSignature(ts: Transformations, coordinates: seq<Id>, basis: seq<Vec>, free: seq<nat>, id: Id)
    requires IsBasis(ts, coordinates, basis, free) && id in ts
    ensures Blocked(ts, coordinates, id) <==> IsZero(Signature(basis, Column(ts, id)))
  {
    var p := Column(ts, id);
    if Blocked(ts, coordinates, id) {
      forall k | 0 <= k < |basis| ensures basis[k][p] == 0.0 {
        BalancedIsSolution(ts, coordinates, basis[k]);
      }
    }
    if IsZero(Signature(basis, p)) {
      forall i | 0 <= i < |basis| ensures basis[i][p] == 0.0 {
        assert Signature(basis, p)[i] == 0.0;
      }
      forall x: Vec | Balanced(ts, coordinates, x) ensures x[p] == 0.0 {
        BalancedIsSolution(ts, coordinates, x);
        CombinationAtZero(Nullspace.At(x, free), basis, |ts|, |basis|, p);
      }
    }
  }

  lemma BasisIsBalanced(ts: Transformations, coordinates: seq<Id>, basis: seq<Vec>, free: seq<nat>)
    requires IsBasis(ts, coordinates, basis, free)
    ensures forall k :: 0 <= k < |basis| ==> |basis[k]| == |ts| && Balanced(ts, coordinates, basis[k])
  {
    forall k | 0 <= k < |basis| ensures Balanced(ts, coordinates, basis[k]) {
      BalancedIsSolution(ts, coordinates, basis[k]);
    }
  }

  lemma FixedRatioGivesProportional(ts: Transformations, coordinates: seq<Id>, basis: seq<Vec>, p: nat, q: nat,
                                    ratio: real)
    requires forall k :: 0 <= k < |basis| ==> |basis[k]| == |ts| && Balanced(ts, coordinates, basis[k])
    requires p < |ts| && q < |ts| && ratio != 0.0 && FixedRatio(ts, coordinates, p, q, ratio)
    ensures Proportional(Signature(basis, p), Signature(basis, q), ratio)
  {
  }

  /** Proportional signatures fix the ratio in every combination of the basis. */
  lemma ProportionalInSpan(basis: seq<Vec>, cs: Vec, n: nat, p: nat, q: nat, ratio: real, x: Vec)
    requires p < n && q < n && |cs| == |basis| && forall i :: 0 <= i < |basis| ==> |basis[i]| == n
    requires Proportional(Signature(basis, p), Signature(basis, q), ratio)
    requires x == Combination(cs, basis, n, |basis|)
    ensures x[q] == ratio * x[p]
  {
    forall i | 0 <= i < |basis| ensures basis[i][q] == ratio * basis[i][p] {
      assert Signature(basis, q)[i] == ratio * Signature(basis, p)[i];
    }
    CombinationRatio(cs, basis, n, |basis|, p, q, ratio);
  }

  ghost predicate InSpan(basis: seq<Vec>, n: nat, x: Vec)
    requires forall i :: 0 <= i < |basis| ==> |basis[i]| == n
  {
    exists cs: Vec :: |cs| == |basis| && x == Combination(cs, basis, n, |basis|)
  }

  lemma BalancedIsInSpan(ts: Transformations, coordinates: seq<Id>, basis: seq<Vec>, free: seq<nat>, x: Vec)
    requires IsBasis(ts, coordinates, basis, free) && Balanced(ts, coordinates, x)
    ensures InSpan(basis, |ts|, x)
  {
    BalancedIsSolution(ts, coordinates, x);
    assert |Nullspace.At(x, free)| == |basis|;
  }

  lemma SpanKeepsRatio(basis: seq<Vec>, n: nat, p: nat, q: nat, ratio: real, x: Vec)
    requires p < n && q < n && forall i :: 0 <= i < |basis| ==> |basis[i]| == n
    requires Proportional(Signature(basis, p), Signature(basis, q), ratio)
    requires InSpan(basis, n, x)
    ensures |x| == n && x[q] == ratio * x[p]
  {
    var cs: Vec :| |cs| == |basis| && x == Combination(cs, basis, n, |basis|);
    ProportionalInSpan(basis, cs, n, p, q, ratio, x);
  }

  ghost predicate Spans(ts: Transformations, coordinates: seq<Id>, basis: seq<Vec>)
  {
    && (forall k :: 0 <= k < |basis| ==> |basis[k]| == |ts| && Balanced(ts, coordinates, basis[k]))
    && (forall x: Vec :: Balanced(ts, coordinates, x) ==> InSpan(basis, |ts|, x))
  }

  lemma BasisSpans(ts: Transformations, coordinates: seq<Id>, basis: seq<Vec>, free: seq<nat>)
    requires IsBasis(ts, coordinates, basis, free)
    ensures Spans(ts, coordinates, basis)
  {
    BasisIsBalanced(ts, coordinates, basis, free);
    forall x: Vec | Balanced(ts, coordinates, x) ensures InSpan(basis, |ts|, x) {
      BalancedIsInSpan(ts, coordinates, basis, free, x);
    }
  }

  lemma ProportionalGivesFixedRatio(ts: Transformations, coordinates: seq<Id>, basis: seq<Vec>, p: nat, q: nat,
                                    ratio: real)
    requires Spans(ts, coordinates, basis) && p < |ts| && q < |ts|
    requires Proportional(Signature(basis, p), Signature(basis, q), ratio)
    ensures FixedRatio(ts, coordinates, p, q, ratio)
  {
    forall x: Vec | Balanced(ts, coordinates, x) ensures x[q] == ratio * x[p] {
      SpanKeepsRatio(basis, |ts|, p, q, ratio, x);
    }
  }

  lemma CoupledIffProportional(ts: Transformations, coordinates: seq<Id>, basis: seq<Vec>, a: Id, b: Id, ratio: real)
    requires Spans(ts, coordinates, basis) && a in ts && b in ts
    ensures CoupledBy(ts, coordinates, a, b, ratio) <==>
            Proportional(Signature(basis, Column(ts, a)), Signature(basis, Column(ts, b)), ratio)
  {
    if CoupledBy(ts, coordinates, a, b, ratio) {
      FixedRatioGivesProportional(ts, coordinates, basis, Column(ts, a), Column(ts, b), ratio);
    }
    if Proportional(Signature(basis, Column(ts, a)), Signature(basis, Column(ts, b)), ratio) {
      ProportionalGivesFixedRatio(ts, coordinates, basis, Column(ts, a), Column(ts, b), ratio);
    }
  }

  // ----- the greedy anchor loop

  function Key(anchor: Id, candidate: Id): string
  {
    anchor + "|" + candidate
  }

  /** The proportionality test of one candidate signature against the anchor signature. */
  method CommonRatio(anchor: Vec, candidate: Vec) returns (r: Ratio)
    requires |anchor| == |candidate|
    ensures r.Ratio? ==> Proportional(anchor, candidate, r.value)
    ensures r.NoRatio? ==> (IsZero(anchor) && IsZero(candidate)) || !SameDirection(anchor, candidate)
  {
    r := NoRatio;
    for k := 0 to |anchor|
      invariant r.NoRatio? ==> forall j :: 0 <= j < k ==> anchor[j] == candidate[j] == 0.0
      invariant r.Ratio? ==> r.value != 0.0 && forall j :: 0 <= j < k ==> candidate[j] == r.value * anchor[j]
      invariant r.Ratio? ==> exists j :: 0 <= j < k && anchor[j] != 0.0
    {
      var left, right := anchor[k], candidate[k];
      if left == 0.0 && right == 0.0 {
        continue;
      }
      if left == 0.0 || right == 0.0 {
        OneSidedZero(anchor, candidate, k);
        return NoRatio;
      }
      var current := right / left;
      QuotientIsRatio(left, right);
      if r.NoRatio? {
        r := Ratio(current);
      }
      if current != r.value {
        var j :| 0 <= j < k && anchor[j] != 0.0;
        TwoRatios(anchor, candidate, j, k, r.value);
        return NoRatio;
      }
    }
  }

  lemma QuotientIsRatio(left: real, right: real)
    requires left != 0.0 && right != 0.0
    ensures right / left != 0.0 && right == (right / left) * left
  {
  }

  lemma OneSidedZero(a: Vec, b: Vec, k: nat)
    requires |a| == |b| && k < |a| && (a[k] == 0.0) != (b[k] == 0.0)
    ensures !SameDirection(a, b)
  {
    forall ratio ensures !Proportional(a, b, ratio) {
      if ratio != 0.0 {
        assert b[k] != ratio * a[k];
      }
    }
  }

  lemma TwoRatios(a: Vec, b: Vec, j: nat, k: nat, ratio: real)
    requires |a| == |b| && j < |a| && k < |a| && a[j] != 0.0 && a[k] != 0.0
    requires b[j] == ratio * a[j] && b[k] / a[k] != ratio
    ensures !SameDirection(a, b)
  {
    forall other ensures !Proportional(a, b, other) {
      if other == ratio {
        QuotientOfProduct(ratio, a[k]);
        assert b[k] != other * a[k];
      } else {
        assert (other - ratio) * a[j] != 0.0;
        assert b[j] != other * a[j];
      }
    }
  }

  lemma QuotientOfProduct(ratio: real, x: real)
    requires x != 0.0
    ensures (ratio * x) / x == ratio
  {
  }

  ghost predicate Signed(ids: seq<Id>, signatures: map<Id, Vec>, n: nat)
  {
    && StrictlySorted(ids)
    && forall id :: id in ids ==> id in signatures && |signatures[id]| == n && !IsZero(signatures[id])
  }

  ghost predicate SameClass(signatures: map<Id, Vec>, a: Id, b: Id)
  {
    a in signatures && b in signatures && SameDirection(signatures[a], signatures[b])
  }

  /** The value stored under key belongs to some member of the group anchored at its first element. */
  ghost predicate Justified(group: seq<Id>, signatures: map<Id, Vec>, key: string, value: real)
  {
    exists i :: 0 < i < |group| && group[0] in signatures && group[i] in signatures
                && key == Key(group[0], group[i]) && Proportional(signatures[group[0]], signatures[group[i]], value)
  }

  /** What one anchor round has decided about the candidates seen so far. */
  ghost predicate Split(anchor: Id, seen: seq<Id>, signatures: map<Id, Vec>, group: seq<Id>, kept: seq<Id>)
  {
    && |group| > 0 && group[0] == anchor
    && (forall id :: id in group <==> id == anchor || (id in seen && SameClass(signatures, anchor, id)))
    && (forall id :: id in kept <==> id in seen && !SameClass(signatures, anchor, id))
    && |kept| <= |seen|
  }

  ghost predicate Recorded(group: seq<Id>, signatures: map<Id, Vec>, before: map<string, real>, ratios: map<string, real>)
  {
    && before.Keys <= ratios.Keys
    && (forall i :: 0 < i < |group| ==> Key(group[0], group[i]) in ratios)
    && (forall key :: key in ratios ==> (key in before && ratios[key] == before[key])
                                        || Justified(group, signatures, key, ratios[key]))
  }

  lemma RecordCandidate(group: seq<Id>, signatures: map<Id, Vec>, before: map<string, real>,
                        ratios: map<string, real>, candidate: Id, ratio: real)
    requires |group| > 0 && group[0] in signatures && candidate in signatures
    requires Recorded(group, signatures, before, ratios)
    requires Proportional(signatures[group[0]], signatures[candidate], ratio)
    ensures Recorded(group + [candidate], signatures, before, ratios[Key(group[0], candidate) := ratio])
  {
    var after, updated := group + [candidate], ratios[Key(group[0], candidate) := ratio];
    forall key | key in updated
      ensures (key in before && updated[key] == before[key]) || Justified(after, signatures, key, updated[key])
    {
      if key == Key(group[0], candidate) {
        assert after[|group|] == candidate;
      } else if Justified(group, signatures, key, ratios[key]) {
        var i :| 0 < i < |group| && group[0] in signatures && group[i] in signatures
                 && key == Key(group[0], group[i]) && Proportional(signatures[group[0]], signatures[group[i]], ratios[key]);
        assert after[0] == group[0] && after[i] == group[i];
      }
    }
  }

  lemma SortedPairs(ids: seq<Id>)
    requires StrictlySorted(ids) && ids != []
    ensures StrictlySorted(ids[1..])
    ensures forall j :: 1 <= j < |ids| ==> Below(ids[0], ids[j])
  {
  }

  /** Every element of left stands before every element of right. */
  ghost predicate Ahead(left: seq<Id>, right: seq<Id>)
  {
    forall i, j :: 0 <= i < |left| && 0 <= j < |right| ==> Below(left[i], right[j])
  }

  lemma AppendSorted(left: seq<Id>, right: seq<Id>)
    requires StrictlySorted(left) && right != [] && Ahead(left, right) && StrictlySorted(right)
    ensures StrictlySorted(left + [right[0]]) && Ahead(left + [right[0]], right[1..])
  {
  }

  /** One anchor round: the group takes exactly the candidates proportional to the anchor. */
  method TakeGroup(anchor: Id, rest: seq<Id>, signatures: map<Id, Vec>, ghost n: nat, before: map<string, real>)
    returns (group: seq<Id>, kept: seq<Id>, ratios: map<string, real>)
    requires StrictlySorted(rest) && Ahead([anchor], rest)
    requires anchor in signatures && |signatures[anchor]| == n && !IsZero(signatures[anchor])
    requires forall id :: id in rest ==> id in signatures && |signatures[id]| == n
    ensures Split(anchor, rest, signatures, group, kept)
    ensures StrictlySorted(group) && StrictlySorted(kept)
    ensures Recorded(group, signatures, before, ratios)
  {
    group, kept, ratios := [anchor], [], before;
    for k := 0 to |rest|
      invariant Split(anchor, rest[..k], signatures, group, kept)
      invariant StrictlySorted(group) && StrictlySorted(kept)
      invariant Ahead(group, rest[k..]) && Ahead(kept, rest[k..])
      invariant Recorded(group, signatures, before, ratios)
    {
      var candidate := rest[k];
      assert candidate in rest;
      var ratio := CommonRatio(signatures[anchor], signatures[candidate]);
      assert rest[..k + 1] == rest[..k] + [candidate];
      assert rest[k..][0] == candidate && rest[k..][1..] == rest[k + 1..];
      if ratio.Ratio? {
        assert SameClass(signatures, anchor, candidate);
        RecordCandidate(group, signatures, before, ratios, candidate, ratio.value);
        AppendSorted(group, rest[k..]);
        group := group + [candidate];
        ratios := ratios[Key(anchor, candidate) := ratio.value];
      } else {
        AppendSorted(kept, rest[k..]);
        kept := kept + [candidate];
      }
    }
    assert rest[..|rest|] == rest;
  }

  /** The groups partition the identifiers into proportionality classes and carry their ratios. */
  ghost predicate IsGrouping(ids: seq<Id>, signatures: map<Id, Vec>, groups: seq<seq<Id>>, ratios: map<string, real>)
  {
    && (forall p :: 0 <= p < |groups| ==> groups[p] != [] && StrictlySorted(groups[p]))
    && (forall p, id :: 0 <= p < |groups| && id in groups[p] ==> id in ids)
    && (forall p, q, id :: 0 <= p < q < |groups| && id in groups[p] ==> id !in groups[q])
    && (forall id :: id in ids ==> exists p :: 0 <= p < |groups| && id in groups[p])
    && (forall p, a, b :: 0 <= p < |groups| && a in groups[p] && b in ids ==>
                            (SameClass(signatures, a, b) <==> b in groups[p]))
    && (forall p, i :: 0 <= p < |groups| && 0 < i < |groups[p]| ==> Key(groups[p][0], groups[p][i]) in ratios)
    && (forall key :: key in ratios ==>
                        exists p :: 0 <= p < |groups| && Justified(groups[p], signatures, key, ratios[key]))
  }

  /** Anchors taken so far, with the identifiers still waiting. */
  ghost predicate Grouped(ids: seq<Id>, signatures: map<Id, Vec>, groups: seq<seq<Id>>, remaining: seq<Id>,
                          ratios: map<string, real>)
  {
    && (forall p :: 0 <= p < |groups| ==> groups[p] != [] && StrictlySorted(groups[p]))
    && (forall p, id :: 0 <= p < |groups| && id in groups[p] ==> id in ids && id !in remaining)
    && (forall id :: id in remaining ==> id in ids)
    && (forall p, q, id :: 0 <= p < q < |groups| && id in groups[p] ==> id !in groups[q])
    && (forall id :: id in ids && id !in remaining ==> exists p :: 0 <= p < |groups| && id in groups[p])
    && (forall p, a, b :: 0 <= p < |groups| && a in groups[p] && b in ids ==>
                            (SameClass(signatures, a, b) <==> b in groups[p]))
    && (forall p, i :: 0 <= p < |groups| && 0 < i < |groups[p]| ==> Key(groups[p][0], groups[p][i]) in ratios)
    && (forall key :: key in ratios ==>
                        exists p :: 0 <= p < |groups| && Justified(groups[p], signatures, key, ratios[key]))
  }

  lemma GroupIsClass(ids: seq<Id>, signatures: map<Id, Vec>, groups: seq<seq<Id>>, remaining: seq<Id>,
                     ratios: map<string, real>, group: seq<Id>, a: Id, b: Id)
    requires Grouped(ids, signatures, groups, remaining, ratios) && remaining != []
    requires forall id :: id in ids ==> id in signatures
    requires forall id :: id in group <==>
                            id == remaining[0] || (id in remaining[1..] && SameClass(signatures, remaining[0], id))
    requires a in group && b in ids
    ensures SameClass(signatures, a, b) <==> b in group
  {
    var anchor := remaining[0];
    assert anchor in remaining;
    assert Proportional(signatures[anchor], signatures[anchor], 1.0);
    assert SameClass(signatures, anchor, anchor);
    assert SameClass(signatures, anchor, a);
    if SameClass(signatures, a, b) {
      SameDirectionTransitive(signatures[anchor], signatures[a], signatures[b]);
      SameDirectionSymmetric(signatures[anchor], signatures[b]);
      forall p | 0 <= p < |groups| ensures b !in groups[p] {
        assert anchor !in groups[p] && SameClass(signatures, b, anchor);
      }
    }
    if b in group {
      SameDirectionSymmetric(signatures[anchor], signatures[a]);
      SameDirectionTransitive(signatures[a], signatures[anchor], signatures[b]);
    }
  }

  method GroupProportional(ids: seq<Id>, signatures: map<Id, Vec>, ghost n: nat)
    returns (groups: seq<seq<Id>>, ratios: map<string, real>)
    requires Signed(ids, signatures, n)
    ensures IsGrouping(ids, signatures, groups, ratios)
  {
    var remaining := ids;
    groups, ratios := [], map[];
    while remaining != []
      invariant Signed(remaining, signatures, n)
      invariant Grouped(ids, signatures, groups, remaining, ratios)
      decreases |remaining|
    {
      var anchor, rest := remaining[0], remaining[1..];
      SortedPairs(remaining);
      assert forall id :: id in rest ==> id in remaining;
      var group, kept, updated := TakeGroup(anchor, rest, signatures, n, ratios);
      forall a, b | a in group && b in ids ensures SameClass(signatures, a, b) <==> b in group {
        GroupIsClass(ids, signatures, groups, remaining, ratios, group, a, b);
      }
      SortedHasNoDuplicates(remaining);
      ExtendGrouping(ids, signatures, groups, remaining, ratios, group, kept, updated);
      groups, remaining, ratios := groups + [group], kept, updated;
    }
  }

  lemma ExtendGrouping(ids: seq<Id>, signatures: map<Id, Vec>, groups: seq<seq<Id>>, remaining: seq<Id>,
                       ratios: map<string, real>, group: seq<Id>, kept: seq<Id>, updated: map<string, real>)
    requires Grouped(ids, signatures, groups, remaining, ratios) && remaining != [] && NoDuplicates(remaining)
    requires group != [] && group[0] == remaining[0] && StrictlySorted(group)
    requires forall id :: id in group <==>
                            id == remaining[0] || (id in remaining[1..] && SameClass(signatures, remaining[0], id))
    requires forall id :: id in kept <==> id in remaining[1..] && !SameClass(signatures, remaining[0], id)
    requires forall a, b :: a in group && b in ids ==> (SameClass(signatures, a, b) <==> b in group)
    requires forall i :: 0 < i < |group| ==> Key(group[0], group[i]) in updated
    requires ratios.Keys <= updated.Keys
    requires forall key :: key in updated ==> (key in ratios && updated[key] == ratios[key])
                                              || Justified(group, signatures, key, updated[key])
    ensures Grouped(ids, signatures, groups + [group], kept, updated)
  {
    var after := groups + [group];
    assert forall id :: id in remaining <==> id == remaining[0] || id in remaining[1..];
    assert remaining[0] !in remaining[1..];
    forall id | id in ids && id !in kept ensures exists p :: 0 <= p < |after| && id in after[p] {
      if id in remaining {
        assert id in after[|groups|];
      } else {
        var p :| 0 <= p < |groups| && id in groups[p];
        assert id in after[p];
      }
    }
    forall key | key in updated
      ensures exists p :: 0 <= p < |after| && Justified(after[p], signatures, key, updated[key])
    {
      if Justified(group, signatures, key, updated[key]) {
        assert after[|groups|] == group;
      } else {
        var p :| 0 <= p < |groups| && Justified(groups[p], signatures, key, ratios[key]);
        assert after[p] == groups[p];
      }
    }
  }

  // ----- the report

  /** The exact promise about a report computed with at least one coordinate. */
  ghost predicate IsCouplingReport(ts: Transformations, coordinates: seq<Id>, report: Report)
  {
    && StrictlySorted(report.blocked)
    && (forall id :: id in report.blocked <==> id in ts && Blocked(ts, coordinates, id))
    && AreCoupledClasses(ts, coordinates, report.classes)
    && AreRatios(ts, coordinates, report.classes, report.ratios)
    && (exists basis, free :: IsBasis(ts, coordinates, basis, free) && |basis| == report.dimension)
  }

  /** The classes of at least two members are exactly the coupling classes of the unblocked. */
  ghost predicate AreCoupledClasses(ts: Transformations, coordinates: seq<Id>, classes: seq<seq<Id>>)
  {
    && (forall p :: 0 <= p < |classes| ==> |classes[p]| >= 2 && StrictlySorted(classes[p]))
    && (forall p, id :: 0 <= p < |classes| && id in classes[p] ==> id in ts && !Blocked(ts, coordinates, id))
    && (forall p, q, id :: 0 <= p < q < |classes| && id in classes[p] ==> id !in classes[q])
    && (forall a, b :: a in ts && b in ts && a != b && !Blocked(ts, coordinates, a) && !Blocked(ts, coordinates, b) ==>
                         (Coupled(ts, coordinates, a, b) <==> Together(classes, a, b)))
  }

  ghost predicate Together(classes: seq<seq<Id>>, a: Id, b: Id)
  {
    exists p :: 0 <= p < |classes| && a in classes[p] && b in classes[p]
  }

  /** Every pair of an anchor and another member has an entry, and every entry is the ratio of such a pair. */
  ghost predicate AreRatios(ts: Transformations, coordinates: seq<Id>, classes: seq<seq<Id>>, ratios: map<string, real>)
  {
    && (forall p, i :: 0 <= p < |classes| && 0 < i < |classes[p]| ==> Key(classes[p][0], classes[p][i]) in ratios)
    && (forall key :: key in ratios ==> RatioOf(ts, coordinates, classes, key, ratios[key]))
  }

  /** Some listed pair has this key and this ratio. */
  ghost predicate RatioOf(ts: Transformations, coordinates: seq<Id>, classes: seq<seq<Id>>, key: string, value: real)
  {
    exists p, i :: 0 <= p < |classes| && 0 < i < |classes[p]|
                   && PairRatio(ts, coordinates, classes[p], i, key, value)
  }

  ghost predicate PairRatio(ts: Transformations, coordinates: seq<Id>, group: seq<Id>, i: nat, key: string, value: real)
    requires 0 < i < |group|
  {
    && group[0] in ts && group[i] in ts
    && key == Key(group[0], group[i]) && CoupledBy(ts, coordinates, group[0], group[i], value)
  }

  /** item for item in groups if len(item) > 1 */
  function Larger(groups: seq<seq<Id>>): (r: seq<seq<Id>>)
  {
    if groups == [] then []
    else
      var init := Larger(groups[..|groups| - 1]);
      if |groups[|groups| - 1]| > 1 then init + [groups[|groups| - 1]] else init
  }

  lemma {:induction false} LargerContains(groups: seq<seq<Id>>)
    ensures forall g :: g in Larger(groups) <==> g in groups && |g| > 1
  {
    if groups != [] {
      LargerContains(groups[..|groups| - 1]);
      assert groups == groups[..|groups| - 1] + [groups[|groups| - 1]];
    }
  }

  ghost predicate Disjoint(groups: seq<seq<Id>>)
  {
    forall p, q, id :: 0 <= p < q < |groups| && id in groups[p] ==> id !in groups[q]
  }

  lemma {:induction false} LargerDisjoint(groups: seq<seq<Id>>)
    requires Disjoint(groups)
    ensures Disjoint(Larger(groups))
  {
    if groups != [] {
      var init, last := groups[..|groups| - 1], groups[|groups| - 1];
      LargerDisjoint(init);
      LargerContains(init);
      forall p, id | 0 <= p < |Larger(init)| && id in Larger(init)[p] ensures id !in last {
        assert Larger(init)[p] in init;
      }
    }
  }

  /** Proportional signatures mean a fixed flux ratio, and conversely. */
  ghost predicate Translates(ts: Transformations, coordinates: seq<Id>, signatures: map<Id, Vec>)
  {
    && signatures.Keys == ts.Keys
    && forall a, b, ratio :: a in ts && b in ts ==>
         (CoupledBy(ts, coordinates, a, b, ratio) <==> Proportional(signatures[a], signatures[b], ratio))
  }

  lemma SignaturesTranslate(ts: Transformations, coordinates: seq<Id>, basis: seq<Vec>, signatures: map<Id, Vec>)
    requires Spans(ts, coordinates, basis) && signatures.Keys == ts.Keys
    requires forall id :: id in ts ==> signatures[id] == Signature(basis, Column(ts, id))
    ensures Translates(ts, coordinates, signatures)
  {
    forall a, b, ratio | a in ts && b in ts
      ensures CoupledBy(ts, coordinates, a, b, ratio) <==> Proportional(signatures[a], signatures[b], ratio)
    {
      CoupledIffProportional(ts, coordinates, basis, a, b, ratio);
    }
  }

  lemma CoupledIffSameClass(ts: Transformations, coordinates: seq<Id>, signatures: map<Id, Vec>, a: Id, b: Id)
    requires Translates(ts, coordinates, signatures) && a in ts && b in ts
    ensures Coupled(ts, coordinates, a, b) <==> SameClass(signatures, a, b)
  {
    if ratio :| CoupledBy(ts, coordinates, a, b, ratio) {
      assert Proportional(signatures[a], signatures[b], ratio);
    }
    if ratio :| Proportional(signatures[a], signatures[b], ratio) {
      assert CoupledBy(ts, coordinates, a, b, ratio);
    }
  }

  lemma TwoMembers(group: seq<Id>, a: Id, b: Id)
    requires a in group && b in group && a != b
    ensures |group| > 1
  {
  }

  lemma SameClassIffTogether(ids: seq<Id>, signatures: map<Id, Vec>, groups: seq<seq<Id>>, ratios: map<string, real>,
                             a: Id, b: Id)
    requires IsGrouping(ids, signatures, groups, ratios) && a in ids && b in ids && a != b
    ensures SameClass(signatures, a, b) <==> Together(Larger(groups), a, b)
  {
    var classes := Larger(groups);
    LargerContains(groups);
    var p :| 0 <= p < |groups| && a in groups[p];
    if b in groups[p] {
      TwoMembers(groups[p], a, b);
      assert groups[p] in classes;
    } else {
      forall q | 0 <= q < |classes| && a in classes[q] ensures b !in classes[q] {
        assert classes[q] in groups;
        var r :| 0 <= r < |groups| && groups[r] == classes[q];
      }
    }
  }

  /** Signatures turn the grouping into coupling classes. */
  lemma GroupingGivesClasses(ts: Transformations, coordinates: seq<Id>, ids: seq<Id>,
                             signatures: map<Id, Vec>, groups: seq<seq<Id>>, ratios: map<string, real>)
    requires Translates(ts, coordinates, signatures)
    requires forall id :: id in ids <==> id in ts && !Blocked(ts, coordinates, id)
    requires IsGrouping(ids, signatures, groups, ratios)
    ensures AreCoupledClasses(ts, coordinates, Larger(groups))
  {
    var classes := Larger(groups);
    LargerContains(groups);
    LargerDisjoint(groups);
    forall a, b | a in ids && b in ids && a != b
      ensures Coupled(ts, coordinates, a, b) <==> Together(classes, a, b)
    {
      CoupledIffSameClass(ts, coordinates, signatures, a, b);
      SameClassIffTogether(ids, signatures, groups, ratios, a, b);
    }
    forall p | 0 <= p < |classes|
      ensures |classes[p]| >= 2 && StrictlySorted(classes[p]) && forall id :: id in classes[p] ==> id in ids
    {
      assert classes[p] in groups;
    }
  }

  lemma JustifiedIsPairRatio(ts: Transformations, coordinates: seq<Id>, signatures: map<Id, Vec>, g: seq<Id>,
                             key: string, value: real) returns (i: nat)
    requires Translates(ts, coordinates, signatures) && Justified(g, signatures, key, value)
    ensures 0 < i < |g| && PairRatio(ts, coordinates, g, i, key, value)
  {
    i :| 0 < i < |g| && g[0] in signatures && g[i] in signatures
         && key == Key(g[0], g[i]) && Proportional(signatures[g[0]], signatures[g[i]], value);
    assert CoupledBy(ts, coordinates, g[0], g[i], value);
  }

  lemma KeyHasRatio(ts: Transformations, coordinates: seq<Id>, signatures: map<Id, Vec>, groups: seq<seq<Id>>,
                    classes: seq<seq<Id>>, key: string, value: real)
    requires Translates(ts, coordinates, signatures)
    requires forall g :: g in classes <==> g in groups && |g| > 1
    requires exists p :: 0 <= p < |groups| && Justified(groups[p], signatures, key, value)
    ensures RatioOf(ts, coordinates, classes, key, value)
  {
    var p :| 0 <= p < |groups| && Justified(groups[p], signatures, key, value);
    var i := JustifiedIsPairRatio(ts, coordinates, signatures, groups[p], key, value);
    assert groups[p] in classes;
    var q :| 0 <= q < |classes| && classes[q] == groups[p];
    assert PairRatio(ts, coordinates, classes[q], i, key, value);
  }

  lemma GroupingGivesRatios(ts: Transformations, coordinates: seq<Id>, ids: seq<Id>,
                            signatures: map<Id, Vec>, groups: seq<seq<Id>>, ratios: map<string, real>)
    requires Translates(ts, coordinates, signatures)
    requires IsGrouping(ids, signatures, groups, ratios)
    ensures AreRatios(ts, coordinates, Larger(groups), ratios)
  {
    LargerContains(groups);
    var classes := Larger(groups);
    forall p, i | 0 <= p < |classes| && 0 < i < |classes[p]| ensures Key(classes[p][0], classes[p][i]) in ratios {
      assert classes[p] in groups;
    }
    forall key | key in ratios ensures RatioOf(ts, coordinates, classes, key, ratios[key]) {
      KeyHasRatio(ts, coordinates, signatures, groups, classes, key, ratios[key]);
    }
  }

  /** The identifiers whose signature is zero (or is not), in the given order. */
  function Select(ids: seq<Id>, signatures: map<Id, Vec>, zero: bool): (r: seq<Id>)
    requires forall id :: id in ids ==> id in signatures
    requires StrictlySorted(ids)
    ensures forall id :: id in r <==> id in ids && IsZero(signatures[id]) == zero
    ensures StrictlySorted(r)
  {
    if ids == [] then []
    else
      var last := ids[|ids| - 1];
      var init := Select(ids[..|ids| - 1], signatures, zero);
      assert ids == ids[..|ids| - 1] + [last];
      assert forall j :: 0 <= j < |init| ==> Below(init[j], last) by {
        forall j | 0 <= j < |init| ensures Below(init[j], last) {
          assert init[j] in ids[..|ids| - 1];
        }
      }
      if IsZero(signatures[last]) == zero then init + [last] else init
  }

  function Signatures(ts: Transformations, basis: seq<Vec>): (m: map<Id, Vec>)
    requires forall i :: 0 <= i < |basis| ==> |basis[i]| == |ts|
    ensures m.Keys == ts.Keys
    ensures forall id :: id in ts ==> m[id] == Signature(basis, Column(ts, id))
  {
    map id | id in ts.Keys :: Signature(basis, Column(ts, id))
  }

  /** exact_flux_coupling */
  method ExactFluxCoupling(ts: Transformations, coordinates: seq<Id>) returns (report: Report)
    ensures coordinates != [] ==> IsCouplingReport(ts, coordinates, report)
    ensures coordinates == [] ==> report == Report(Sorted(ts.Keys), [], map[], 0)
  {
    var ids := Sorted(ts.Keys);
    var outcome, free := Nullspace.ExactNullspace(FlowMatrix(ts, coordinates));
    assert coordinates != [] ==> |FlowMatrix(ts, coordinates)[0]| == |ts|;
    var basis := outcome.value;
    var signatures := Signatures(ts, basis);
    var blocked := Select(ids, signatures, true);
    var remaining := Select(ids, signatures, false);
    var groups, ratios := GroupProportional(remaining, signatures, |basis|);
    report := Report(blocked, Larger(groups), ratios, |basis|);
    if coordinates == [] {
      NothingSurvives(ids, signatures, blocked, remaining, groups, ratios);
    } else {
      GroupingGivesReport(ts, coordinates, basis, free, signatures, blocked, remaining, groups, ratios);
    }
  }

  lemma GroupingGivesReport(ts: Transformations, coordinates: seq<Id>, basis: seq<Vec>, free: seq<nat>,
                            signatures: map<Id, Vec>, blocked: seq<Id>, remaining: seq<Id>,
                            groups: seq<seq<Id>>, ratios: map<string, real>)
    requires IsBasis(ts, coordinates, basis, free)
    requires |basis| == |free| && (forall i :: 0 <= i < |basis| ==> |basis[i]| == |ts|)
    requires signatures == Signatures(ts, basis)
    requires StrictlySorted(blocked)
    requires forall id :: id in blocked <==> id in ts && IsZero(signatures[id])
    requires forall id :: id in remaining <==> id in ts && !IsZero(signatures[id])
    requires IsGrouping(remaining, signatures, groups, ratios)
    ensures IsCouplingReport(ts, coordinates, Report(blocked, Larger(groups), ratios, |basis|))
  {
    forall id | id in ts ensures Blocked(ts, coordinates, id) <==> IsZero(signatures[id]) {
      BlockedIffZeroSignature(ts, coordinates, basis, free, id);
    }
    BasisSpans(ts, coordinates, basis, free);
    SignaturesTranslate(ts, coordinates, basis, signatures);
    GroupingGivesClasses(ts, coordinates, remaining, signatures, groups, ratios);
    GroupingGivesRatios(ts, coordinates, remaining, signatures, groups, ratios);
  }

  lemma SortedUnique(a: seq<Id>, b: seq<Id>)
    requires StrictlySorted(a) && StrictlySorted(b) && forall id :: id in a <==> id in b
    ensures a == b
  {
    assert (a == [] || a[0] in b) && (b == [] || b[0] in a);
    if a != [] && b != [] {
      var i :| 0 <= i < |b| && b[i] == a[0];
      var j :| 0 <= j < |a| && a[j] == b[0];
      if i != 0 && j != 0 {
        BelowIsTransitive(a[0], b[0], a[0]);
      }
      BelowIsIrreflexive(a[0]);
      assert a[0] == b[0];
      SortedHasNoDuplicates(a);
      SortedHasNoDuplicates(b);
      assert a == [a[0]] + a[1..] && b == [b[0]] + b[1..];
      assert a[0] !in a[1..] && b[0] !in b[1..];
      assert forall id :: id in a <==> id == a[0] || id in a[1..];
      assert forall id :: id in b <==> id == b[0] || id in b[1..];
      SortedUnique(a[1..], b[1..]);
    }
  }

  ghost function Members(groups: seq<seq<Id>>): set<Id>
  {
    set p, id | 0 <= p < |groups| && id in groups[p] :: id
  }

  lemma GroupsHaveMembers(groups: seq<seq<Id>>)
    requires forall p :: 0 <= p < |groups| ==> groups[p] != []
    ensures groups == [] || Members(groups) != {}
  {
    if groups != [] {
      assert groups[0][0] in groups[0];
      assert groups[0][0] in Members(groups);
    }
  }

  lemma NoMembers(groups: seq<seq<Id>>, ids: seq<Id>)
    requires ids == [] && forall p, id :: 0 <= p < |groups| && id in groups[p] ==> id in ids
    ensures Members(groups) == {}
  {
    assert Members(groups) <= set x | x in ids;
  }

  lemma NoIdsNoGroups(signatures: map<Id, Vec>, groups: seq<seq<Id>>, ratios: map<string, real>)
    requires IsGrouping([], signatures, groups, ratios)
    ensures groups == [] && ratios == map[]
  {
    NoMembers(groups, []);
    GroupsHaveMembers(groups);
  }

  /** With an empty basis every signature is empty, so nothing is left to group. */
  lemma NothingSurvives(ids: seq<Id>, signatures: map<Id, Vec>, blocked: seq<Id>, remaining: seq<Id>,
                        groups: seq<seq<Id>>, ratios: map<string, real>)
    requires StrictlySorted(ids) && StrictlySorted(blocked) && StrictlySorted(remaining)
    requires forall id :: id in ids ==> id in signatures && signatures[id] == []
    requires forall id :: id in blocked <==> id in ids && IsZero(signatures[id])
    requires forall id :: id in remaining <==> id in ids && !IsZero(signatures[id])
    requires IsGrouping(remaining, signatures, groups, ratios)
    ensures blocked == ids && groups == [] && ratios == map[]
  {
    SortedUnique(blocked, ids);
    SortedUnique(remaining, []);
    NoIdsNoGroups(signatures, groups, ratios);
  }

  /**
   * Without coordinates the balanced space is the whole space, yet every transformation is reported
   * blocked: the blocked list is exact if and only if there is a coordinate or nothing to report.
   */
  lemma BlockedReportExact(ts: Transformations, coordinates: seq<Id>, report: Report)
    requires coordinates != [] ==> IsCouplingReport(ts, coordinates, report)
    requires coordinates == [] ==> report == Report(Sorted(ts.Keys), [], map[], 0)
    ensures (forall id :: id in report.blocked <==> id in ts && Blocked(ts, coordinates, id))
            <==> coordinates != [] || ts == map[]
  {
    if coordinates == [] && ts != map[] {
      var id :| id in ts;
      var ones := seq(|ts|, _ => 1.0);
      assert Balanced(ts, coordinates, ones) && ones[Column(ts, id)] == 1.0;
      assert id in report.blocked && !Blocked(ts, coordinates, id);
    }
  }
}
