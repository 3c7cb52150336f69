/** Reducing candidate sets to the inclusion-minimal ones, listed by size and then by sorted members. */
module MinimalSets {
  import opened Ids

  // ----- an order on sets: by size, then by their sorted members

  predicate ListBelow(a: seq<Id>, b: seq<Id>)
  {
    && b != []
    && (a == [] || Below(a[0], b[0]) || (a[0] == b[0] && ListBelow(a[1..], b[1..])))
  }

  lemma {:induction false} ListBelowIsTotal(a: seq<Id>, b: seq<Id>)
    ensures a == b || ListBelow(a, b) || ListBelow(b, a)
  {
    if a != [] && b != [] {
      BelowIsTotal(a[0], b[0]);
      ListBelowIsTotal(a[1..], b[1..]);
      assert a == [a[0]] + a[1..] && b == [b[0]] + b[1..];
    }
  }

  lemma {:induction false} ListBelowIsTransitive(a: seq<Id>, b: seq<Id>, c: seq<Id>)
    requires ListBelow(a, b) && ListBelow(b, c)
    ensures ListBelow(a, c)
  {
    if a != [] {
      if a[0] == b[0] == c[0] {
        BelowIsIrreflexive(a[0]);
        ListBelowIsTransitive(a[1..], b[1..], c[1..]);
      } else if a[0] != b[0] && b[0] != c[0] {
        BelowIsTransitive(a[0], b[0], c[0]);
      }
    }
  }

  lemma {:induction false} ListBelowIsIrreflexive(a: seq<Id>)
    ensures !ListBelow(a, a)
  {
    if a != [] {
      BelowIsIrreflexive(a[0]);
      ListBelowIsIrreflexive(a[1..]);
    }
  }

  predicate Earlier(a: set<Id>, b: set<Id>)
  {
    |a| < |b| || (|a| == |b| && ListBelow(Sorted(a), Sorted(b)))
  }

  /** The first place where two lists differ decides, or that the first list ends there. */
  ghost predicate FirstDifference(a: seq<Id>, b: seq<Id>, k: nat)
  {
    k <= |a| && k < |b| && a[..k] == b[..k] && (k < |a| ==> Below(a[k], b[k]))
  }

  lemma {:induction false} ListByFirstDifference(a: seq<Id>, b: seq<Id>)
    ensures ListBelow(a, b) ==> exists k :: FirstDifference(a, b, k)
  {
    if ListBelow(a, b) {
      if a != [] && !Below(a[0], b[0]) {
        ListByFirstDifference(a[1..], b[1..]);
        var k: nat :| FirstDifference(a[1..], b[1..], k);
        assert a[..k + 1] == [a[0]] + a[1..][..k] && b[..k + 1] == [b[0]] + b[1..][..k];
        assert FirstDifference(a, b, k + 1);
      } else {
        assert FirstDifference(a, b, 0);
      }
    }
  }

  /** Smaller sets come first; of equally large ones the one with the lower member where their sorted members first differ. */
  lemma EarlierMeans(a: set<Id>, b: set<Id>)
    ensures Earlier(a, b) ==> |a| <= |b|
    ensures Earlier(a, b) && |a| == |b| ==> exists k :: FirstDifference(Sorted(a), Sorted(b), k)
    ensures a != b ==> Earlier(a, b) || Earlier(b, a)
  {
    ListByFirstDifference(Sorted(a), Sorted(b));
    EarlierIsTotal(a, b);
  }

  lemma EarlierIsTotal(a: set<Id>, b: set<Id>)
    ensures a == b || Earlier(a, b) || Earlier(b, a)
  {
    var r, s := Sorted(a), Sorted(b);
    ListBelowIsTotal(r, s);
    if r == s {
      forall x ensures x in a <==> x in b {
        assert x in a <==> x in r;
        assert x in b <==> x in s;
      }
    }
  }

  lemma EarlierIsTransitive(a: set<Id>, b: set<Id>, c: set<Id>)
    requires Earlier(a, b) && Earlier(b, c)
    ensures Earlier(a, c)
  {
    if |a| == |b| == |c| {
      ListBelowIsTransitive(Sorted(a), Sorted(b), Sorted(c));
    }
  }

  lemma EarlierIsIrreflexive(a: set<Id>)
    ensures !Earlier(a, a)
  {
    ListBelowIsIrreflexive(Sorted(a));
  }

  /** Every set strictly before the next ones. */
  ghost predicate Ordered(r: seq<set<Id>>)
  {
    forall i, j :: 0 <= i < j < |r| ==> Earlier(r[i], r[j])
  }

  lemma OrderedIsUnique(r: seq<set<Id>>, s: seq<set<Id>>)
    requires Ordered(r) && Ordered(s) && (forall x :: x in r <==> x in s)
    ensures r == s
    decreases |r|
  {
    assert (r != [] ==> r[0] in r) && (s != [] ==> s[0] in s);
    if r != [] {
      var i :| 0 <= i < |s| && s[i] == r[0];
      var j :| 0 <= j < |r| && r[j] == s[0];
      if i > 0 && j > 0 {
        EarlierIsTransitive(r[0], r[j], r[0]);
      }
      EarlierIsIrreflexive(r[0]);
      assert r[0] == s[0];
      forall x ensures x in r[1..] <==> x in s[1..] {
        TailMembers(r, x);
        TailMembers(s, x);
      }
      OrderedIsUnique(r[1..], s[1..]);
      assert r == [r[0]] + r[1..] && s == [s[0]] + s[1..];
    }
  }

  lemma TailMembers(r: seq<set<Id>>, x: set<Id>)
    requires Ordered(r) && r != []
    ensures x in r[1..] <==> x in r && x != r[0]
  {
    EarlierIsIrreflexive(r[0]);
    assert r == [r[0]] + r[1..];
  }

  // ----- sorted(set(sets), key = size, sorted members)

  ghost predicate IsEarliest(x: set<Id>, s: set<set<Id>>)
  {
    x in s && forall y :: y in s && y != x ==> Earlier(x, y)
  }

  lemma {:induction false} EarliestExists(s: set<set<Id>>)
    requires s != {}
    ensures exists x :: IsEarliest(x, s)
    decreases |s|
  {
    var x :| x in s;
    var rest := s - {x};
    if rest == {} {
      assert s == {x};
      assert IsEarliest(x, s);
    } else {
      EarliestExists(rest);
      var y :| IsEarliest(y, rest);
      EarlierIsTotal(x, y);
      if Earlier(x, y) {
        forall z | z in s && z != x ensures Earlier(x, z) {
          if z != y { EarlierIsTransitive(x, y, z); }
        }
        assert IsEarliest(x, s);
      } else {
        assert IsEarliest(y, s);
      }
    }
  }

  lemma OrderedAppend(r: seq<set<Id>>, x: set<Id>)
    requires Ordered(r) && forall y :: y in r ==> Earlier(y, x)
    ensures Ordered(r + [x])
  {
    assert forall i :: 0 <= i < |r| ==> r[i] in r;
  }

  method SortUnique(sets: seq<set<Id>>) returns (r: seq<set<Id>>)
    ensures Ordered(r) && forall x :: x in r <==> x in sets
  {
    r := [];
    var todo := set x | x in sets;
    while todo != {}
      invariant forall x :: x in sets <==> x in todo || x in r
      invariant Ordered(r) && forall x, y :: x in r && y in todo ==> Earlier(x, y)
      decreases |todo|
    {
      EarliestExists(todo);
      ghost var least :| IsEarliest(least, todo);
      var x :| x in todo && forall y :: y in todo && y != x ==> Earlier(x, y);
      OrderedAppend(r, x);
      r := r + [x];
      todo := todo - {x};
    }
  }

  // ----- _minimal

  ghost predicate MinimalIn(x: set<Id>, sets: seq<set<Id>>)
  {
    x in sets && forall y :: y in sets ==> !(y < x)
  }

  ghost predicate AreMinimal(r: seq<set<Id>>, sets: seq<set<Id>>)
  {
    Ordered(r) && forall x :: x in r <==> MinimalIn(x, sets)
  }

  /** One of the sets is contained in the given one. */
  predicate Covered(sets: seq<set<Id>>, s: set<Id>)
  {
    exists i :: 0 <= i < |sets| && sets[i] <= s
  }

  lemma ProperSubsetIsEarlier(a: set<Id>, b: set<Id>)
    requires a < b
    ensures Earlier(a, b) && !Earlier(b, a)
  {
    SubsetCardinality(a, b);
  }

  /** In an ordered list a smaller set stands before a larger one. */
  lemma SmallerComesFirst(unique: seq<set<Id>>, i: nat, j: nat)
    requires Ordered(unique) && i < |unique| && j < |unique| && unique[i] < unique[j]
    ensures i < j
  {
    ProperSubsetIsEarlier(unique[i], unique[j]);
  }

  /** What has been kept after the first i sets. */
  ghost predicate Keeping(unique: seq<set<Id>>, i: nat, output: seq<set<Id>>)
    requires i <= |unique|
  {
    && Ordered(output)
    && (forall x :: x in output ==> MinimalIn(x, unique) && ListedBefore(unique, i, x))
    && (forall j :: 0 <= j < i ==> Covered(output, unique[j]))
    && forall j :: 0 <= j < i && MinimalIn(unique[j], unique) ==> unique[j] in output
  }

  ghost predicate ListedBefore(unique: seq<set<Id>>, i: nat, x: set<Id>)
    requires i <= |unique|
  {
    exists j :: 0 <= j < i && unique[j] == x
  }

  lemma StillCovered(output: seq<set<Id>>, value: set<Id>, s: set<Id>)
    requires Covered(output, s)
    ensures Covered(output + [value], s)
  {
    var k :| 0 <= k < |output| && output[k] <= s;
    assert (output + [value])[k] <= s;
  }

  lemma KeepOneMore(unique: seq<set<Id>>, i: nat, output: seq<set<Id>>)
    requires i < |unique| && Ordered(unique) && Keeping(unique, i, output) && !Covered(output, unique[i])
    ensures Keeping(unique, i + 1, output + [unique[i]])
  {
    var value, more := unique[i], output + [unique[i]];
    NothingBelow(unique, output, i);
    forall y | y in output ensures Earlier(y, value) {
      assert ListedBefore(unique, i, y);
    }
    OrderedAppend(output, value);
    forall x | x in more ensures MinimalIn(x, unique) && ListedBefore(unique, i + 1, x) {
      assert x in output ==> ListedBefore(unique, i, x);
    }
    forall j | 0 <= j <= i ensures Covered(more, unique[j]) {
      if j < i {
        StillCovered(output, value, unique[j]);
      } else {
        assert more[|output|] <= value;
      }
    }
  }

  lemma SkipOneMore(unique: seq<set<Id>>, i: nat, output: seq<set<Id>>)
    requires i < |unique| && Keeping(unique, i, output) && Covered(output, unique[i])
    ensures Keeping(unique, i + 1, output)
  {
    forall x | x in output ensures x in unique && ListedBefore(unique, i + 1, x) {
      assert ListedBefore(unique, i, x);
    }
    CoveredIsMinimalOnlyIfListed(unique, output, unique[i]);
  }

  method Minimal(sets: seq<set<Id>>) returns (output: seq<set<Id>>)
    ensures AreMinimal(output, sets)
  {
    var unique := SortUnique(sets);
    output := [];
    for i := 0 to |unique|
      invariant Keeping(unique, i, output)
    {
      if !Covered(output, unique[i]) {
        KeepOneMore(unique, i, output);
        output := output + [unique[i]];
      } else {
        SkipOneMore(unique, i, output);
      }
    }
    MinimalOfUnique(output, unique, sets);
  }

  lemma NothingBelow(unique: seq<set<Id>>, output: seq<set<Id>>, i: nat)
    requires Ordered(unique) && i < |unique| && !Covered(output, unique[i])
    requires forall j :: 0 <= j < i ==> Covered(output, unique[j])
    ensures MinimalIn(unique[i], unique)
  {
    forall y | y in unique ensures !(y < unique[i]) {
      var j: nat :| j < |unique| && unique[j] == y;
      if j < i {
        var k :| 0 <= k < |output| && output[k] <= unique[j];
        assert !(output[k] <= unique[i]);
      } else if y < unique[i] {
        SmallerComesFirst(unique, j, i);
      }
    }
  }

  lemma CoveredIsMinimalOnlyIfListed(unique: seq<set<Id>>, output: seq<set<Id>>, value: set<Id>)
    requires Covered(output, value) && forall x :: x in output ==> x in unique
    ensures MinimalIn(value, unique) ==> value in output
  {
    var k :| 0 <= k < |output| && output[k] <= value;
    assert output[k] in output;
    if MinimalIn(value, unique) {
      assert !(output[k] < value);
      assert output[k] == value;
    }
  }

  lemma MinimalOfUnique(output: seq<set<Id>>, unique: seq<set<Id>>, sets: seq<set<Id>>)
    requires Ordered(output) && (forall x :: x in unique <==> x in sets)
    requires forall x :: x in output ==> MinimalIn(x, unique)
    requires forall j :: 0 <= j < |unique| && MinimalIn(unique[j], unique) ==> unique[j] in output
    ensures AreMinimal(output, sets)
  {
    forall x ensures x in output <==> MinimalIn(x, sets) {
      if MinimalIn(x, sets) {
        var j :| 0 <= j < |unique| && unique[j] == x;
        assert MinimalIn(x, unique);
      }
    }
  }

  // ----- consequences

  ghost predicate Antichain(r: seq<set<Id>>)
  {
    forall i, j :: 0 <= i < |r| && 0 <= j < |r| && i != j ==> !(r[i] <= r[j])
  }

  lemma MinimalIsAntichain(r: seq<set<Id>>, sets: seq<set<Id>>)
    requires AreMinimal(r, sets)
    ensures Antichain(r)
  {
    forall i, j | 0 <= i < |r| && 0 <= j < |r| && i != j ensures !(r[i] <= r[j]) {
      assert r[i] in r && r[j] in r;
      assert r[i] != r[j] by {
        EarlierIsIrreflexive(r[i]);
      }
    }
  }

  /** Reducing to the minimal sets covers exactly what was covered before. */
  lemma {:induction false} MinimalCovers(r: seq<set<Id>>, sets: seq<set<Id>>, s: set<Id>)
    requires AreMinimal(r, sets) && s in sets
    ensures Covered(r, s)
    decreases |s|
  {
    if MinimalIn(s, sets) {
      var i :| 0 <= i < |r| && r[i] == s;
    } else {
      var y :| y in sets && y < s;
      SubsetCardinality(y, s);
      MinimalCovers(r, sets, y);
      var i :| 0 <= i < |r| && r[i] <= y;
      assert r[i] <= s;
    }
  }

  /** The minimal sets of an ordered antichain are its own list. */
  lemma AntichainIsMinimal(r: seq<set<Id>>, sets: seq<set<Id>>)
    requires AreMinimal(r, sets) && Ordered(sets) && Antichain(sets)
    ensures r == sets
  {
    forall x ensures x in r <==> x in sets {
      if x in sets {
        forall y | y in sets ensures !(y < x) {
          var i, j :| 0 <= i < |sets| && sets[i] == x && 0 <= j < |sets| && sets[j] == y;
        }
        assert MinimalIn(x, sets);
      }
    }
    OrderedIsUnique(r, sets);
  }

  /** The unions of a left and a right set. */
  function Unions(left: seq<set<Id>>, right: seq<set<Id>>): (r: seq<set<Id>>)
    ensures forall x :: x in r <==> IsUnion(left, right, x)
  {
    if left == [] then []
    else
      var first := seq(|right|, j requires 0 <= j < |right| => left[0] + right[j]);
      var rest := Unions(left[1..], right);
      UnionsMembers(left, right, first, rest);
      first + rest
  }

  ghost predicate IsUnion(left: seq<set<Id>>, right: seq<set<Id>>, x: set<Id>)
  {
    exists i, j :: 0 <= i < |left| && 0 <= j < |right| && x == left[i] + right[j]
  }

  lemma UnionsMembers(left: seq<set<Id>>, right: seq<set<Id>>, first: seq<set<Id>>, rest: seq<set<Id>>)
    requires left != [] && |first| == |right| && forall j :: 0 <= j < |right| ==> first[j] == left[0] + right[j]
    requires forall x :: x in rest <==> IsUnion(left[1..], right, x)
    ensures forall x :: x in first + rest <==> IsUnion(left, right, x)
  {
    forall x ensures x in first + rest <==> IsUnion(left, right, x) {
      if IsUnion(left, right, x) {
        var i, j :| 0 <= i < |left| && 0 <= j < |right| && x == left[i] + right[j];
        if i == 0 {
          assert first[j] == x;
        } else {
          assert left[1..][i - 1] == left[i];
          assert IsUnion(left[1..], right, x);
        }
      }
      if x in first {
        var j :| 0 <= j < |first| && first[j] == x;
        assert x == left[0] + right[j];
      }
      if x in rest {
        var i, j :| 0 <= i < |left[1..]| && 0 <= j < |right| && x == left[1..][i] + right[j];
        assert x == left[i + 1] + right[j];
      }
    }
  }
}
