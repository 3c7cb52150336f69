/** Identifiers and their deterministic listing: Python's `sorted` over a set of strings. */
module Ids {

  type Id = string

  datatype Option<+T> = None | Some(value: T)

  /** Code-point lexicographic order, the order Python gives to strings. */
  predicate Below(a: Id, b: Id)
  {
    && b != []
    && (a == [] || a[0] < b[0] || (a[0] == b[0] && Below(a[1..], b[1..])))
  }

  lemma {:induction false} BelowIsIrreflexive(a: Id)
    ensures !Below(a, a)
  {
    if a != [] {
      BelowIsIrreflexive(a[1..]);
    }
  }

  lemma {:induction false} BelowIsTransitive(a: Id, b: Id, c: Id)
    requires Below(a, b) && Below(b, c)
    ensures Below(a, c)
  {
    if a != [] && a[0] == b[0] == c[0] {
      BelowIsTransitive(a[1..], b[1..], c[1..]);
    }
  }

  lemma {:induction false} BelowIsTotal(a: Id, b: Id)
    ensures a == b || Below(a, b) || Below(b, a)
  {
    if a != [] && b != [] && a[0] == b[0] {
      BelowIsTotal(a[1..], b[1..]);
      assert a == [a[0]] + a[1..] && b == [b[0]] + b[1..];
    }
  }

  /** The first character in which the two differ decides, or that the first one ends there. */
  ghost predicate FirstDifferenceBelow(a: Id, b: Id, k: nat)
  {
    k <= |a| && k < |b| && a[..k] == b[..k] && (k < |a| ==> a[k] < b[k])
  }

  ghost predicate SameHead(a: Id, b: Id)
  {
    a != [] && b != [] && a[0] == b[0]
  }

  lemma LaterDifference(a: Id, b: Id, k: nat)
    ensures FirstDifferenceBelow(a, b, k) && k > 0 ==> SameHead(a, b)
  {
    if FirstDifferenceBelow(a, b, k) && k > 0 {
      assert a[0] == a[..k][0] == b[..k][0] == b[0];
    }
  }

  lemma {:induction false} BelowByFirstDifference(a: Id, b: Id)
    ensures Below(a, b) <==> exists k :: FirstDifferenceBelow(a, b, k)
  {
    if a == [] || b == [] || a[0] != b[0] {
      assert Below(a, b) ==> FirstDifferenceBelow(a, b, 0);
      forall k: nat ensures FirstDifferenceBelow(a, b, k) ==> Below(a, b) {
        LaterDifference(a, b, k);
      }
    } else {
      BelowByFirstDifference(a[1..], b[1..]);
      if k: nat :| FirstDifferenceBelow(a[1..], b[1..], k) {
        assert a[..k + 1] == [a[0]] + a[1..][..k] && b[..k + 1] == [b[0]] + b[1..][..k];
        assert FirstDifferenceBelow(a, b, k + 1);
      }
      forall k: nat | FirstDifferenceBelow(a, b, k) ensures FirstDifferenceBelow(a[1..], b[1..], k - 1) && k > 0 {
        assert k > 0 ==> a[1..][..k - 1] == a[..k][1..] && b[1..][..k - 1] == b[..k][1..];
      }
    }
  }

  predicate IsLeast(x: Id, s: set<Id>)
  {
    x in s && forall y :: y in s && y != x ==> Below(x, y)
  }

  lemma {:induction false} LeastExists(s: set<Id>)
    requires s != {}
    ensures exists x :: IsLeast(x, s)
    decreases |s|
  {
    var x :| x in s;
    var rest := s - {x};
    if rest == {} {
      assert s == {x};
      assert IsLeast(x, s);
    } else {
      LeastExists(rest);
      var y :| IsLeast(y, rest);
      BelowIsTotal(x, y);
      if Below(x, y) {
        forall z | z in s && z != x ensures Below(x, z) {
          if z != y { BelowIsTransitive(x, y, z); }
        }
        assert IsLeast(x, s);
      } else {
        assert IsLeast(y, s);
      }
    }
  }

  lemma LeastIsUnique(x: Id, y: Id, s: set<Id>)
    requires IsLeast(x, s) && IsLeast(y, s)
    ensures x == y
  {
    if x != y {
      BelowIsTransitive(x, y, x);
      BelowIsIrreflexive(x);
    }
  }

  predicate StrictlySorted(r: seq<Id>)
  {
    forall i, j :: 0 <= i < j < |r| ==> Below(r[i], r[j])
  }

  function Least(s: set<Id>): (x: Id)
    requires s != {}
    ensures IsLeast(x, s)
  {
    LeastExists(s);
    assert forall x, y :: IsLeast(x, s) && IsLeast(y, s) ==> x == y by {
      forall x, y | IsLeast(x, s) && IsLeast(y, s) ensures x == y {
        LeastIsUnique(x, y, s);
      }
    }
    var x :| x in s && IsLeast(x, s);
    x
  }

  /** `sorted(s)`: every identifier of the set once, in increasing order. */
  function Sorted(s: set<Id>): (r: seq<Id>)
    ensures forall x :: x in r <==> x in s
    ensures StrictlySorted(r)
    ensures |r| == |s|
    decreases |s|
  {
    if s == {} then []
    else
      var x := Least(s);
      [x] + Sorted(s - {x})
  }

  /** The same listing where only its members and their order matter. */
  method Listed(s: set<Id>) returns (r: seq<Id>)
    ensures StrictlySorted(r) && forall x :: x in r <==> x in s
  {
    r := Sorted(s);
  }

  lemma TakeOneMore<T>(s: seq<T>, k: nat)
    requires k < |s|
    ensures s[..k + 1] == s[..k] + [s[k]]
  {
  }

  /** The first n members as a set. */
  ghost function Firsts(s: seq<Id>, n: nat): set<Id>
    requires n <= |s|
  {
    if n == 0 then {} else Firsts(s, n - 1) + {s[n - 1]}
  }

  lemma {:induction false} FirstsMembers(s: seq<Id>, n: nat, x: Id)
    requires n <= |s|
    ensures x in Firsts(s, n) <==> x in s[..n]
  {
    if n > 0 {
      FirstsMembers(s, n - 1, x);
      TakeOneMore(s, n - 1);
    }
  }

  lemma AllFirsts(s: seq<Id>, members: set<Id>)
    requires forall x :: x in s <==> x in members
    ensures Firsts(s, |s|) == members
  {
    var firsts := Firsts(s, |s|);
    assert s[..|s|] == s;
    forall x ensures x in firsts <==> x in members {
      FirstsMembers(s, |s|, x);
    }
  }

  lemma DisjointByMembers(a: set<Id>, b: set<Id>)
    ensures a * b == {} <==> forall p :: p in a ==> p !in b
    ensures a * b != {} <==> exists p :: p in a && p in b
  {
    if p :| p in a && p in b {
      assert p in a * b;
    }
    if a * b != {} {
      var p :| p in a * b;
    }
  }

  predicate NoDuplicates<T(==)>(r: seq<T>)
  {
    forall i, j :: 0 <= i < j < |r| ==> r[i] != r[j]
  }

  lemma SortedHasNoDuplicates(r: seq<Id>)
    requires StrictlySorted(r)
    ensures NoDuplicates(r)
  {
    forall i, j | 0 <= i < j < |r| ensures r[i] != r[j] {
      BelowIsIrreflexive(r[i]);
    }
  }

  lemma {:induction false} NoDuplicatesCardinality<T>(r: seq<T>, members: set<T>)
    requires NoDuplicates(r) && (forall x :: x in r ==> x in members) && (forall x :: x in members ==> x in r)
    ensures |members| == |r|
  {
    if r != [] {
      var init, last := r[..|r| - 1], r[|r| - 1];
      assert r == init + [last] && last in r && last !in init;
      NoDuplicatesCardinality(init, members - {last});
    } else {
      assert members == {};
    }
  }

  lemma SubsetCardinality<T>(a: set<T>, b: set<T>)
    requires a <= b
    ensures |a| <= |b|
    ensures |a| == |b| ==> a == b
  {
    assert b == a + (b - a);
  }

  predicate Increasing(r: seq<nat>)
  {
    forall i, j :: 0 <= i < j < |r| ==> r[i] < r[j]
  }

  /** The positions below n that satisfy the test, in order. */
  function Where(n: nat, test: nat -> bool): (r: seq<nat>)
    ensures forall i: nat :: i in r <==> i < n && test(i)
    ensures NoDuplicates(r) && Increasing(r)
  {
    if n == 0 then []
    else
      var below := Where(n - 1, test);
      assert forall k :: 0 <= k < |below| ==> below[k] in below;
      if test(n - 1) then below + [n - 1] else below
  }

  function OnlyOne(winners: seq<nat>): Option<nat>
  {
    if |winners| == 1 then Some(winners[0]) else None
  }

  lemma SingletonByMembers(r: seq<nat>, p: nat)
    requires NoDuplicates(r) && p in r && forall i: nat :: i in r ==> i == p
    ensures r == [p]
  {
    NoDuplicatesCardinality(r, {p});
    assert r[0] in r;
  }
}
