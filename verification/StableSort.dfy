/** Python's `sorted(items, key=...)` by a string key: in increasing order, equal keys in their old order. */
module StableSort {
  import opened Ids

  function InsertBy<T>(key: T -> Id, r: seq<T>, x: T): seq<T>
  {
    if r == [] then [x]
    else if Below(key(x), key(r[|r| - 1])) then InsertBy(key, r[..|r| - 1], x) + [r[|r| - 1]]
    else r + [x]
  }

  function SortBy<T>(key: T -> Id, items: seq<T>): seq<T>
  {
    if items == [] then [] else InsertBy(key, SortBy(key, items[..|items| - 1]), items[|items| - 1])
  }

  // ----- nothing is lost or added

  lemma {:induction false} InsertKeeps<T>(key: T -> Id, r: seq<T>, x: T)
    ensures multiset(InsertBy(key, r, x)) == multiset(r) + multiset{x}
  {
    if r != [] {
      assert r == r[..|r| - 1] + [r[|r| - 1]];
      InsertKeeps(key, r[..|r| - 1], x);
    }
  }

  lemma {:induction false} SortKeeps<T>(key: T -> Id, items: seq<T>)
    ensures multiset(SortBy(key, items)) == multiset(items)
  {
    if items != [] {
      assert items == items[..|items| - 1] + [items[|items| - 1]];
      SortKeeps(key, items[..|items| - 1]);
      InsertKeeps(key, SortBy(key, items[..|items| - 1]), items[|items| - 1]);
    }
  }

  lemma SortMembers<T>(key: T -> Id, items: seq<T>)
    ensures |SortBy(key, items)| == |items|
    ensures forall x :: x in SortBy(key, items) <==> x in items
  {
    SortKeeps(key, items);
    assert |multiset(SortBy(key, items))| == |SortBy(key, items)| && |multiset(items)| == |items|;
    forall x ensures x in SortBy(key, items) <==> x in items {
      assert x in multiset(SortBy(key, items)) <==> x in multiset(items);
    }
  }

  // ----- in order

  ghost predicate InOrder<T>(key: T -> Id, items: seq<T>)
  {
    forall i, j :: 0 <= i < j < |items| ==> key(items[i]) == key(items[j]) || Below(key(items[i]), key(items[j]))
  }

  lemma LastInOrder<T>(key: T -> Id, r: seq<T>, x: T)
    requires InOrder(key, r) && (r != [] ==> !Below(key(x), key(r[|r| - 1])))
    ensures InOrder(key, r + [x])
  {
    if r != [] {
      var last := r[|r| - 1];
      BelowIsTotal(key(x), key(last));
      forall i | 0 <= i < |r| ensures key(r[i]) == key(x) || Below(key(r[i]), key(x)) {
        if i < |r| - 1 && key(r[i]) != key(last) && key(last) != key(x) {
          BelowIsTransitive(key(r[i]), key(last), key(x));
        }
      }
    }
  }

  lemma {:induction false} InsertInOrder<T>(key: T -> Id, r: seq<T>, x: T)
    requires InOrder(key, r)
    ensures InOrder(key, InsertBy(key, r, x))
  {
    if r != [] && Below(key(x), key(r[|r| - 1])) {
      var init, last := r[..|r| - 1], r[|r| - 1];
      InsertInOrder(key, init, x);
      InsertKeeps(key, init, x);
      var more := InsertBy(key, init, x);
      forall i | 0 <= i < |more| ensures key(more[i]) == key(last) || Below(key(more[i]), key(last)) {
        assert more[i] in multiset(more);
        if more[i] != x {
          assert more[i] in multiset(init);
          var k :| 0 <= k < |init| && init[k] == more[i];
          assert r[k] == init[k];
        }
      }
    } else {
      LastInOrder(key, r, x);
    }
  }

  // ----- and stable

  /** The items with this key, in their order. */
  function WithKey<T>(key: T -> Id, items: seq<T>, id: Id): seq<T>
  {
    if items == [] then []
    else
      var last := |items| - 1;
      WithKey(key, items[..last], id) + if key(items[last]) == id then [items[last]] else []
  }

  lemma {:induction false} InsertIsStable<T>(key: T -> Id, r: seq<T>, x: T, id: Id)
    ensures WithKey(key, InsertBy(key, r, x), id) == WithKey(key, r, id) + if key(x) == id then [x] else []
  {
    if r != [] && Below(key(x), key(r[|r| - 1])) {
      var init, last := r[..|r| - 1], r[|r| - 1];
      InsertIsStable(key, init, x, id);
      BelowIsIrreflexive(key(x));
      assert (InsertBy(key, init, x) + [last])[..|InsertBy(key, init, x)|] == InsertBy(key, init, x);
    } else {
      assert (r + [x])[..|r|] == r;
    }
  }

  /** Sorted, with the same items, and equal keys in their old order. */
  lemma {:induction false} SortIsStable<T>(key: T -> Id, items: seq<T>, id: Id)
    ensures InOrder(key, SortBy(key, items)) && WithKey(key, SortBy(key, items), id) == WithKey(key, items, id)
  {
    if items != [] {
      var init := items[..|items| - 1];
      SortIsStable(key, init, id);
      InsertInOrder(key, SortBy(key, init), items[|items| - 1]);
      InsertIsStable(key, SortBy(key, init), items[|items| - 1], id);
    }
  }
}
