/**
 * Canonical bytes of float-free JSON, following the member order and UTF-8 form of sections 3.2.2 and
 * 3.2.3 of RFC 8785: the bytes say exactly as much as the value, up to the order of object members.
 */
module Canonical {
  import opened Json
  import opened Unicode
  import opened CanonicalText
  import Ids

  /** A value outside the profile, a text that UTF-8 cannot carry, or the bytes. */
  datatype Result = Forbidden | Unencodable | Ok(bytes: seq<Byte>)

  function CanonicalBytes(v: Value): Result
  {
    if !InProfile(v) then Forbidden
    else if !Encodable(Encode(v)) then Unencodable
    else Ok(Utf8(Encode(v)))
  }

  // ----- the first character tells the kind

  function KindOf(v: Value): nat
  {
    match v
    case Null => 1
    case Bool(b) => if b then 2 else 3
    case Int(_) => 4
    case Str(_) => 5
    case Arr(_) => 6
    case Obj(_) => 7
    case Float => 0
  }

  function KindOfCode(c: Code): nat
  {
    if c == 0x6E then 1 else if c == 0x74 then 2 else if c == 0x66 then 3
    else if c == MINUS || IsDigit(c) then 4
    else if c == QUOTE then 5 else if c == OPEN_ARRAY then 6 else if c == OPEN_OBJECT then 7 else 0
  }

  lemma KindIsVisible(v: Value, x: Text)
    requires InProfile(v)
    ensures Encode(v) + x != [] && KindOfCode((Encode(v) + x)[0]) == KindOf(v) != 0
  {
    if v.Int? {
      StartOfDecimal(v.n, x);
    }
  }

  // ----- arrays

  predicate AllGood(items: seq<Value>)
  {
    forall i :: 0 <= i < |items| ==> InProfile(items[i]) && WellFormed(items[i])
  }

  /** An array from its first element to the end of the text. */
  function ArrayRemainder(items: seq<Value>, x: Text): Text
    decreases |items|, 1
  {
    if items == [] then [CLOSE_ARRAY] + x else Encode(items[0]) + AfterItem(items, x)
  }

  function AfterItem(items: seq<Value>, x: Text): (t: Text)
    requires items != []
    ensures Delimited(t) && t != [] && (t[0] == COMMA <==> |items| > 1)
    decreases |items|, 0
  {
    if |items| == 1 then [CLOSE_ARRAY] + x else [COMMA] + ArrayRemainder(items[1..], x)
  }

  lemma {:induction false} ItemsAreRemainder(items: seq<Value>, x: Text)
    ensures EncodeItems(items) + ([CLOSE_ARRAY] + x) == ArrayRemainder(items, x)
  {
    if items == [] {
      assert EncodeItems(items) == [];
    } else if |items| == 1 {
      assert EncodeItems(items) == Encode(items[0]);
    } else {
      ItemsAreRemainder(items[1..], x);
      Regroup(Encode(items[0]), [COMMA], EncodeItems(items[1..]), [CLOSE_ARRAY] + x);
    }
  }

  lemma ArrayIsRemainder(items: seq<Value>, x: Text)
    ensures Encode(Arr(items)) + x == [OPEN_ARRAY] + ArrayRemainder(items, x)
  {
    Regroup([OPEN_ARRAY], EncodeItems(items), [CLOSE_ARRAY], x);
    ItemsAreRemainder(items, x);
  }

  lemma StartOfItems(items: seq<Value>, x: Text)
    requires AllGood(items)
    ensures ArrayRemainder(items, x) != [] && (KindOfCode(ArrayRemainder(items, x)[0]) == 0 <==> items == [])
  {
    if items != [] {
      KindIsVisible(items[0], AfterItem(items, x));
    }
  }

  // ----- objects

  predicate AllGoodMembers(members: seq<Member>)
  {
    DistinctKeys(members) && forall i :: 0 <= i < |members| ==> InProfile(members[i].value) && WellFormed(members[i].value)
  }

  function ObjectRemainder(pairs: seq<Pair>, x: Text): Text
    decreases |pairs|, 1
  {
    if pairs == [] then [CLOSE_OBJECT] + x
    else Quote(pairs[0].key) + ([COLON] + (pairs[0].text + AfterPair(pairs, x)))
  }

  function AfterPair(pairs: seq<Pair>, x: Text): (t: Text)
    requires pairs != []
    ensures Delimited(t) && t != [] && (t[0] == COMMA <==> |pairs| > 1)
    decreases |pairs|, 0
  {
    if |pairs| == 1 then [CLOSE_OBJECT] + x else [COMMA] + ObjectRemainder(pairs[1..], x)
  }

  lemma Regroup4(a: Text, b: Text, c: Text, d: Text, x: Text)
    ensures a + b + c + d + x == a + (b + (c + (d + x)))
  {
  }

  lemma {:induction false} PairsAreRemainder(pairs: seq<Pair>, x: Text)
    ensures JoinPairs(pairs) + ([CLOSE_OBJECT] + x) == ObjectRemainder(pairs, x)
  {
    if pairs == [] {
      assert JoinPairs(pairs) == [];
    } else {
      var tail := if |pairs| == 1 then [] else [COMMA] + JoinPairs(pairs[1..]);
      Regroup4(Quote(pairs[0].key), [COLON], pairs[0].text, tail, [CLOSE_OBJECT] + x);
      if |pairs| > 1 {
        PairsAreRemainder(pairs[1..], x);
        Regroup([], [COMMA], JoinPairs(pairs[1..]), [CLOSE_OBJECT] + x);
      }
      assert tail + ([CLOSE_OBJECT] + x) == AfterPair(pairs, x);
    }
  }

  function PairsOf(members: seq<Member>): seq<Pair>
  {
    SortPairs(EncodeMembers(members))
  }

  lemma ObjectIsRemainder(members: seq<Member>, x: Text)
    ensures Encode(Obj(members)) + x == [OPEN_OBJECT] + ObjectRemainder(PairsOf(members), x)
  {
    Regroup([OPEN_OBJECT], JoinPairs(PairsOf(members)), [CLOSE_OBJECT], x);
    PairsAreRemainder(PairsOf(members), x);
  }

  lemma StartOfPairs(pairs: seq<Pair>, x: Text)
    ensures ObjectRemainder(pairs, x) != [] && (ObjectRemainder(pairs, x)[0] == CLOSE_OBJECT <==> pairs == [])
  {
  }

  /** The pair comes from one of the members. */
  predicate From(members: seq<Member>, p: Pair)
  {
    exists i :: 0 <= i < |members| && p == Pair(members[i].key, Encode(members[i].value))
  }

  predicate MatchAt(a: seq<Member>, b: seq<Member>, key: Text)
  {
    exists i, j :: 0 <= i < |a| && 0 <= j < |b| && a[i].key == key == b[j].key && Equivalent(a[i].value, b[j].value)
  }

  lemma PairsComeFromMembers(members: seq<Member>)
    ensures |PairsOf(members)| == |members|
    ensures forall p :: p in PairsOf(members) <==> From(members, p)
    ensures forall i :: 0 <= i < |members| ==> Pair(members[i].key, Encode(members[i].value)) in PairsOf(members)
  {
    var pairs := EncodeMembers(members);
    SortMembers(pairs);
    forall p | p in PairsOf(members) ensures From(members, p) {
      var i :| 0 <= i < |pairs| && pairs[i] == p;
    }
    forall i | 0 <= i < |members| ensures Pair(members[i].key, Encode(members[i].value)) in PairsOf(members) {
      assert pairs[i] in pairs;
    }
  }

  // ----- reading back

  /** A text that starts with the encoding of a value, then ends or is delimited, determines value and rest. */
  lemma {:induction false} EncodingIsUnique(a: Value, b: Value, x: Text, y: Text)
    requires InProfile(a) && InProfile(b) && WellFormed(a) && WellFormed(b)
    requires Encode(a) + x == Encode(b) + y && Delimited(x) && Delimited(y)
    ensures Equivalent(a, b) && x == y
    decreases a, 1, 0
  {
    KindIsVisible(a, x);
    KindIsVisible(b, y);
    match a
    case Int(n) => DecimalIsUnique(n, b.n, x, y);
    case Str(s) => QuoteIsUnique(s, b.s, x, y);
    case Arr(items) =>
      ArrayIsRemainder(items, x);
      ArrayIsRemainder(b.items, y);
      Cancel([OPEN_ARRAY], ArrayRemainder(items, x), ArrayRemainder(b.items, y));
      ItemsAreUnique(items, b.items, x, y);
    case Obj(members) =>
      ObjectIsRemainder(members, x);
      ObjectIsRemainder(b.members, y);
      Cancel([OPEN_OBJECT], ObjectRemainder(PairsOf(members), x), ObjectRemainder(PairsOf(b.members), y));
      PairsComeFromMembers(members);
      PairsComeFromMembers(b.members);
      PairsAreUnique(members, b.members, PairsOf(members), PairsOf(b.members), x, y);
      MatchedMembersAreEquivalent(members, b.members, PairsOf(members));
    case _ => Cancel(Encode(a), x, y);
  }

  lemma {:induction false} ItemsAreUnique(a: seq<Value>, b: seq<Value>, x: Text, y: Text)
    requires AllGood(a) && AllGood(b) && ArrayRemainder(a, x) == ArrayRemainder(b, y)
    ensures |a| == |b| && x == y && forall i :: 0 <= i < |a| ==> Equivalent(a[i], b[i])
    decreases a, 0, 0
  {
    StartOfItems(a, x);
    StartOfItems(b, y);
    if a == [] {
      Cancel([CLOSE_ARRAY], x, y);
    } else {
      EncodingIsUnique(a[0], b[0], AfterItem(a, x), AfterItem(b, y));
      if |a| == 1 {
        Cancel([CLOSE_ARRAY], x, y);
      } else {
        Cancel([COMMA], ArrayRemainder(a[1..], x), ArrayRemainder(b[1..], y));
        ItemsAreUnique(a[1..], b[1..], x, y);
        assert forall i :: 0 < i < |a| ==> a[i] == a[1..][i - 1] && b[i] == b[1..][i - 1];
      }
    }
  }

  /** The member names agree one by one, and so do the values under them. */
  lemma {:induction false} PairsAreUnique(a: seq<Member>, b: seq<Member>, p: seq<Pair>, q: seq<Pair>, x: Text, y: Text)
    requires AllGoodMembers(a) && AllGoodMembers(b)
    requires (forall r :: r in p ==> From(a, r)) && (forall r :: r in q ==> From(b, r))
    requires ObjectRemainder(p, x) == ObjectRemainder(q, y)
    ensures |p| == |q| && x == y
    ensures forall k :: 0 <= k < |p| ==> MatchAt(a, b, p[k].key)
    decreases a, 0, |p|
  {
    StartOfPairs(p, x);
    StartOfPairs(q, y);
    if p == [] {
      Cancel([CLOSE_OBJECT], x, y);
    } else {
      var u, w := p[0].text + AfterPair(p, x), q[0].text + AfterPair(q, y);
      QuoteIsUnique(p[0].key, q[0].key, [COLON] + u, [COLON] + w);
      Cancel([COLON], u, w);
      assert p[0] in p && q[0] in q;
      var i :| 0 <= i < |a| && p[0] == Pair(a[i].key, Encode(a[i].value));
      var j :| 0 <= j < |b| && q[0] == Pair(b[j].key, Encode(b[j].value));
      EncodingIsUnique(a[i].value, b[j].value, AfterPair(p, x), AfterPair(q, y));
      assert MatchAt(a, b, p[0].key);
      if |p| == 1 {
        Cancel([CLOSE_OBJECT], x, y);
      } else {
        Cancel([COMMA], ObjectRemainder(p[1..], x), ObjectRemainder(q[1..], y));
        PairsAreUnique(a, b, p[1..], q[1..], x, y);
        assert forall k :: 0 < k < |p| ==> p[k] == p[1..][k - 1];
      }
    }
  }

  lemma MatchedMembersAreEquivalent(a: seq<Member>, b: seq<Member>, p: seq<Pair>)
    requires DistinctKeys(a) && DistinctKeys(b) && |a| == |b|
    requires forall i :: 0 <= i < |a| ==> Pair(a[i].key, Encode(a[i].value)) in p
    requires forall k :: 0 <= k < |p| ==> MatchAt(a, b, p[k].key)
    ensures Equivalent(Obj(a), Obj(b))
  {
    forall i | 0 <= i < |a|
      ensures HasEquivalent(a[i].key, a[i].value, b)
    {
      var k :| 0 <= k < |p| && p[k] == Pair(a[i].key, Encode(a[i].value));
      var i', j :| 0 <= i' < |a| && 0 <= j < |b| && a[i'].key == p[k].key == b[j].key && Equivalent(a[i'].value, b[j].value);
    }
  }

  // ----- equivalent values have the same text

  lemma {:induction false} SameItems(a: seq<Value>, b: seq<Value>)
    requires |a| == |b| && forall i :: 0 <= i < |a| ==> Encode(a[i]) == Encode(b[i])
    ensures EncodeItems(a) == EncodeItems(b)
  {
    if |a| > 1 {
      SameItems(a[1..], b[1..]);
    }
  }

  function Keys(members: seq<Member>): seq<Text>
  {
    seq(|members|, i requires 0 <= i < |members| => members[i].key)
  }

  function KeySet(members: seq<Member>): set<Text>
  {
    set i | 0 <= i < |members| :: members[i].key
  }

  /** As many members, and every name of the first among those of the second: the names are the same. */
  lemma SameKeys(a: seq<Member>, b: seq<Member>)
    requires DistinctKeys(a) && DistinctKeys(b) && |a| == |b| && KeySet(a) <= KeySet(b)
    ensures KeySet(a) == KeySet(b)
  {
    KeysCount(a);
    KeysCount(b);
    Ids.SubsetCardinality(KeySet(a), KeySet(b));
  }

  lemma KeysCount(members: seq<Member>)
    requires DistinctKeys(members)
    ensures |KeySet(members)| == |members|
  {
    var keys := Keys(members);
    forall k ensures k in keys <==> k in KeySet(members) {
      if k in KeySet(members) {
        var i :| 0 <= i < |members| && members[i].key == k;
        assert keys[i] == k;
      }
    }
    Ids.NoDuplicatesCardinality(keys, KeySet(members));
  }

  lemma {:induction false} EquivalentEncodeAlike(a: Value, b: Value)
    requires WellFormed(a) && WellFormed(b) && Clean(a) && Clean(b) && Equivalent(a, b)
    ensures Encode(a) == Encode(b)
    decreases a
  {
    match a
    case Arr(items) =>
      forall i | 0 <= i < |items| ensures Encode(items[i]) == Encode(b.items[i]) {
        EquivalentEncodeAlike(items[i], b.items[i]);
      }
      SameItems(items, b.items);
    case Obj(members) =>
      forall i | 0 <= i < |members|
        ensures HasText(b.members, members[i].key, Encode(members[i].value))
      {
        assert HasEquivalent(members[i].key, members[i].value, b.members);
        var j :| 0 <= j < |b.members| && b.members[j].key == members[i].key && Equivalent(members[i].value, b.members[j].value);
        EquivalentEncodeAlike(members[i].value, b.members[j].value);
      }
      SamePairs(members, b.members);
    case _ =>
  }

  /** Some member has this name and this text. */
  predicate HasText(members: seq<Member>, key: Text, text: Text)
  {
    exists j :: 0 <= j < |members| && members[j].key == key && Encode(members[j].value) == text
  }

  lemma TextIsUnique(members: seq<Member>, j: nat, text: Text)
    requires DistinctKeys(members) && j < |members| && HasText(members, members[j].key, text)
    ensures Encode(members[j].value) == text
  {
  }

  /** The other direction follows by counting the names. */
  lemma TextsGoBack(a: seq<Member>, b: seq<Member>, j: nat)
    requires DistinctKeys(a) && DistinctKeys(b) && |a| == |b| && j < |b|
    requires forall i :: 0 <= i < |a| ==> HasText(b, a[i].key, Encode(a[i].value))
    ensures exists i :: 0 <= i < |a| && a[i].key == b[j].key && Encode(a[i].value) == Encode(b[j].value)
  {
    forall k | k in KeySet(a) ensures k in KeySet(b) {
      var i :| 0 <= i < |a| && a[i].key == k;
      assert HasText(b, a[i].key, Encode(a[i].value));
    }
    SameKeys(a, b);
    assert b[j].key in KeySet(b);
    var i :| 0 <= i < |a| && a[i].key == b[j].key;
    TextIsUnique(b, j, Encode(a[i].value));
  }

  lemma SamePairMembers(a: seq<Member>, b: seq<Member>, p: Pair)
    requires DistinctKeys(a) && DistinctKeys(b) && |a| == |b|
    requires forall i :: 0 <= i < |a| ==> HasText(b, a[i].key, Encode(a[i].value))
    ensures From(a, p) <==> From(b, p)
  {
    if From(a, p) {
      var i :| 0 <= i < |a| && p == Pair(a[i].key, Encode(a[i].value));
      assert HasText(b, a[i].key, Encode(a[i].value));
    }
    if From(b, p) {
      var j: nat :| j < |b| && p == Pair(b[j].key, Encode(b[j].value));
      TextsGoBack(a, b, j);
    }
  }

  lemma SamePairs(a: seq<Member>, b: seq<Member>)
    requires DistinctKeys(a) && DistinctKeys(b) && |a| == |b|
    requires forall i :: 0 <= i < |a| ==> Encodable(a[i].key)
    requires forall i :: 0 <= i < |b| ==> Encodable(b[i].key)
    requires forall i :: 0 <= i < |a| ==> HasText(b, a[i].key, Encode(a[i].value))
    ensures PairsOf(a) == PairsOf(b)
  {
    PairsComeFromMembers(a);
    PairsComeFromMembers(b);
    forall p ensures p in PairsOf(a) <==> p in PairsOf(b) {
      SamePairMembers(a, b, p);
    }
    SortOrders(EncodeMembers(a));
    SortOrders(EncodeMembers(b));
    OrderedIsUnique(PairsOf(a), PairsOf(b));
  }

  // ----- what UTF-8 can carry

  lemma EncodableConcat(a: Text, b: Text)
    ensures Encodable(a + b) <==> Encodable(a) && Encodable(b)
  {
    assert forall i :: 0 <= i < |a| ==> (a + b)[i] == a[i];
    assert forall i :: 0 <= i < |b| ==> (a + b)[|a| + i] == b[i];
  }

  lemma {:induction false} EscapeKeepsEncodable(s: Text)
    ensures Encodable(Escape(s)) <==> Encodable(s)
  {
    if s != [] {
      EscapeKeepsEncodable(s[1..]);
      EncodableConcat(EscapeUnit(s[0]), Escape(s[1..]));
      assert s == [s[0]] + s[1..];
      EncodableConcat([s[0]], s[1..]);
      assert Encodable(EscapeUnit(s[0])) <==> Encodable([s[0]]) by {
        assert IsSurrogate(s[0]) ==> EscapeUnit(s[0])[0] == s[0] == [s[0]][0];
      }
    }
  }

  lemma QuoteKeepsEncodable(s: Text)
    ensures Encodable(Quote(s)) <==> Encodable(s)
  {
    EscapeKeepsEncodable(s);
    EncodableConcat([QUOTE] + Escape(s), [QUOTE]);
    EncodableConcat([QUOTE], Escape(s));
  }

  lemma DecimalIsEncodable(n: int)
    ensures Encodable(Decimal(n))
  {
    DigitsReadBack(if n < 0 then -n else n);
  }

  lemma {:induction false} ItemsEncodable(items: seq<Value>)
    ensures Encodable(EncodeItems(items)) <==> forall i :: 0 <= i < |items| ==> Encodable(Encode(items[i]))
  {
    if items != [] {
      var rest := if |items| == 1 then [] else [COMMA] + EncodeItems(items[1..]);
      EncodableConcat(Encode(items[0]), rest);
      if |items| > 1 {
        ItemsEncodable(items[1..]);
        EncodableConcat([COMMA], EncodeItems(items[1..]));
        assert forall i :: 0 < i < |items| ==> items[i] == items[1..][i - 1];
      }
    }
  }

  lemma {:induction false} JoinEncodable(pairs: seq<Pair>)
    ensures Encodable(JoinPairs(pairs)) <==> forall p :: p in pairs ==> Encodable(p.key) && Encodable(p.text)
  {
    if pairs != [] {
      var head, rest := pairs[0], if |pairs| == 1 then [] else [COMMA] + JoinPairs(pairs[1..]);
      QuoteKeepsEncodable(head.key);
      EncodableConcat(Quote(head.key) + [COLON] + head.text, rest);
      EncodableConcat(Quote(head.key) + [COLON], head.text);
      EncodableConcat(Quote(head.key), [COLON]);
      assert pairs == [head] + pairs[1..];
      if |pairs| > 1 {
        JoinEncodable(pairs[1..]);
        EncodableConcat([COMMA], JoinPairs(pairs[1..]));
      }
    }
  }

  /** UTF-8 fails exactly on values with a lone surrogate in some string or member name. */
  lemma {:induction false} EncodableIffClean(v: Value)
    ensures Encodable(Encode(v)) <==> Clean(v)
    decreases v
  {
    match v
    case Int(n) => DecimalIsEncodable(n);
    case Str(s) => QuoteKeepsEncodable(s);
    case Arr(items) =>
      Surround(OPEN_ARRAY, EncodeItems(items), CLOSE_ARRAY);
      ItemsEncodable(items);
      forall i | 0 <= i < |items| ensures Encodable(Encode(items[i])) <==> Clean(items[i]) {
        EncodableIffClean(items[i]);
      }
    case Obj(members) =>
      Surround(OPEN_OBJECT, JoinPairs(PairsOf(members)), CLOSE_OBJECT);
      JoinEncodable(PairsOf(members));
      PairsComeFromMembers(members);
      forall i | 0 <= i < |members| ensures Encodable(Encode(members[i].value)) <==> Clean(members[i].value) {
        EncodableIffClean(members[i].value);
      }
      MembersEncodable(members, PairsOf(members));
    case _ =>
  }

  lemma Surround(open: Code, t: Text, close: Code)
    requires !IsSurrogate(open) && !IsSurrogate(close)
    ensures Encodable([open] + t + [close]) <==> Encodable(t)
  {
    EncodableConcat([open] + t, [close]);
    EncodableConcat([open], t);
  }

  lemma MembersEncodable(members: seq<Member>, pairs: seq<Pair>)
    requires forall p :: p in pairs ==> From(members, p)
    requires forall i :: 0 <= i < |members| ==> Pair(members[i].key, Encode(members[i].value)) in pairs
    ensures (forall p :: p in pairs ==> Encodable(p.key) && Encodable(p.text))
       <==> forall i :: 0 <= i < |members| ==> Encodable(members[i].key) && Encodable(Encode(members[i].value))
  {
  }

  // ----- main results

  lemma OutcomeIsExact(v: Value)
    ensures CanonicalBytes(v) == Forbidden <==> !InProfile(v)
    ensures CanonicalBytes(v) == Unencodable <==> InProfile(v) && !Clean(v)
  {
    EncodableIffClean(v);
  }

  /** Two values have the same canonical bytes exactly when they are equal up to member order. */
  lemma BytesIdentifyValues(a: Value, b: Value)
    requires WellFormed(a) && WellFormed(b) && CanonicalBytes(a).Ok? && CanonicalBytes(b).Ok?
    ensures CanonicalBytes(a) == CanonicalBytes(b) <==> Equivalent(a, b)
  {
    if CanonicalBytes(a) == CanonicalBytes(b) {
      Utf8IsInjective(Encode(a), Encode(b));
      assert Encode(a) + [] == Encode(b) + [];
      EncodingIsUnique(a, b, [], []);
    }
    if Equivalent(a, b) {
      EncodableIffClean(a);
      EncodableIffClean(b);
      EquivalentEncodeAlike(a, b);
    }
  }
}
