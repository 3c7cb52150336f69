/** The text of a canonical JSON value, and why a value can be read back from it. */
module CanonicalText {
  import opened Json
  import opened Unicode

  const QUOTE: Code := 0x22
  const BACKSLASH: Code := 0x5C
  const COMMA: Code := 0x2C
  const COLON: Code := 0x3A
  const OPEN_ARRAY: Code := 0x5B
  const CLOSE_ARRAY: Code := 0x5D
  const OPEN_OBJECT: Code := 0x7B
  const CLOSE_OBJECT: Code := 0x7D
  const MINUS: Code := 0x2D

  // ----- integers

  function Digits(n: nat): (t: Text)
    ensures t != []
  {
    if n < 10 then [0x30 + n] else Digits(n / 10) + [0x30 + n % 10]
  }

  predicate IsDigit(c: Code)
  {
    0x30 <= c <= 0x39
  }

  function NumberOf(t: seq<int>): int
  {
    if t == [] then 0 else 10 * NumberOf(t[..|t| - 1]) + (t[|t| - 1] - 0x30)
  }

  lemma {:induction false} DigitsReadBack(n: nat)
    ensures NumberOf(Digits(n)) == n
    ensures forall i :: 0 <= i < |Digits(n)| ==> IsDigit(Digits(n)[i])
  {
    if n >= 10 {
      DigitsReadBack(n / 10);
      assert Digits(n)[..|Digits(n)| - 1] == Digits(n / 10);
    } else {
      assert [0x30 + n][..0] == [];
    }
  }

  function Decimal(n: int): (t: Text)
    ensures t != []
  {
    if n < 0 then [MINUS] + Digits(-n) else Digits(n)
  }

  // ----- strings

  function Hex(d: int): Code
    requires 0 <= d < 16
  {
    if d < 10 then 0x30 + d else 0x61 + (d - 10)
  }

  /** Quotation mark, backslash and control characters are escaped; everything else stands for itself. */
  function EscapeUnit(c: Code): (t: Text)
    ensures t != []
  {
    if c == QUOTE || c == BACKSLASH then [BACKSLASH, c]
    else if c == 0x08 then [BACKSLASH, 0x62]
    else if c == 0x0C then [BACKSLASH, 0x66]
    else if c == 0x0A then [BACKSLASH, 0x6E]
    else if c == 0x0D then [BACKSLASH, 0x72]
    else if c == 0x09 then [BACKSLASH, 0x74]
    else if c < 0x20 then [BACKSLASH, 0x75, 0x30, 0x30, Hex(c / 16), Hex(c % 16)]
    else [c]
  }

  function Escape(s: Text): Text
  {
    if s == [] then [] else EscapeUnit(s[0]) + Escape(s[1..])
  }

  function Quote(s: Text): Text
  {
    [QUOTE] + Escape(s) + [QUOTE]
  }

  // ----- members

  /** A member name with the text of its value. */
  datatype Pair = Pair(key: Text, text: Text)

  function Insert(p: Pair, sorted: seq<Pair>): seq<Pair>
  {
    if sorted == [] || !KeyBelow(sorted[0].key, p.key) then [p] + sorted
    else [sorted[0]] + Insert(p, sorted[1..])
  }

  /** Python's stable sort by the member name. */
  function SortPairs(pairs: seq<Pair>): seq<Pair>
  {
    if pairs == [] then [] else Insert(pairs[0], SortPairs(pairs[1..]))
  }

  function JoinPairs(pairs: seq<Pair>): Text
  {
    if pairs == [] then []
    else Quote(pairs[0].key) + [COLON] + pairs[0].text + (if |pairs| == 1 then [] else [COMMA] + JoinPairs(pairs[1..]))
  }

  // ----- values

  function Encode(v: Value): Text
  {
    match v
    case Null => [0x6E, 0x75, 0x6C, 0x6C]
    case Bool(b) => if b then [0x74, 0x72, 0x75, 0x65] else [0x66, 0x61, 0x6C, 0x73, 0x65]
    case Int(n) => Decimal(n)
    case Float => []
    case Str(s) => Quote(s)
    case Arr(items) => [OPEN_ARRAY] + EncodeItems(items) + [CLOSE_ARRAY]
    case Obj(members) => [OPEN_OBJECT] + JoinPairs(SortPairs(EncodeMembers(members))) + [CLOSE_OBJECT]
  }

  function EncodeItems(items: seq<Value>): Text
  {
    if items == [] then []
    else Encode(items[0]) + (if |items| == 1 then [] else [COMMA] + EncodeItems(items[1..]))
  }

  function EncodeMembers(members: seq<Member>): (pairs: seq<Pair>)
    ensures |pairs| == |members|
    ensures forall i :: 0 <= i < |members| ==> pairs[i] == Pair(members[i].key, Encode(members[i].value))
  {
    if members == [] then []
    else [Pair(members[0].key, Encode(members[0].value))] + EncodeMembers(members[1..])
  }

  // ----- reading back: what follows a text decides nothing about it

  /** The text ends, or goes on with something that ends a value. */
  predicate Delimited(x: Text)
  {
    x == [] || x[0] == COMMA || x[0] == CLOSE_ARRAY || x[0] == CLOSE_OBJECT
  }

  lemma Cancel(p: Text, x: Text, y: Text)
    requires p + x == p + y
    ensures x == y
  {
    assert x == (p + x)[|p|..] && y == (p + y)[|p|..];
  }

  /** The length of the run of digits at the start. */
  function DigitRun(t: Text): nat
  {
    if t == [] || !IsDigit(t[0]) then 0 else 1 + DigitRun(t[1..])
  }

  lemma {:induction false} RunOfDigits(d: Text, x: Text)
    requires (forall i :: 0 <= i < |d| ==> IsDigit(d[i])) && Delimited(x)
    ensures DigitRun(d + x) == |d|
  {
    if d == [] {
      assert d + x == x;
    } else {
      assert (d + x)[1..] == d[1..] + x;
      RunOfDigits(d[1..], x);
    }
  }

  lemma DigitsAreUnique(a: nat, b: nat, x: Text, y: Text)
    requires Digits(a) + x == Digits(b) + y && Delimited(x) && Delimited(y)
    ensures a == b && x == y
  {
    var s, t := Digits(a), Digits(b);
    DigitsReadBack(a);
    DigitsReadBack(b);
    RunOfDigits(s, x);
    RunOfDigits(t, y);
    assert s == (s + x)[..|s|] && t == (t + y)[..|t|];
    Cancel(s, x, y);
  }

  lemma DecimalIsUnique(a: int, b: int, x: Text, y: Text)
    requires Decimal(a) + x == Decimal(b) + y && Delimited(x) && Delimited(y)
    ensures a == b && x == y
  {
    StartOfDecimal(a, x);
    StartOfDecimal(b, y);
    if a < 0 {
      Regroup([MINUS], Digits(-a), x, []);
      Regroup([MINUS], Digits(-b), y, []);
      Cancel([MINUS], Digits(-a) + x, Digits(-b) + y);
      DigitsAreUnique(-a, -b, x, y);
    } else {
      DigitsAreUnique(a, b, x, y);
    }
  }

  lemma StartOfDecimal(n: int, x: Text)
    ensures n < 0 ==> (Decimal(n) + x)[0] == MINUS
    ensures n >= 0 ==> IsDigit((Decimal(n) + x)[0])
  {
    if n >= 0 {
      DigitsReadBack(n);
    }
  }

  lemma EscapeUnitIsPrefixFree(a: Code, b: Code, x: Text, y: Text)
    requires EscapeUnit(a) + x == EscapeUnit(b) + y
    ensures a == b && x == y
  {
    var u, w := EscapeUnit(a), EscapeUnit(b);
    assert (u + x)[0] == u[0] && (w + y)[0] == w[0];
    if |u| > 1 && |w| > 1 {
      assert (u + x)[1] == u[1] && (w + y)[1] == w[1];
      if |u| > 2 && |w| > 2 {
        assert (u + x)[4] == u[4] && (w + y)[4] == w[4] && (u + x)[5] == u[5] && (w + y)[5] == w[5];
        assert a == 16 * (a / 16) + a % 16 && b == 16 * (b / 16) + b % 16;
      }
    }
    assert a == b;
    Cancel(u, x, y);
  }

  /** A string from inside its quotation marks to the end. */
  function Remainder(s: Text, x: Text): (t: Text)
    ensures t != [] && (t[0] == QUOTE <==> s == [])
  {
    if s == [] then [QUOTE] + x else EscapeUnit(s[0]) + Remainder(s[1..], x)
  }

  lemma Regroup(a: Text, b: Text, c: Text, x: Text)
    ensures a + b + c + x == a + (b + (c + x))
    ensures a + b + c == a + (b + c)
  {
  }

  lemma {:induction false} EscapeIsRemainder(s: Text, x: Text)
    ensures Escape(s) + ([QUOTE] + x) == Remainder(s, x)
  {
    if s == [] {
      assert Escape(s) == [];
    } else {
      EscapeIsRemainder(s[1..], x);
      Regroup(EscapeUnit(s[0]), Escape(s[1..]), [QUOTE] + x, []);
    }
  }

  lemma QuoteIsRemainder(s: Text, x: Text)
    ensures Quote(s) + x == [QUOTE] + Remainder(s, x)
  {
    Regroup([QUOTE], Escape(s), [QUOTE], x);
    EscapeIsRemainder(s, x);
  }

  lemma {:induction false} RemainderIsUnique(s: Text, t: Text, x: Text, y: Text)
    requires Remainder(s, x) == Remainder(t, y)
    ensures s == t && x == y
  {
    if s == [] {
      Cancel([QUOTE], x, y);
    } else {
      EscapeUnitIsPrefixFree(s[0], t[0], Remainder(s[1..], x), Remainder(t[1..], y));
      RemainderIsUnique(s[1..], t[1..], x, y);
      assert s == [s[0]] + s[1..] && t == [t[0]] + t[1..];
    }
  }

  lemma QuoteIsUnique(s: Text, t: Text, x: Text, y: Text)
    requires Quote(s) + x == Quote(t) + y
    ensures s == t && x == y
  {
    QuoteIsRemainder(s, x);
    QuoteIsRemainder(t, y);
    Cancel([QUOTE], Remainder(s, x), Remainder(t, y));
    RemainderIsUnique(s, t, x, y);
  }

  // ----- sorting

  lemma {:induction false} InsertMembers(p: Pair, sorted: seq<Pair>)
    ensures |Insert(p, sorted)| == |sorted| + 1
    ensures forall q :: q in Insert(p, sorted) <==> q == p || q in sorted
  {
    if sorted != [] && KeyBelow(sorted[0].key, p.key) {
      InsertMembers(p, sorted[1..]);
      assert sorted == [sorted[0]] + sorted[1..];
    }
  }

  lemma {:induction false} SortMembers(pairs: seq<Pair>)
    ensures |SortPairs(pairs)| == |pairs|
    ensures forall q :: q in SortPairs(pairs) <==> q in pairs
  {
    if pairs != [] {
      SortMembers(pairs[1..]);
      InsertMembers(pairs[0], SortPairs(pairs[1..]));
      assert pairs == [pairs[0]] + pairs[1..];
    }
  }

  predicate StrictlyOrdered(pairs: seq<Pair>)
  {
    forall i, j :: 0 <= i < j < |pairs| ==> KeyBelow(pairs[i].key, pairs[j].key)
  }

  predicate GoodKeys(pairs: seq<Pair>)
  {
    && (forall i :: 0 <= i < |pairs| ==> Encodable(pairs[i].key))
    && forall i, j :: 0 <= i < j < |pairs| ==> pairs[i].key != pairs[j].key
  }

  lemma {:induction false} InsertKeepsOrder(p: Pair, sorted: seq<Pair>)
    requires StrictlyOrdered(sorted) && Encodable(p.key)
    requires forall i :: 0 <= i < |sorted| ==> Encodable(sorted[i].key) && sorted[i].key != p.key
    ensures StrictlyOrdered(Insert(p, sorted))
  {
    if sorted != [] {
      var head, rest := sorted[0], sorted[1..];
      if KeyBelow(head.key, p.key) {
        InsertKeepsOrder(p, rest);
        InsertMembers(p, rest);
        var r := Insert(p, rest);
        forall j | 0 <= j < |r| ensures KeyBelow(head.key, r[j].key) {
          assert r[j] in r;
          if r[j] != p {
            var k :| 0 <= k < |rest| && rest[k] == r[j];
            assert rest[k] == sorted[k + 1];
          }
        }
      } else {
        KeysAreComparable(p.key, head.key);
        forall j | 0 <= j < |sorted| ensures KeyBelow(p.key, sorted[j].key) {
          if j > 0 {
            KeyOrderIsTransitive(p.key, head.key, sorted[j].key);
          }
        }
      }
    }
  }

  lemma {:induction false} SortOrders(pairs: seq<Pair>)
    requires GoodKeys(pairs)
    ensures StrictlyOrdered(SortPairs(pairs))
  {
    if pairs != [] {
      var rest := pairs[1..];
      SortOrders(rest);
      SortMembers(rest);
      var sorted := SortPairs(rest);
      forall i | 0 <= i < |sorted| ensures Encodable(sorted[i].key) && sorted[i].key != pairs[0].key {
        assert sorted[i] in sorted;
        var k :| 0 <= k < |rest| && rest[k] == sorted[i];
        assert rest[k] == pairs[k + 1];
      }
      InsertKeepsOrder(pairs[0], sorted);
    }
  }

  lemma HeadIsUnique(a: seq<Pair>, b: seq<Pair>)
    requires StrictlyOrdered(a) && StrictlyOrdered(b) && a != [] && b != []
    requires forall p :: p in a <==> p in b
    ensures a[0] == b[0]
  {
    assert a[0] in a && b[0] in b;
    var i :| 0 <= i < |b| && b[i] == a[0];
    var j :| 0 <= j < |a| && a[j] == b[0];
    if i > 0 && j > 0 {
      KeyOrderIsTransitive(a[0].key, a[j].key, a[0].key);
      KeyOrderIsIrreflexive(a[0].key);
    }
  }

  lemma TailMembers(a: seq<Pair>, p: Pair)
    requires StrictlyOrdered(a) && a != []
    ensures p in a[1..] <==> p in a && p != a[0]
  {
    assert a == [a[0]] + a[1..];
    if p in a[1..] {
      var k :| 0 <= k < |a[1..]| && a[1..][k] == p;
      assert KeyBelow(a[0].key, a[k + 1].key);
      KeyOrderIsIrreflexive(a[0].key);
    }
  }

  /** A strictly ordered list is determined by its members: the original order leaves no trace. */
  lemma {:induction false} OrderedIsUnique(a: seq<Pair>, b: seq<Pair>)
    requires StrictlyOrdered(a) && StrictlyOrdered(b) && forall p :: p in a <==> p in b
    ensures a == b
    decreases |a|
  {
    assert (a != [] ==> a[0] in a) && (b != [] ==> b[0] in b);
    if a != [] {
      HeadIsUnique(a, b);
      forall p ensures p in a[1..] <==> p in b[1..] {
        TailMembers(a, p);
        TailMembers(b, p);
      }
      OrderedIsUnique(a[1..], b[1..]);
      assert a == [a[0]] + a[1..] && b == [b[0]] + b[1..];
    }
  }
}
