/**
 * Measuring container nesting on raw bytes before parsing, and on the parsed value afterwards: what
 * the byte scanner sees in canonical bytes is exactly the nesting of the value.
 */
module Limits {
  import opened Json
  import opened Unicode
  import opened CanonicalText
  import opened Canonical

  const MAX_JSON_DEPTH: nat := 64

  // ----- the scanner

  datatype Scan =
    | Scanning(depth: int, maximum: nat, quoted: bool, escaped: bool)
    | TooDeep(observed: nat)
    | Malformed

  datatype Depth = Measured(maximum: nat) | LimitExceeded(observed: nat) | MalformedInput

  /** One byte; a raised error stays. */
  function Step(s: Scan, c: int): Scan
  {
    if !s.Scanning? then s
    else if s.quoted then
      if s.escaped then s.(escaped := false)
      else if c == 0x5C then s.(escaped := true)
      else if c == 0x22 then s.(quoted := false)
      else s
    else if c == 0x22 then s.(quoted := true)
    else if c == 0x7B || c == 0x5B then
      var deeper := s.depth + 1;
      var maximum := if deeper > s.maximum then deeper else s.maximum;
      if maximum > MAX_JSON_DEPTH then TooDeep(maximum) else s.(depth := deeper, maximum := maximum)
    else if c == 0x7D || c == 0x5D then
      if s.depth - 1 < 0 then Malformed else s.(depth := s.depth - 1)
    else s
  }

  function ScanAll(s: Scan, data: seq<int>): Scan
  {
    if data == [] then s else Step(ScanAll(s, data[..|data| - 1]), data[|data| - 1])
  }

  function Start(): Scan
  {
    Scanning(0, 0, false, false)
  }

  function Finish(s: Scan): Depth
  {
    match s
    case TooDeep(observed) => LimitExceeded(observed)
    case Malformed => MalformedInput
    case Scanning(depth, maximum, quoted, _) => if quoted || depth != 0 then MalformedInput else Measured(maximum)
  }

  lemma {:induction false} ScanConcat(s: Scan, a: seq<int>, b: seq<int>)
    ensures ScanAll(s, a + b) == ScanAll(ScanAll(s, a), b)
  {
    if b == [] {
      assert a + b == a;
    } else {
      var n := |b| - 1;
      assert (a + b)[..|a| + n] == a + b[..n];
      ScanConcat(s, a, b[..n]);
    }
  }

  lemma ScanOne(s: Scan, c: int)
    ensures ScanAll(s, [c]) == Step(s, c)
  {
    assert [c][..0] == [];
  }

  lemma {:induction false} ErrorsStay(s: Scan, data: seq<int>)
    requires !s.Scanning?
    ensures ScanAll(s, data) == s
  {
    if data != [] {
      ErrorsStay(s, data[..|data| - 1]);
    }
  }

  /** _lexical_depth: stops at the first error. */
  method LexicalDepth(data: seq<Byte>) returns (result: Depth)
    ensures result == Finish(ScanAll(Start(), data))
  {
    var depth, maximum: nat, quoted, escaped := 0, 0, false, false;
    for i := 0 to |data|
      invariant ScanAll(Start(), data[..i]) == Scanning(depth, maximum, quoted, escaped)
    {
      var byte := data[i];
      assert data[..i + 1][..i] == data[..i];
      if quoted {
        if escaped {
          escaped := false;
        } else if byte == 0x5C {
          escaped := true;
        } else if byte == 0x22 {
          quoted := false;
        }
      } else if byte == 0x22 {
        quoted := true;
      } else if byte == 0x7B || byte == 0x5B {
        depth := depth + 1;
        maximum := if depth > maximum then depth else maximum;
        if maximum > MAX_JSON_DEPTH {
          StopsHere(data, i, TooDeep(maximum));
          return LimitExceeded(maximum);
        }
      } else if byte == 0x7D || byte == 0x5D {
        depth := depth - 1;
        if depth < 0 {
          StopsHere(data, i, Malformed);
          return MalformedInput;
        }
      }
    }
    assert data[..|data|] == data;
    if quoted || depth != 0 {
      return MalformedInput;
    }
    result := Measured(maximum);
  }

  lemma StopsHere(data: seq<Byte>, i: nat, error: Scan)
    requires i < |data| && !error.Scanning? && ScanAll(Start(), data[..i + 1]) == error
    ensures ScanAll(Start(), data) == error
  {
    assert data == data[..i + 1] + data[i + 1..];
    ScanConcat(Start(), data[..i + 1], data[i + 1..]);
    ErrorsStay(error, data[i + 1..]);
  }

  // ----- bytes and characters

  /** The bytes of a character affect the scanner as the character itself does. */
  lemma UnitScansAlike(s: Scan, c: Code)
    ensures ScanAll(s, Utf8Unit(c)) == Step(s, c)
  {
    var u := Utf8Unit(c);
    ScanOne(s, u[0]);
    if |u| == 2 {
      assert u == [u[0]] + [u[1]];
      ScanConcat(s, [u[0]], [u[1]]);
      ScanOne(Step(s, u[0]), u[1]);
    } else if |u| == 3 {
      assert u == [u[0]] + [u[1]] + [u[2]];
      ScanConcat(s, [u[0]] + [u[1]], [u[2]]);
      ScanConcat(s, [u[0]], [u[1]]);
      ScanOne(Step(s, u[0]), u[1]);
      ScanOne(Step(Step(s, u[0]), u[1]), u[2]);
    } else if |u| == 4 {
      assert u == [u[0]] + [u[1]] + [u[2]] + [u[3]];
      ScanConcat(s, [u[0]] + [u[1]] + [u[2]], [u[3]]);
      ScanConcat(s, [u[0]] + [u[1]], [u[2]]);
      ScanConcat(s, [u[0]], [u[1]]);
      ScanOne(Step(s, u[0]), u[1]);
      ScanOne(Step(Step(s, u[0]), u[1]), u[2]);
      ScanOne(Step(Step(Step(s, u[0]), u[1]), u[2]), u[3]);
    }
  }

  lemma {:induction false} BytesScanAlike(s: Scan, t: Text)
    ensures ScanAll(s, Utf8(t)) == ScanAll(s, t)
    decreases t
  {
    if t != [] {
      ScanConcat(s, Utf8Unit(t[0]), Utf8(t[1..]));
      UnitScansAlike(s, t[0]);
      BytesScanAlike(Step(s, t[0]), t[1..]);
      assert t == [t[0]] + t[1..];
      ScanConcat(s, [t[0]], t[1..]);
      ScanOne(s, t[0]);
    }
  }

  // ----- nesting of a value

  function Max(a: nat, b: nat): nat
  {
    if a > b then a else b
  }

  /** How many containers enclose the innermost point. */
  function Nesting(v: Value): nat
  {
    match v
    case Arr(items) => 1 + NestingOfItems(items)
    case Obj(members) => 1 + NestingOfMembers(members)
    case _ => 0
  }

  function NestingOfItems(items: seq<Value>): nat
  {
    if items == [] then 0 else Max(Nesting(items[0]), NestingOfItems(items[1..]))
  }

  function NestingOfMembers(members: seq<Member>): nat
  {
    if members == [] then 0 else Max(Nesting(members[0].value), NestingOfMembers(members[1..]))
  }

  /** The effect of a text that opens and closes n levels below the current depth. */
  function Dive(s: Scan, n: nat): Scan
  {
    if !s.Scanning? then s
    else if s.depth + n > MAX_JSON_DEPTH then TooDeep(MAX_JSON_DEPTH + 1)
    else if s.depth + n > s.maximum then s.(maximum := s.depth + n)
    else s
  }

  /** Outside strings, with a consistent record of the depth. */
  predicate Plain(s: Scan)
  {
    s.Scanning? ==> !s.quoted && !s.escaped && 0 <= s.depth <= s.maximum <= MAX_JSON_DEPTH
  }

  lemma DiveTwice(s: Scan, m: nat, n: nat)
    requires Plain(s)
    ensures Plain(Dive(s, m)) && Dive(Dive(s, m), n) == Dive(s, Max(m, n))
  {
  }

  // ----- scanning the pieces of a canonical text

  predicate Neutral(c: int)
  {
    c != 0x22 && c != 0x5C && c != 0x5B && c != 0x5D && c != 0x7B && c != 0x7D
  }

  lemma {:induction false} NeutralText(s: Scan, t: Text)
    requires (forall i :: 0 <= i < |t| ==> Neutral(t[i])) && (s.Scanning? ==> !s.escaped)
    ensures ScanAll(s, t) == s
  {
    if t != [] {
      NeutralText(s, t[..|t| - 1]);
    }
  }

  lemma EscapeUnitScans(s: Scan, c: Code)
    requires s.Scanning? ==> s.quoted && !s.escaped
    ensures ScanAll(s, EscapeUnit(c)) == s
  {
    var u := EscapeUnit(c);
    if |u| == 1 {
      ScanOne(s, u[0]);
    } else {
      assert u == [u[0]] + [u[1]] + u[2..];
      ScanConcat(s, [u[0]] + [u[1]], u[2..]);
      ScanConcat(s, [u[0]], [u[1]]);
      ScanOne(s, u[0]);
      ScanOne(Step(s, u[0]), u[1]);
      NeutralText(s, u[2..]);
    }
  }

  lemma {:induction false} EscapeScans(s: Scan, t: Text)
    requires s.Scanning? ==> s.quoted && !s.escaped
    ensures ScanAll(s, Escape(t)) == s
  {
    if t != [] {
      ScanConcat(s, EscapeUnit(t[0]), Escape(t[1..]));
      EscapeUnitScans(s, t[0]);
      EscapeScans(s, t[1..]);
    }
  }

  /** A quoted string leaves the scanner as it was, whatever it contains. */
  lemma QuoteScans(s: Scan, t: Text)
    requires Plain(s)
    ensures ScanAll(s, Quote(t)) == s
  {
    ScanConcat(s, [QUOTE] + Escape(t), [QUOTE]);
    ScanConcat(s, [QUOTE], Escape(t));
    ScanOne(s, QUOTE);
    EscapeScans(Step(s, QUOTE), t);
    ScanOne(Step(s, QUOTE), QUOTE);
  }

  lemma DecimalScans(s: Scan, n: int)
    requires Plain(s)
    ensures ScanAll(s, Decimal(n)) == s
  {
    DigitsReadBack(if n < 0 then -n else n);
    NeutralText(s, Decimal(n));
  }

  /** A container: one level down, the content, one level up. */
  lemma SurroundScans(s: Scan, open: Code, content: Text, close: Code, n: nat)
    requires Plain(s) && (open == OPEN_ARRAY || open == OPEN_OBJECT) && (close == CLOSE_ARRAY || close == CLOSE_OBJECT)
    requires forall t :: Plain(t) ==> ScanAll(t, content) == Dive(t, n)
    ensures ScanAll(s, [open] + content + [close]) == Dive(s, 1 + n)
  {
    ScanConcat(s, [open] + content, [close]);
    ScanConcat(s, [open], content);
    ScanOne(s, open);
    var inside := Step(s, open);
    assert Plain(inside);
    ScanOne(Dive(inside, n), close);
  }

  /** A piece, and what follows it after a comma if it is not the last. */
  lemma ListScans(s: Scan, head: Text, n: nat, last: bool, tail: Text, m: nat)
    requires Plain(s) && ScanAll(s, head) == Dive(s, n)
    requires if last then m == 0 else ScanAll(Dive(s, n), tail) == Dive(Dive(s, n), m)
    ensures ScanAll(s, head + (if last then [] else [COMMA] + tail)) == Dive(s, Max(n, m))
  {
    DiveTwice(s, n, m);
    if last {
      assert head + [] == head;
    } else {
      ScanConcat(s, head, [COMMA] + tail);
      ScanConcat(Dive(s, n), [COMMA], tail);
      ScanOne(Dive(s, n), COMMA);
    }
  }

  lemma {:induction false} ItemsScan(s: Scan, items: seq<Value>)
    requires Plain(s) && forall i :: 0 <= i < |items| ==> WellFormed(items[i])
    ensures ScanAll(s, EncodeItems(items)) == Dive(s, NestingOfItems(items))
    decreases items, 0
  {
    if items != [] {
      var n := Nesting(items[0]);
      EncodingScans(s, items[0]);
      if |items| > 1 {
        DiveTwice(s, n, 0);
        ItemsScan(Dive(s, n), items[1..]);
      }
      ListScans(s, Encode(items[0]), n, |items| == 1, EncodeItems(items[1..]), NestingOfItems(items[1..]));
    }
  }

  /** The pairs are written member by member. */
  predicate Written(members: seq<Member>, pairs: seq<Pair>)
  {
    |members| == |pairs| && forall k :: 0 <= k < |pairs| ==> pairs[k] == Pair(members[k].key, Encode(members[k].value))
  }

  /** The name of a member leaves the scanner as it was. */
  lemma NameScans(s: Scan, key: Text, text: Text)
    requires Plain(s)
    ensures ScanAll(s, Quote(key) + [COLON] + text) == ScanAll(s, text)
  {
    ScanConcat(s, Quote(key) + [COLON], text);
    ScanConcat(s, Quote(key), [COLON]);
    QuoteScans(s, key);
    ScanOne(s, COLON);
  }

  lemma {:induction false} PairsScan(s: Scan, pairs: seq<Pair>, members: seq<Member>, all: seq<Member>)
    requires Plain(s) && Written(members, pairs)
    requires forall m :: m in members ==> m in all && WellFormed(m.value)
    ensures ScanAll(s, JoinPairs(pairs)) == Dive(s, NestingOfMembers(members))
    decreases all, 0, |pairs|
  {
    if pairs != [] {
      var key, text, n := pairs[0].key, pairs[0].text, Nesting(members[0].value);
      assert members[0] in members;
      EncodingScans(s, members[0].value);
      NameScans(s, key, text);
      if |pairs| > 1 {
        DiveTwice(s, n, 0);
        PairsScan(Dive(s, n), pairs[1..], members[1..], all);
      }
      ListScans(s, Quote(key) + [COLON] + text, n, |pairs| == 1, JoinPairs(pairs[1..]), NestingOfMembers(members[1..]));
    }
  }

  /** The members in the order in which their pairs are written. */
  lemma {:induction false} Origins(members: seq<Member>, pairs: seq<Pair>) returns (origins: seq<Member>)
    requires forall p :: p in pairs ==> From(members, p)
    ensures Written(origins, pairs) && forall m :: m in origins ==> m in members
  {
    if pairs == [] {
      origins := [];
    } else {
      assert pairs[0] in pairs;
      var i :| 0 <= i < |members| && pairs[0] == Pair(members[i].key, Encode(members[i].value));
      var rest := Origins(members, pairs[1..]);
      origins := [members[i]] + rest;
    }
  }

  lemma {:induction false} NoMemberIsDeeper(members: seq<Member>, i: nat)
    requires i < |members|
    ensures Nesting(members[i].value) <= NestingOfMembers(members)
  {
    if i > 0 {
      NoMemberIsDeeper(members[1..], i - 1);
    }
  }

  lemma {:induction false} DeepestMember(members: seq<Member>) returns (i: nat)
    requires members != []
    ensures i < |members| && Nesting(members[i].value) == NestingOfMembers(members)
  {
    i := 0;
    if Nesting(members[0].value) < NestingOfMembers(members[1..]) {
      var j := DeepestMember(members[1..]);
      i := j + 1;
    }
  }

  lemma MoreMembersNestDeeper(a: seq<Member>, b: seq<Member>)
    requires forall m :: m in a ==> m in b
    ensures NestingOfMembers(a) <= NestingOfMembers(b)
  {
    if a != [] {
      var i := DeepestMember(a);
      assert a[i] in b;
      var j: nat :| j < |b| && b[j] == a[i];
      NoMemberIsDeeper(b, j);
    }
  }

  lemma OriginsAreAll(members: seq<Member>, origins: seq<Member>)
    requires DistinctKeys(members) && Written(origins, PairsOf(members)) && forall m :: m in origins ==> m in members
    ensures forall m :: m in members ==> m in origins
  {
    PairsComeFromMembers(members);
    forall m | m in members ensures m in origins {
      var i :| 0 <= i < |members| && members[i] == m;
      var k :| 0 <= k < |PairsOf(members)| && PairsOf(members)[k] == Pair(m.key, Encode(m.value));
      assert origins[k] in members;
      var j :| 0 <= j < |members| && members[j] == origins[k];
      assert i == j;
    }
  }

  lemma ObjectScans(s: Scan, members: seq<Member>)
    requires Plain(s) && DistinctKeys(members) && forall i :: 0 <= i < |members| ==> WellFormed(members[i].value)
    ensures ScanAll(s, JoinPairs(PairsOf(members))) == Dive(s, NestingOfMembers(members))
    decreases members, 1
  {
    PairsComeFromMembers(members);
    var origins := Origins(members, PairsOf(members));
    OriginsAreAll(members, origins);
    MoreMembersNestDeeper(origins, members);
    MoreMembersNestDeeper(members, origins);
    PairsScan(s, PairsOf(members), origins, members);
  }

  /** Scanning a canonical text dives exactly as deep as the value is nested. */
  lemma {:induction false} EncodingScans(s: Scan, v: Value)
    requires Plain(s) && WellFormed(v)
    ensures ScanAll(s, Encode(v)) == Dive(s, Nesting(v))
    decreases v, 2
  {
    match v
    case Null => NeutralText(s, Encode(v));
    case Bool(_) => NeutralText(s, Encode(v));
    case Int(n) => DecimalScans(s, n);
    case Float =>
    case Str(t) => QuoteScans(s, t);
    case Arr(items) =>
      forall t | Plain(t) ensures ScanAll(t, EncodeItems(items)) == Dive(t, NestingOfItems(items)) {
        ItemsScan(t, items);
      }
      SurroundScans(s, OPEN_ARRAY, EncodeItems(items), CLOSE_ARRAY, NestingOfItems(items));
    case Obj(members) =>
      forall t | Plain(t) ensures ScanAll(t, JoinPairs(PairsOf(members))) == Dive(t, NestingOfMembers(members)) {
        ObjectScans(t, members);
      }
      SurroundScans(s, OPEN_OBJECT, JoinPairs(PairsOf(members)), CLOSE_OBJECT, NestingOfMembers(members));
  }

  /** On canonical bytes the scanner ends balanced and outside strings with exactly the nesting, or reports the limit. */
  lemma LexicalDepthIsNesting(v: Value)
    requires WellFormed(v) && CanonicalBytes(v).Ok?
    ensures Finish(ScanAll(Start(), CanonicalBytes(v).bytes))
         == if Nesting(v) <= MAX_JSON_DEPTH then Measured(Nesting(v)) else LimitExceeded(MAX_JSON_DEPTH + 1)
  {
    BytesScanAlike(Start(), Encode(v));
    EncodingScans(Start(), v);
  }

  // ----- the parsed value

  datatype Shape = Shape(depth: nat, objectMembers: nat, arrayItems: nat)

  function Join(a: Shape, b: Shape): Shape
  {
    Shape(Max(a.depth, b.depth), Max(a.objectMembers, b.objectMembers), Max(a.arrayItems, b.arrayItems))
  }

  /** _shape: depth counts values, so a scalar inside a container counts as one more level. */
  function ShapeOf(v: Value, depth: nat): Shape
  {
    match v
    case Arr(items) => Join(Shape(depth, 0, |items|), ShapeOfItems(items, depth + 1))
    case Obj(members) => Join(Shape(depth, |members|, 0), ShapeOfMembers(members, depth + 1))
    case _ => Shape(depth, 0, 0)
  }

  function ShapeOfItems(items: seq<Value>, depth: nat): Shape
  {
    if items == [] then Shape(0, 0, 0) else Join(ShapeOf(items[0], depth), ShapeOfItems(items[1..], depth))
  }

  function ShapeOfMembers(members: seq<Member>, depth: nat): Shape
  {
    if members == [] then Shape(0, 0, 0) else Join(ShapeOf(members[0].value, depth), ShapeOfMembers(members[1..], depth))
  }

  /** Measured from any depth, the value's depth is its nesting, or one more. */
  lemma {:induction false} ShapeDepth(v: Value, depth: nat)
    requires depth > 0
    ensures depth - 1 + Nesting(v) <= ShapeOf(v, depth).depth <= depth + Nesting(v)
    decreases v, 1
  {
    match v
    case Arr(items) => ItemsDepth(items, depth + 1);
    case Obj(members) => MembersDepth(members, depth + 1);
    case _ =>
  }

  lemma {:induction false} ItemsDepth(items: seq<Value>, depth: nat)
    requires depth > 0
    ensures items != [] ==> depth - 1 + NestingOfItems(items) <= ShapeOfItems(items, depth).depth <= depth + NestingOfItems(items)
    decreases items, 0
  {
    if items != [] {
      ShapeDepth(items[0], depth);
      ItemsDepth(items[1..], depth);
    }
  }

  lemma {:induction false} MembersDepth(members: seq<Member>, depth: nat)
    requires depth > 0
    ensures members != [] ==>
      depth - 1 + NestingOfMembers(members) <= ShapeOfMembers(members, depth).depth <= depth + NestingOfMembers(members)
    decreases members, 0
  {
    if members != [] {
      ShapeDepth(members[0].value, depth);
      MembersDepth(members[1..], depth);
    }
  }

  /** Every object has at most so many members and every array at most so many items, at any depth. */
  predicate Within(v: Value, objectMembers: nat, arrayItems: nat)
  {
    match v
    case Arr(items) =>
      |items| <= arrayItems && forall i :: 0 <= i < |items| ==> Within(items[i], objectMembers, arrayItems)
    case Obj(members) =>
      |members| <= objectMembers && forall i :: 0 <= i < |members| ==> Within(members[i].value, objectMembers, arrayItems)
    case _ => true
  }

  predicate Fits(s: Shape, objectMembers: nat, arrayItems: nat)
  {
    s.objectMembers <= objectMembers && s.arrayItems <= arrayItems
  }

  /** The measured sizes are the least bounds. */
  lemma {:induction false} ShapeSizes(v: Value, depth: nat, n: nat, k: nat)
    ensures Fits(ShapeOf(v, depth), n, k) <==> Within(v, n, k)
    decreases v, 1
  {
    match v
    case Arr(items) => ItemsSizes(items, depth + 1, n, k);
    case Obj(members) => MembersSizes(members, depth + 1, n, k);
    case _ =>
  }

  lemma {:induction false} ItemsSizes(items: seq<Value>, depth: nat, n: nat, k: nat)
    ensures Fits(ShapeOfItems(items, depth), n, k) <==> forall i :: 0 <= i < |items| ==> Within(items[i], n, k)
    decreases items, 0
  {
    if items != [] {
      ShapeSizes(items[0], depth, n, k);
      ItemsSizes(items[1..], depth, n, k);
      assert forall i :: 0 < i < |items| ==> items[i] == items[1..][i - 1];
    }
  }

  lemma {:induction false} MembersSizes(members: seq<Member>, depth: nat, n: nat, k: nat)
    ensures Fits(ShapeOfMembers(members, depth), n, k)
       <==> forall i :: 0 <= i < |members| ==> Within(members[i].value, n, k)
    decreases members, 0
  {
    if members != [] {
      ShapeSizes(members[0].value, depth, n, k);
      MembersSizes(members[1..], depth, n, k);
      assert forall i :: 0 < i < |members| ==> members[i] == members[1..][i - 1];
    }
  }

  // ----- the two depth limits

  /** A scalar sits under exactly k containers. */
  predicate DeepScalar(v: Value, k: nat)
  {
    match v
    case Arr(items) => k > 0 && exists i :: 0 <= i < |items| && DeepScalar(items[i], k - 1)
    case Obj(members) => k > 0 && exists i :: 0 <= i < |members| && DeepScalar(members[i].value, k - 1)
    case _ => k == 0
  }

  /** No deeper than n, a value measures n levels more than its start exactly when a scalar is that deep. */
  lemma {:induction false} ShapeReaches(v: Value, depth: nat, n: nat)
    requires depth > 0 && n >= Nesting(v)
    ensures ShapeOf(v, depth).depth >= depth + n <==> DeepScalar(v, n)
    decreases v, 1
  {
    match v
    case Arr(items) => ItemsReach(items, depth + 1, n - 1);
    case Obj(members) => MembersReach(members, depth + 1, n - 1);
    case _ =>
  }

  lemma {:induction false} ItemsReach(items: seq<Value>, depth: nat, n: nat)
    requires depth > 0 && n >= NestingOfItems(items)
    ensures ShapeOfItems(items, depth).depth >= depth + n <==> exists i :: 0 <= i < |items| && DeepScalar(items[i], n)
    decreases items, 0
  {
    if items != [] {
      var tail := items[1..];
      ShapeReaches(items[0], depth, n);
      ItemsReach(tail, depth, n);
      assert forall i :: 0 < i < |items| ==> items[i] == tail[i - 1];
      assert forall i :: 0 <= i < |tail| ==> tail[i] == items[i + 1];
    }
  }

  lemma {:induction false} MembersReach(members: seq<Member>, depth: nat, n: nat)
    requires depth > 0 && n >= NestingOfMembers(members)
    ensures ShapeOfMembers(members, depth).depth >= depth + n
       <==> exists i :: 0 <= i < |members| && DeepScalar(members[i].value, n)
    decreases members, 0
  {
    if members != [] {
      var tail := members[1..];
      ShapeReaches(members[0].value, depth, n);
      MembersReach(tail, depth, n);
      assert forall i :: 0 < i < |members| ==> members[i] == tail[i - 1];
      assert forall i :: 0 <= i < |tail| ==> tail[i] == members[i + 1];
    }
  }

  /** The measured depth is one more than the nesting iff a scalar sits in a deepest container. */
  lemma ShapeDepthIsExact(v: Value, depth: nat)
    requires depth > 0
    ensures ShapeOf(v, depth).depth == if DeepScalar(v, Nesting(v)) then depth + Nesting(v) else depth - 1 + Nesting(v)
  {
    ShapeDepth(v, depth);
    ShapeReaches(v, depth, Nesting(v));
  }

  /**
   * The shape check refuses what the scanner lets through exactly for the values nested to the limit
   * with a scalar in a deepest container; it lets through nothing that the scanner refuses.
   */
  lemma DepthLimitsDifferIff(v: Value)
    requires WellFormed(v) && CanonicalBytes(v).Ok?
    ensures Finish(ScanAll(Start(), CanonicalBytes(v).bytes)).Measured? && ShapeOf(v, 1).depth > MAX_JSON_DEPTH
       <==> Nesting(v) == MAX_JSON_DEPTH && DeepScalar(v, MAX_JSON_DEPTH)
    ensures !Finish(ScanAll(Start(), CanonicalBytes(v).bytes)).Measured? ==> ShapeOf(v, 1).depth > MAX_JSON_DEPTH
  {
    LexicalDepthIsNesting(v);
    ShapeDepthIsExact(v, 1);
  }

  function Nested(n: nat): Value
  {
    if n == 0 then Null else Arr([Nested(n - 1)])
  }

  lemma OneItem(v: Value, depth: nat)
    ensures ShapeOfItems([v], depth) == ShapeOf(v, depth) && NestingOfItems([v]) == Nesting(v)
  {
    assert [v][1..] == [];
    assert ShapeOfItems([], depth) == Shape(0, 0, 0);
  }

  lemma {:induction false} NestedShape(n: nat, depth: nat)
    ensures Nesting(Nested(n)) == n && ShapeOf(Nested(n), depth).depth == depth + n
  {
    if n > 0 {
      NestedShape(n - 1, depth + 1);
      OneItem(Nested(n - 1), depth + 1);
    }
  }

  lemma {:induction false} NestedIsGood(n: nat)
    ensures WellFormed(Nested(n)) && InProfile(Nested(n)) && Clean(Nested(n))
  {
    if n > 0 {
      NestedIsGood(n - 1);
    }
  }

  /** At the limit they do differ: 64 arrays around a scalar pass the scanner and fail the shape check. */
  lemma DepthLimitsDifferAtTheLimit()
    ensures CanonicalBytes(Nested(MAX_JSON_DEPTH)).Ok?
    ensures Finish(ScanAll(Start(), CanonicalBytes(Nested(MAX_JSON_DEPTH)).bytes)) == Measured(MAX_JSON_DEPTH)
    ensures ShapeOf(Nested(MAX_JSON_DEPTH), 1).depth > MAX_JSON_DEPTH
  {
    var v := Nested(MAX_JSON_DEPTH);
    NestedShape(MAX_JSON_DEPTH, 1);
    NestedIsGood(MAX_JSON_DEPTH);
    OutcomeIsExact(v);
    LexicalDepthIsNesting(v);
  }
}
