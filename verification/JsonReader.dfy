/**
 * A reader of JSON texts by the rules of RFC 8259 and RFC 3629, without white space and fractions, which canonical
 * texts do not contain. Canonical bytes read back as the value itself, its members in canonical order.
 */
module JsonReader {
  import opened Json
  import opened Unicode
  import opened CanonicalText
  import opened Canonical

  /** What was read and what follows it. */
  datatype Read<T, R> = NotReadable | Got(value: T, rest: R)

  // ----- bytes: section 3 of RFC 3629

  predicate IsContinuation(b: Byte)
  {
    0x80 <= b < 0xC0
  }

  function LowBits(b: int): int
  {
    b - 0x80
  }

  /** The first character of the bytes: shortest form, no surrogates, nothing beyond the last code point. */
  function ReadCode(bytes: seq<Byte>): (r: Read<Code, seq<Byte>>)
    requires bytes != []
    ensures r.Got? ==> |r.rest| < |bytes|
  {
    var first: int := bytes[0];
    if first < 0x80 then Got(first, bytes[1..])
    else if 0xC0 <= first < 0xE0 && |bytes| >= 2 && IsContinuation(bytes[1]) then
      var c := (first - 0xC0) * 0x40 + LowBits(bytes[1]);
      if c < 0x80 then NotReadable else Got(c, bytes[2..])
    else if 0xE0 <= first < 0xF0 && |bytes| >= 3 && IsContinuation(bytes[1]) && IsContinuation(bytes[2]) then
      var c := (first - 0xE0) * 0x1000 + LowBits(bytes[1]) * 0x40 + LowBits(bytes[2]);
      if c < 0x800 || 0xD800 <= c < 0xE000 then NotReadable else Got(c, bytes[3..])
    else if 0xF0 <= first < 0xF8 && |bytes| >= 4
            && IsContinuation(bytes[1]) && IsContinuation(bytes[2]) && IsContinuation(bytes[3]) then
      var c := (first - 0xF0) * 0x40000 + LowBits(bytes[1]) * 0x1000 + LowBits(bytes[2]) * 0x40 + LowBits(bytes[3]);
      if c < 0x10000 || c >= 0x110000 then NotReadable else Got(c, bytes[4..])
    else NotReadable
  }

  function ReadText(bytes: seq<Byte>): Read<Text, ()>
    decreases |bytes|
  {
    if bytes == [] then Got([], ())
    else
      var c := ReadCode(bytes);
      if c.NotReadable? then NotReadable
      else
        var t := ReadText(c.rest);
        if t.NotReadable? then NotReadable else Got([c.value] + t.value, ())
  }

  lemma CodeReadsBack(c: Code, x: seq<Byte>)
    requires !IsSurrogate(c)
    ensures ReadCode(Utf8Unit(c) + x) == Got(c, x)
  {
    var u := Utf8Unit(c);
    var b := u + x;
    assert b[|u|..] == x;
    assert forall i :: 0 <= i < |u| ==> b[i] == u[i];
    ReadsBack(c);
  }

  /** What UTF-8 carries is read back. */
  lemma {:induction false} TextReadsBack(t: Text)
    requires Encodable(t)
    ensures ReadText(Utf8(t)) == Got(t, ())
  {
    if t != [] {
      CodeReadsBack(t[0], Utf8(t[1..]));
      TextReadsBack(t[1..]);
      assert t == [t[0]] + t[1..];
    }
  }

  // ----- strings: section 7 of RFC 8259

  /** What a two-character escape stands for. */
  function Unescaped(c: Code): Read<Code, ()>
  {
    if c == 0x22 || c == 0x5C || c == 0x2F then Got(c, ())
    else if c == 0x62 then Got(0x08, ())
    else if c == 0x66 then Got(0x0C, ())
    else if c == 0x6E then Got(0x0A, ())
    else if c == 0x72 then Got(0x0D, ())
    else if c == 0x74 then Got(0x09, ())
    else NotReadable
  }

  function HexValue(c: Code): Read<int, ()>
    ensures HexValue(c).Got? ==> 0 <= HexValue(c).value < 16
  {
    if 0x30 <= c <= 0x39 then Got(c - 0x30, ())
    else if 0x41 <= c <= 0x46 then Got(c - 0x41 + 10, ())
    else if 0x61 <= c <= 0x66 then Got(c - 0x61 + 10, ())
    else NotReadable
  }

  /** Four hexadecimal digits. */
  function ReadHex(t: Text): (r: Read<Code, Text>)
    ensures r.Got? ==> |r.rest| < |t|
  {
    if |t| < 4 then NotReadable
    else
      var a, b, c, d := HexValue(t[0]), HexValue(t[1]), HexValue(t[2]), HexValue(t[3]);
      if a.Got? && b.Got? && c.Got? && d.Got?
      then Got(0x1000 * a.value + 0x100 * b.value + 0x10 * c.value + d.value, t[4..]) else NotReadable
  }

  /** The first character of a string that is not at its end. */
  function ReadCharacter(t: Text): (r: Read<Code, Text>)
    requires t != []
    ensures r.Got? ==> |r.rest| < |t|
  {
    if t[0] != 0x5C then (if t[0] < 0x20 then NotReadable else Got(t[0], t[1..]))
    else if |t| < 2 then NotReadable
    else if t[1] == 0x75 then ReadHex(t[2..])
    else if Unescaped(t[1]).Got? then Got(Unescaped(t[1]).value, t[2..])
    else NotReadable
  }

  /** A string after its opening quotation mark. */
  function ReadCharacters(t: Text): (r: Read<Text, Text>)
    ensures r.Got? ==> |r.rest| < |t|
    decreases |t|
  {
    if t == [] then NotReadable
    else if t[0] == 0x22 then Got([], t[1..])
    else
      var c := ReadCharacter(t);
      if c.NotReadable? then NotReadable
      else
        var more := ReadCharacters(c.rest);
        if more.NotReadable? then NotReadable else Got([c.value] + more.value, more.rest)
  }

  function ReadString(t: Text): (r: Read<Text, Text>)
    ensures r.Got? ==> |r.rest| < |t|
  {
    if t == [] || t[0] != 0x22 then NotReadable else ReadCharacters(t[1..])
  }

  lemma CharacterReadsBack(c: Code, x: Text)
    ensures ReadCharacter(EscapeUnit(c) + x) == Got(c, x)
    ensures (EscapeUnit(c) + x)[0] != 0x22
  {
    var u := EscapeUnit(c);
    var t := u + x;
    assert t[|u|..] == x;
    assert forall i :: 0 <= i < |u| ==> t[i] == u[i];
    if |u| == 6 {
      assert t[2..][4..] == x;
      assert c == 16 * (c / 16) + c % 16;
    }
  }

  predicate IsCapital(c: Code)
  {
    0x41 <= c <= 0x5A
  }

  /** Of all spellings of a character in a string the escape is the shortest; of equally short ones the lower-case one. */
  lemma EscapeIsShortest(c: Code, u: Text)
    requires u != [] && u[0] != 0x22 && ReadCharacter(u) == Got(c, [])
    ensures |EscapeUnit(c)| <= |u|
    ensures |EscapeUnit(c)| == |u| && (forall i :: 1 < i < |u| ==> !IsCapital(u[i])) ==> u == EscapeUnit(c)
  {
    if u[0] == 0x5C && u[1] == 0x75 {
      assert u[2..][..4] == u[2..6];
      if |EscapeUnit(c)| == 6 {
        HexOfSmall(u, c);
      }
    }
  }

  lemma HexOfSmall(u: Text, c: Code)
    requires |u| == 6 && u[0] == 0x5C && u[1] == 0x75 && ReadHex(u[2..]) == Got(c, []) && c < 0x20
    ensures (forall i :: 1 < i < |u| ==> !IsCapital(u[i])) ==> u == [0x5C, 0x75, 0x30, 0x30, Hex(c / 16), Hex(c % 16)]
  {
    var v, w := HexValue(u[4]).value, HexValue(u[5]).value;
    assert HexValue(u[2]).value == 0 && HexValue(u[3]).value == 0 && c == 0x10 * v + w;
    assert v == c / 16 && w == c % 16;
  }

  lemma {:induction false} CharactersReadBack(s: Text, x: Text)
    ensures ReadCharacters(Remainder(s, x)) == Got(s, x)
  {
    if s == [] {
      assert ([QUOTE] + x)[1..] == x;
    } else {
      CharacterReadsBack(s[0], Remainder(s[1..], x));
      CharactersReadBack(s[1..], x);
      assert s == [s[0]] + s[1..];
    }
  }

  /** A quoted string is read back exactly, and nothing of what follows is taken. */
  lemma StringReadsBack(s: Text, x: Text)
    ensures ReadString(Quote(s) + x) == Got(s, x)
  {
    QuoteIsRemainder(s, x);
    assert ([QUOTE] + Remainder(s, x))[1..] == Remainder(s, x);
    CharactersReadBack(s, x);
  }

  // ----- integers: section 6 of RFC 8259

  /** The run of digits at the start, without superfluous zeros. */
  function ReadDigits(t: Text): (r: Read<int, Text>)
    ensures r.Got? ==> |r.rest| < |t|
  {
    var n := DigitRun(t);
    DigitRunFits(t);
    if n == 0 || (n > 1 && t[0] == 0x30) then NotReadable else Got(NumberOf(t[..n]), t[n..])
  }

  lemma DigitRunFits(t: Text)
    ensures DigitRun(t) <= |t|
    ensures forall i :: 0 <= i < DigitRun(t) ==> IsDigit(t[i])
  {
  }

  function ReadInteger(t: Text): (r: Read<int, Text>)
    ensures r.Got? ==> |r.rest| < |t|
  {
    if t != [] && t[0] == 0x2D then
      var magnitude := ReadDigits(t[1..]);
      if magnitude.Got? then Got(-magnitude.value, magnitude.rest) else NotReadable
    else
      var magnitude := ReadDigits(t);
      if magnitude.Got? then Got(magnitude.value, magnitude.rest) else NotReadable
  }

  lemma {:induction false} DigitsHaveNoLeadingZero(n: nat)
    ensures n > 0 ==> Digits(n)[0] != 0x30
    ensures n == 0 ==> Digits(n) == [0x30]
  {
    if n >= 10 {
      DigitsHaveNoLeadingZero(n / 10);
    }
  }

  lemma DigitsRead(n: nat, x: Text)
    requires Delimited(x)
    ensures ReadDigits(Digits(n) + x) == Got(n, x)
  {
    var d := Digits(n);
    DigitsReadBack(n);
    DigitsHaveNoLeadingZero(n);
    RunOfDigits(d, x);
    assert (d + x)[..|d|] == d && (d + x)[|d|..] == x && (d + x)[0] == d[0];
  }

  lemma IntegerReadsBack(n: int, x: Text)
    requires Delimited(x)
    ensures ReadInteger(Decimal(n) + x) == Got(n, x)
  {
    StartOfDecimal(n, x);
    if n < 0 {
      Regroup([MINUS], Digits(-n), x, []);
      assert ([MINUS] + (Digits(-n) + x))[1..] == Digits(-n) + x;
      DigitsRead(-n, x);
    } else {
      DigitsRead(n, x);
    }
  }

  // ----- values: sections 2 to 5 of RFC 8259

  function ReadValue(t: Text): (r: Read<Value, Text>)
    ensures r.Got? ==> |r.rest| < |t|
    decreases |t|, 2
  {
    if t == [] then NotReadable
    else if t[0] == 0x22 then
      var s := ReadString(t);
      if s.Got? then Got(Str(s.value), s.rest) else NotReadable
    else if t[0] == 0x5B then
      if |t| >= 2 && t[1] == 0x5D then Got(Arr([]), t[2..])
      else
        var items := ReadItems(t[1..]);
        if items.Got? then Got(Arr(items.value), items.rest) else NotReadable
    else if t[0] == 0x7B then
      if |t| >= 2 && t[1] == 0x7D then Got(Obj([]), t[2..])
      else
        var members := ReadMembers(t[1..]);
        if members.Got? then Got(Obj(members.value), members.rest) else NotReadable
    else if t[0] == 0x2D || IsDigit(t[0]) then
      var n := ReadInteger(t);
      if n.Got? then Got(Int(n.value), n.rest) else NotReadable
    else ReadLiteral(t)
  }

  /** null, true and false */
  function ReadLiteral(t: Text): (r: Read<Value, Text>)
    ensures r.Got? ==> |r.rest| < |t|
  {
    if |t| >= 4 && t[..4] == [0x6E, 0x75, 0x6C, 0x6C] then Got(Null, t[4..])
    else if |t| >= 4 && t[..4] == [0x74, 0x72, 0x75, 0x65] then Got(Bool(true), t[4..])
    else if |t| >= 5 && t[..5] == [0x66, 0x61, 0x6C, 0x73, 0x65] then Got(Bool(false), t[5..])
    else NotReadable
  }

  /** One or more elements and the closing bracket. */
  function ReadItems(t: Text): (r: Read<seq<Value>, Text>)
    ensures r.Got? ==> |r.rest| < |t|
    decreases |t|, 3
  {
    var head := ReadValue(t);
    if head.NotReadable? || head.rest == [] then NotReadable
    else if head.rest[0] == 0x5D then Got([head.value], head.rest[1..])
    else if head.rest[0] == 0x2C then
      var tail := ReadItems(head.rest[1..]);
      if tail.Got? then Got([head.value] + tail.value, tail.rest) else NotReadable
    else NotReadable
  }

  /** A name, a colon and a value. */
  function ReadMember(t: Text): (r: Read<Member, Text>)
    ensures r.Got? ==> |r.rest| < |t|
    decreases |t|, 3
  {
    var key := ReadString(t);
    if key.NotReadable? || key.rest == [] || key.rest[0] != 0x3A then NotReadable
    else
      var v := ReadValue(key.rest[1..]);
      if v.Got? then Got(Member(key.value, v.value), v.rest) else NotReadable
  }

  /** One or more members and the closing brace. */
  function ReadMembers(t: Text): (r: Read<seq<Member>, Text>)
    ensures r.Got? ==> |r.rest| < |t|
    decreases |t|, 4
  {
    var head := ReadMember(t);
    if head.NotReadable? || head.rest == [] then NotReadable
    else if head.rest[0] == 0x7D then Got([head.value], head.rest[1..])
    else if head.rest[0] == 0x2C then
      var tail := ReadMembers(head.rest[1..]);
      if tail.Got? then Got([head.value] + tail.value, tail.rest) else NotReadable
    else NotReadable
  }

  /** The whole text is one value. */
  function ReadDocument(bytes: seq<Byte>): Read<Value, ()>
  {
    var t := ReadText(bytes);
    if t.NotReadable? then NotReadable
    else
      var v := ReadValue(t.value);
      if v.Got? && v.rest == [] then Got(v.value, ()) else NotReadable
  }

  // ----- what is read back: the value with its members in canonical order

  function InsertMember(m: Member, sorted: seq<Member>): (r: seq<Member>)
    ensures |r| == |sorted| + 1
  {
    if sorted == [] || !KeyBelow(sorted[0].key, m.key) then [m] + sorted
    else [sorted[0]] + InsertMember(m, sorted[1..])
  }

  function Ordered(members: seq<Member>): (r: seq<Member>)
    ensures |r| == |members|
  {
    if members == [] then [] else InsertMember(members[0], Ordered(members[1..]))
  }

  /** The same value, the members of every object ordered by name. */
  function Normal(v: Value): Value
    decreases v
  {
    match v
    case Arr(items) => Arr(NormalItems(items))
    case Obj(members) => Obj(Ordered(NormalMembers(members)))
    case _ => v
  }

  function NormalItems(items: seq<Value>): (r: seq<Value>)
    ensures |r| == |items| && forall i :: 0 <= i < |items| ==> r[i] == Normal(items[i])
    decreases items
  {
    if items == [] then [] else [Normal(items[0])] + NormalItems(items[1..])
  }

  function NormalMembers(members: seq<Member>): (r: seq<Member>)
    ensures |r| == |members|
    ensures forall i :: 0 <= i < |members| ==> r[i] == Member(members[i].key, Normal(members[i].value))
    decreases members
  {
    if members == [] then [] else [Member(members[0].key, Normal(members[0].value))] + NormalMembers(members[1..])
  }

  lemma {:induction false} InsertedMembers(m: Member, sorted: seq<Member>)
    ensures forall x :: x in InsertMember(m, sorted) <==> x == m || x in sorted
  {
    if sorted != [] && KeyBelow(sorted[0].key, m.key) {
      InsertedMembers(m, sorted[1..]);
      assert sorted == [sorted[0]] + sorted[1..];
    }
  }

  lemma {:induction false} OrderedMembers(members: seq<Member>)
    ensures forall x :: x in Ordered(members) <==> x in members
  {
    if members != [] {
      OrderedMembers(members[1..]);
      InsertedMembers(members[0], Ordered(members[1..]));
      assert members == [members[0]] + members[1..];
    }
  }

  /** Inserting by name does not depend on what the names stand for. */
  lemma {:induction false} InsertMaps(m: Member, sorted: seq<Member>)
    ensures NormalMembers(InsertMember(m, sorted)) == InsertMember(Member(m.key, Normal(m.value)), NormalMembers(sorted))
    ensures EncodeMembers(InsertMember(m, sorted)) == Insert(Pair(m.key, Encode(m.value)), EncodeMembers(sorted))
  {
    if sorted != [] && KeyBelow(sorted[0].key, m.key) {
      InsertMaps(m, sorted[1..]);
      assert InsertMember(m, sorted)[1..] == InsertMember(m, sorted[1..]);
      assert NormalMembers(sorted)[1..] == NormalMembers(sorted[1..]);
      assert EncodeMembers(sorted)[1..] == EncodeMembers(sorted[1..]);
    } else {
      assert InsertMember(m, sorted)[1..] == sorted;
    }
  }

  lemma {:induction false} OrderMaps(members: seq<Member>)
    ensures NormalMembers(Ordered(members)) == Ordered(NormalMembers(members))
    ensures EncodeMembers(Ordered(members)) == PairsOf(members)
  {
    if members != [] {
      OrderMaps(members[1..]);
      InsertMaps(members[0], Ordered(members[1..]));
      assert NormalMembers(members)[1..] == NormalMembers(members[1..]);
      assert EncodeMembers(members)[1..] == EncodeMembers(members[1..]);
    }
  }

  // ----- the encoding of a value is read back

  lemma ReadsLiteral(v: Value, x: Text)
    requires v.Null? || v.Bool?
    ensures ReadValue(Encode(v) + x) == Got(v, x)
  {
    var e := Encode(v);
    assert (e + x)[..|e|] == e && (e + x)[|e|..] == x && (e + x)[0] == e[0];
    assert |e| == 5 ==> (e + x)[..4][0] == e[0];
  }

  lemma ReadsInteger(n: int, x: Text)
    requires Delimited(x)
    ensures ReadValue(Decimal(n) + x) == Got(Int(n), x)
  {
    StartOfDecimal(n, x);
    IntegerReadsBack(n, x);
  }

  lemma ReadsString(s: Text, x: Text)
    ensures ReadValue(Quote(s) + x) == Got(Str(s), x)
  {
    StringReadsBack(s, x);
    assert (Quote(s) + x)[0] == QUOTE;
  }

  /** What the elements read as, an array of them reads as. */
  lemma ReadsArray(items: seq<Value>, x: Text)
    requires items != [] ==> InProfile(items[0]) && ReadItems(ArrayRemainder(items, x)) == Got(NormalItems(items), x)
    ensures ReadValue(Encode(Arr(items)) + x) == Got(Normal(Arr(items)), x)
  {
    ArrayIsRemainder(items, x);
    var t := [OPEN_ARRAY] + ArrayRemainder(items, x);
    assert t[0] == OPEN_ARRAY && t[1..] == ArrayRemainder(items, x);
    if items == [] {
      assert t[2..] == x;
    } else {
      KindIsVisible(items[0], AfterItem(items, x));
      assert t[1] == ArrayRemainder(items, x)[0];
    }
  }

  lemma ReadsObject(members: seq<Member>, x: Text)
    requires members != [] ==> ReadMembers(ObjectRemainder(EncodeMembers(Ordered(members)), x)) == Got(NormalMembers(Ordered(members)), x)
    ensures ReadValue(Encode(Obj(members)) + x) == Got(Normal(Obj(members)), x)
  {
    ObjectIsRemainder(members, x);
    OrderMaps(members);
    var rest := ObjectRemainder(PairsOf(members), x);
    var t := [OPEN_OBJECT] + rest;
    assert t[0] == OPEN_OBJECT && t[1..] == rest;
    StartOfPairs(PairsOf(members), x);
    assert t[1] == rest[0];
    if members == [] {
      assert t[2..] == x;
    }
  }

  lemma {:induction false} ValueReadsBack(v: Value, x: Text)
    requires InProfile(v) && Delimited(x)
    ensures ReadValue(Encode(v) + x) == Got(Normal(v), x)
    decreases v, 1, 0
  {
    match v
    case Int(n) => ReadsInteger(n, x);
    case Str(s) => ReadsString(s, x);
    case Arr(items) =>
      if items != [] {
        ItemsReadBack(items, x);
      }
      ReadsArray(items, x);
    case Obj(members) =>
      if members != [] {
        OrderedMembers(members);
        MembersReadBack(members, Ordered(members), x);
      }
      ReadsObject(members, x);
    case _ => ReadsLiteral(v, x);
  }

  lemma {:induction false} ItemsReadBack(items: seq<Value>, x: Text)
    requires items != [] && forall i :: 0 <= i < |items| ==> InProfile(items[i])
    ensures ReadItems(ArrayRemainder(items, x)) == Got(NormalItems(items), x)
    decreases items, 0, 0
  {
    var after := AfterItem(items, x);
    ValueReadsBack(items[0], after);
    if |items| == 1 {
      ReadsLastItem(ArrayRemainder(items, x), Normal(items[0]), x);
      assert NormalItems(items) == [Normal(items[0])];
    } else {
      ItemsReadBack(items[1..], x);
      ReadsNextItem(ArrayRemainder(items, x), Normal(items[0]), ArrayRemainder(items[1..], x), NormalItems(items[1..]), x);
    }
  }

  lemma ReadsLastItem(t: Text, v: Value, x: Text)
    requires ReadValue(t) == Got(v, [CLOSE_ARRAY] + x)
    ensures ReadItems(t) == Got([v], x)
  {
    assert ([CLOSE_ARRAY] + x)[1..] == x;
  }

  lemma ReadsNextItem(t: Text, v: Value, u: Text, more: seq<Value>, x: Text)
    requires ReadValue(t) == Got(v, [COMMA] + u) && ReadItems(u) == Got(more, x)
    ensures ReadItems(t) == Got([v] + more, x)
  {
    assert ([COMMA] + u)[1..] == u;
  }

  lemma ReadsLastMember(t: Text, m: Member, x: Text)
    requires ReadMember(t) == Got(m, [CLOSE_OBJECT] + x)
    ensures ReadMembers(t) == Got([m], x)
  {
    assert ([CLOSE_OBJECT] + x)[1..] == x;
  }

  lemma ReadsNextMember(t: Text, m: Member, u: Text, more: seq<Member>, x: Text)
    requires ReadMember(t) == Got(m, [COMMA] + u) && ReadMembers(u) == Got(more, x)
    ensures ReadMembers(t) == Got([m] + more, x)
  {
    assert ([COMMA] + u)[1..] == u;
  }

  lemma MemberReadsBack(pairs: seq<Pair>, v: Value, x: Text)
    requires pairs != [] && ReadValue(pairs[0].text + AfterPair(pairs, x)) == Got(v, AfterPair(pairs, x))
    ensures ReadMember(ObjectRemainder(pairs, x)) == Got(Member(pairs[0].key, v), AfterPair(pairs, x))
  {
    var u := pairs[0].text + AfterPair(pairs, x);
    StringReadsBack(pairs[0].key, [COLON] + u);
    assert ([COLON] + u)[1..] == u;
  }

  lemma {:induction false} MembersReadBack(members: seq<Member>, sorted: seq<Member>, x: Text)
    requires sorted != [] && (forall m :: m in sorted ==> m in members)
    requires forall i :: 0 <= i < |members| ==> InProfile(members[i].value)
    ensures ReadMembers(ObjectRemainder(EncodeMembers(sorted), x)) == Got(NormalMembers(sorted), x)
    decreases members, 0, |sorted|
  {
    var pairs := EncodeMembers(sorted);
    var after := AfterPair(pairs, x);
    assert sorted[0] in members;
    var j :| 0 <= j < |members| && members[j] == sorted[0];
    ValueReadsBack(members[j].value, after);
    MemberReadsBack(pairs, Normal(sorted[0].value), x);
    var head := Member(sorted[0].key, Normal(sorted[0].value));
    if |sorted| == 1 {
      ReadsLastMember(ObjectRemainder(pairs, x), head, x);
      assert NormalMembers(sorted) == [head];
    } else {
      MembersReadBack(members, sorted[1..], x);
      assert pairs[1..] == EncodeMembers(sorted[1..]);
      ReadsNextMember(ObjectRemainder(pairs, x), head, ObjectRemainder(pairs[1..], x), NormalMembers(sorted[1..]), x);
    }
  }

  // ----- main results

  /** Reading canonical bytes gives the value with its members in canonical order. */
  lemma BytesReadBack(v: Value)
    requires CanonicalBytes(v).Ok?
    ensures ReadDocument(CanonicalBytes(v).bytes) == Got(Normal(v), ())
  {
    TextReadsBack(Encode(v));
    assert Encode(v) + [] == Encode(v);
    ValueReadsBack(v, []);
  }

  /** Ordering the members changes nothing but their order. */
  lemma {:induction false} NormalIsEquivalent(v: Value)
    ensures Equivalent(v, Normal(v))
    decreases v
  {
    match v
    case Arr(items) =>
      forall i | 0 <= i < |items| ensures Equivalent(items[i], NormalItems(items)[i]) {
        NormalIsEquivalent(items[i]);
      }
    case Obj(members) =>
      var normal := NormalMembers(members);
      OrderedMembers(normal);
      forall i | 0 <= i < |members| ensures HasEquivalent(members[i].key, members[i].value, Ordered(normal)) {
        NormalIsEquivalent(members[i].value);
        assert normal[i] in Ordered(normal);
        var j :| 0 <= j < |normal| && Ordered(normal)[j] == normal[i];
      }
    case _ =>
  }
}
