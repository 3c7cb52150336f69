/** JSON values as the parser hands them over: strings are code points, objects keep their member order. */
module Json {

  type Code = c: int | 0 <= c < 0x110000

  type Text = seq<Code>

  type Byte = b: int | 0 <= b < 256

  datatype Member = Member(key: Text, value: Value)

  datatype Value =
    | Null | Bool(b: bool) | Int(n: int) | Float | Str(s: Text)
    | Arr(items: seq<Value>) | Obj(members: seq<Member>)

  predicate DistinctKeys(members: seq<Member>)
  {
    forall i, j :: 0 <= i < j < |members| ==> members[i].key != members[j].key
  }

  /** No object repeats a member name, at any depth. */
  predicate WellFormed(v: Value)
  {
    match v
    case Arr(items) => forall i :: 0 <= i < |items| ==> WellFormed(items[i])
    case Obj(members) => DistinctKeys(members) && forall i :: 0 <= i < |members| ==> WellFormed(members[i].value)
    case _ => true
  }

  /** Equal up to the order of object members, at any depth. */
  predicate Equivalent(a: Value, b: Value)
    decreases a, 0
  {
    match a
    case Arr(items) =>
      b.Arr? && |items| == |b.items| && forall i :: 0 <= i < |items| ==> Equivalent(items[i], b.items[i])
    case Obj(members) =>
      b.Obj? && |members| == |b.members|
      && forall i :: 0 <= i < |members| ==> HasEquivalent(members[i].key, members[i].value, b.members)
    case _ => a == b
  }

  predicate HasEquivalent(key: Text, v: Value, members: seq<Member>)
    decreases v, 1
  {
    exists j :: 0 <= j < |members| && members[j].key == key && Equivalent(v, members[j].value)
  }

  predicate IsSurrogate(c: Code)
  {
    0xD800 <= c < 0xE000
  }

  predicate Encodable(t: Text)
  {
    forall i :: 0 <= i < |t| ==> !IsSurrogate(t[i])
  }

  /** No string and no member name contains a lone surrogate. */
  predicate Clean(v: Value)
  {
    match v
    case Str(s) => Encodable(s)
    case Arr(items) => forall i :: 0 <= i < |items| ==> Clean(items[i])
    case Obj(members) => forall i :: 0 <= i < |members| ==> Encodable(members[i].key) && Clean(members[i].value)
    case _ => true
  }

  /** Float-free, with integers in the exact range of I-JSON. */
  predicate InProfile(v: Value)
  {
    match v
    case Float => false
    case Int(n) => -9_007_199_254_740_991 <= n <= 9_007_199_254_740_991
    case Arr(items) => forall i :: 0 <= i < |items| ==> InProfile(items[i])
    case Obj(members) => forall i :: 0 <= i < |members| ==> InProfile(members[i].value)
    case _ => true
  }
}
