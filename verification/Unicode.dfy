/** UTF-8 and UTF-16 of code-point strings, and why neither loses anything. */
module Unicode {
  import opened Json

  // ----- UTF-8

  function Utf8Unit(c: Code): seq<Byte>
  {
    if c < 0x80 then [c]
    else if c < 0x800 then [0xC0 + c / 64, 0x80 + c % 64]
    else if c < 0x10000 then [0xE0 + c / 4096, 0x80 + c / 64 % 64, 0x80 + c % 64]
    else [0xF0 + c / 262144, 0x80 + c / 4096 % 64, 0x80 + c / 64 % 64, 0x80 + c % 64]
  }

  function Utf8(t: Text): seq<Byte>
  {
    if t == [] then [] else Utf8Unit(t[0]) + Utf8(t[1..])
  }

  /** The code point read back from its bytes. */
  function FromBytes(u: seq<int>): int
  {
    if |u| == 1 then u[0]
    else if |u| == 2 then (u[0] - 0xC0) * 64 + (u[1] - 0x80)
    else if |u| == 3 then (u[0] - 0xE0) * 4096 + (u[1] - 0x80) * 64 + (u[2] - 0x80)
    else if |u| == 4 then (u[0] - 0xF0) * 262144 + (u[1] - 0x80) * 4096 + (u[2] - 0x80) * 64 + (u[3] - 0x80)
    else 0
  }

  lemma ReadsBack(c: Code)
    ensures FromBytes(Utf8Unit(c)) == c
  {
    assert c / 64 / 64 == c / 4096 && c / 4096 / 64 == c / 262144;
  }

  /** The first byte tells the length. */
  function LengthByFirst(b: Byte): nat
  {
    if b < 0x80 then 1 else if b < 0xE0 then 2 else if b < 0xF0 then 3 else 4
  }

  lemma LengthIsByFirst(c: Code)
    ensures |Utf8Unit(c)| == LengthByFirst(Utf8Unit(c)[0])
  {
  }

  lemma Utf8UnitIsPrefixFree(a: Code, b: Code, x: seq<Byte>, y: seq<Byte>)
    requires Utf8Unit(a) + x == Utf8Unit(b) + y
    ensures a == b && x == y
  {
    var u, w := Utf8Unit(a), Utf8Unit(b);
    LengthIsByFirst(a);
    LengthIsByFirst(b);
    assert (u + x)[0] == u[0] && (w + y)[0] == w[0];
    assert u == (u + x)[..|u|] && w == (w + y)[..|w|];
    assert x == (u + x)[|u|..] && y == (w + y)[|w|..];
    ReadsBack(a);
    ReadsBack(b);
  }

  /** Different texts have different bytes. */
  lemma {:induction false} Utf8IsInjective(a: Text, b: Text)
    requires Utf8(a) == Utf8(b)
    ensures a == b
  {
    if a != [] && b != [] {
      Utf8UnitIsPrefixFree(a[0], b[0], Utf8(a[1..]), Utf8(b[1..]));
      Utf8IsInjective(a[1..], b[1..]);
      assert a == [a[0]] + a[1..] && b == [b[0]] + b[1..];
    }
  }

  // ----- UTF-16

  function Utf16Unit(c: Code): seq<int>
  {
    if c < 0x10000 then [c] else [0xD800 + (c - 0x10000) / 0x400, 0xDC00 + (c - 0x10000) % 0x400]
  }

  function Utf16(t: Text): seq<int>
  {
    if t == [] then [] else Utf16Unit(t[0]) + Utf16(t[1..])
  }

  function BigEndian(units: seq<int>): seq<int>
  {
    if units == [] then [] else [units[0] / 256, units[0] % 256] + BigEndian(units[1..])
  }

  predicate LexBelow(a: seq<int>, b: seq<int>)
  {
    b != [] && (a == [] || a[0] < b[0] || (a[0] == b[0] && LexBelow(a[1..], b[1..])))
  }

  lemma {:induction false} LexIsTransitive(a: seq<int>, b: seq<int>, c: seq<int>)
    requires LexBelow(a, b) && LexBelow(b, c)
    ensures LexBelow(a, c)
  {
    if a != [] && a[0] == b[0] == c[0] {
      LexIsTransitive(a[1..], b[1..], c[1..]);
    }
  }

  lemma {:induction false} LexIsIrreflexive(a: seq<int>)
    ensures !LexBelow(a, a)
  {
    if a != [] {
      LexIsIrreflexive(a[1..]);
    }
  }

  lemma {:induction false} LexIsTotal(a: seq<int>, b: seq<int>)
    ensures a == b || LexBelow(a, b) || LexBelow(b, a)
  {
    if a != [] && b != [] && a[0] == b[0] {
      LexIsTotal(a[1..], b[1..]);
      assert a == [a[0]] + a[1..] && b == [b[0]] + b[1..];
    }
  }

  /** The order in which member names are sorted. */
  predicate KeyBelow(a: Text, b: Text)
  {
    LexBelow(BigEndian(Utf16(a)), BigEndian(Utf16(b)))
  }

  /** Comparing big-endian bytes is comparing code units, as section 3.2.3 of RFC 8785 asks. */
  lemma {:induction false} ByteOrderIsUnitOrder(a: seq<int>, b: seq<int>)
    ensures LexBelow(BigEndian(a), BigEndian(b)) <==> LexBelow(a, b)
  {
    if a != [] && b != [] {
      ByteOrderIsUnitOrder(a[1..], b[1..]);
      var x, y := BigEndian(a), BigEndian(b);
      assert x[1..][1..] == BigEndian(a[1..]) && y[1..][1..] == BigEndian(b[1..]);
      assert a[0] == 256 * (a[0] / 256) + a[0] % 256 && b[0] == 256 * (b[0] / 256) + b[0] % 256;
    }
  }

  lemma KeysByCodeUnits(a: Text, b: Text)
    ensures KeyBelow(a, b) <==> LexBelow(Utf16(a), Utf16(b))
  {
    ByteOrderIsUnitOrder(Utf16(a), Utf16(b));
  }

  /** The first unit where the two differ decides, or that the first one ends there. */
  ghost predicate FirstDifferenceBelow(a: seq<int>, b: seq<int>, k: nat)
  {
    k <= |a| && k < |b| && a[..k] == b[..k] && (k < |a| ==> a[k] < b[k])
  }

  ghost predicate SameHead(a: seq<int>, b: seq<int>)
  {
    a != [] && b != [] && a[0] == b[0]
  }

  lemma LaterDifference(a: seq<int>, b: seq<int>, k: nat)
    ensures FirstDifferenceBelow(a, b, k) && k > 0 ==> SameHead(a, b)
  {
    if FirstDifferenceBelow(a, b, k) && k > 0 {
      assert a[0] == a[..k][0] == b[..k][0] == b[0];
    }
  }

  lemma {:induction false} LexByFirstDifference(a: seq<int>, b: seq<int>)
    ensures LexBelow(a, b) <==> exists k :: FirstDifferenceBelow(a, b, k)
  {
    if a == [] || b == [] || a[0] != b[0] {
      assert LexBelow(a, b) ==> FirstDifferenceBelow(a, b, 0);
      forall k: nat ensures FirstDifferenceBelow(a, b, k) ==> LexBelow(a, b) {
        LaterDifference(a, b, k);
      }
    } else {
      LexByFirstDifference(a[1..], b[1..]);
      if k: nat :| FirstDifferenceBelow(a[1..], b[1..], k) {
        assert a[..k + 1] == [a[0]] + a[1..][..k] && b[..k + 1] == [b[0]] + b[1..][..k];
        assert FirstDifferenceBelow(a, b, k + 1);
      }
      forall k: nat | FirstDifferenceBelow(a, b, k) ensures FirstDifferenceBelow(a[1..], b[1..], k - 1) && k > 0 {
        assert k > 0 ==> a[1..][..k - 1] == a[..k][1..] && b[1..][..k - 1] == b[..k][1..];
      }
    }
  }

  /** Member names are ordered by the first UTF-16 code unit in which they differ. */
  lemma KeysByFirstDifference(a: Text, b: Text)
    ensures KeyBelow(a, b) <==> exists k :: FirstDifferenceBelow(Utf16(a), Utf16(b), k)
  {
    KeysByCodeUnits(a, b);
    LexByFirstDifference(Utf16(a), Utf16(b));
  }

  /** The characters of well-formed units, by section 2.2 of RFC 2781. */
  function FromUtf16(units: seq<int>): seq<int>
  {
    if units == [] then []
    else if |units| >= 2 && 0xD800 <= units[0] < 0xDC00 && 0xDC00 <= units[1] < 0xE000
    then [(units[0] - 0xD800) * 0x400 + (units[1] - 0xDC00) + 0x10000] + FromUtf16(units[2..])
    else [units[0]] + FromUtf16(units[1..])
  }

  lemma UnitReadsBack(c: Code, rest: seq<int>)
    requires !IsSurrogate(c)
    ensures FromUtf16(Utf16Unit(c) + rest) == [c] + FromUtf16(rest)
  {
    var u := Utf16Unit(c);
    assert (u + rest)[|u|..] == rest && (u + rest)[0] == u[0];
    assert |u| == 2 ==> (u + rest)[1] == u[1];
  }

  lemma {:induction false} UnitsReadBack(t: Text)
    requires Encodable(t)
    ensures FromUtf16(Utf16(t)) == t
  {
    if t != [] {
      UnitsReadBack(t[1..]);
      UnitReadsBack(t[0], Utf16(t[1..]));
      assert t == [t[0]] + t[1..];
    }
  }

  lemma Utf16UnitIsPrefixFree(a: Code, b: Code, x: seq<int>, y: seq<int>)
    requires !IsSurrogate(a) && !IsSurrogate(b) && Utf16Unit(a) + x == Utf16Unit(b) + y
    ensures a == b && x == y
  {
    var u, w := Utf16Unit(a), Utf16Unit(b);
    assert (u + x)[0] == u[0] && (w + y)[0] == w[0];
    assert |u| == |w|;
    assert u == (u + x)[..|u|] && w == (w + y)[..|w|];
    assert x == (u + x)[|u|..] && y == (w + y)[|w|..];
    if |u| == 2 {
      assert u[1] == w[1];
    }
  }

  lemma {:induction false} Utf16IsInjective(a: Text, b: Text)
    requires Encodable(a) && Encodable(b) && Utf16(a) == Utf16(b)
    ensures a == b
  {
    if a != [] && b != [] {
      Utf16UnitIsPrefixFree(a[0], b[0], Utf16(a[1..]), Utf16(b[1..]));
      Utf16IsInjective(a[1..], b[1..]);
      assert a == [a[0]] + a[1..] && b == [b[0]] + b[1..];
    }
  }

  /** Different member names without lone surrogates are never tied. */
  lemma KeysAreComparable(a: Text, b: Text)
    requires Encodable(a) && Encodable(b) && a != b
    ensures KeyBelow(a, b) || KeyBelow(b, a)
  {
    KeysByCodeUnits(a, b);
    KeysByCodeUnits(b, a);
    LexIsTotal(Utf16(a), Utf16(b));
    if Utf16(a) == Utf16(b) {
      Utf16IsInjective(a, b);
    }
  }

  lemma KeyOrderIsTransitive(a: Text, b: Text, c: Text)
    requires KeyBelow(a, b) && KeyBelow(b, c)
    ensures KeyBelow(a, c)
  {
    LexIsTransitive(BigEndian(Utf16(a)), BigEndian(Utf16(b)), BigEndian(Utf16(c)));
  }

  lemma KeyOrderIsIrreflexive(a: Text)
    ensures !KeyBelow(a, a)
  {
    LexIsIrreflexive(BigEndian(Utf16(a)));
  }

  /** Member names with lone surrogates can be tied although they differ. */
  lemma SurrogatesCanTie() returns (a: Text, b: Text)
    ensures a != b && Utf16(a) == Utf16(b)
  {
    a, b := [0xD800, 0xDC00], [0x10000];
    assert a[1..] == [0xDC00] && a[1..][1..] == [] && b[1..] == [];
    assert Utf16(a[1..]) == [0xDC00];
  }
}
