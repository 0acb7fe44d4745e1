/** Strings of the canonical JSON scheme (config-ui/canonical.py): escaping, the UTF-16 sort
    key, and the UTF-8 output encoding. A Python string is a sequence of code points, unpaired
    surrogates included. */
module CanonicalText {
  import opened Wrappers

  type Code = c: nat | c < 0x110000
  type Text = seq<Code>

  predicate IsSurrogate(c: Code) {
    0xD800 <= c < 0xE000
  }

  /** The text has a UTF-8 encoding. */
  predicate Encodable(t: Text) {
    forall k :: 0 <= k < |t| ==> !IsSurrogate(t[k])
  }

  function Ascii(s: string): (t: Text)
    ensures |t| == |s| && forall k :: 0 <= k < |s| ==> t[k] == s[k] as int
  {
    seq(|s|, k requires 0 <= k < |s| => s[k] as int)
  }

  lemma AsciiInjective(s: string, t: string)
    requires Ascii(s) == Ascii(t)
    ensures s == t
  {
    forall k | 0 <= k < |s|
      ensures s[k] == t[k]
    {
      assert Ascii(s)[k] == Ascii(t)[k];
    }
  }

  // ---------------------------------------------------------------- string literals

  const QUOTE: Code := 0x22
  const BACKSLASH: Code := 0x5C

  function HexDigit(d: nat): (c: Code)
    requires d < 16
    ensures c == if d < 10 then 0x30 + d else 0x57 + d
  {
    if d < 10 then 0x30 + d else 0x57 + d
  }

  /** The escape table, then \u00XX below 0x20, then the character itself. */
  function Escape(c: Code): Text {
    if c == BACKSLASH then [BACKSLASH, BACKSLASH]
    else if c == QUOTE then [BACKSLASH, QUOTE]
    else if c == 0x08 then [BACKSLASH, 0x62]
    else if c == 0x0C then [BACKSLASH, 0x66]
    else if c == 0x0A then [BACKSLASH, 0x6E]
    else if c == 0x0D then [BACKSLASH, 0x72]
    else if c == 0x09 then [BACKSLASH, 0x74]
    else if c < 0x20 then [BACKSLASH, 0x75, 0x30, 0x30, HexDigit(c / 16), HexDigit(c % 16)]
    else [c]
  }

  function Escaped(t: Text): Text {
    if t == [] then [] else Escape(t[0]) + Escaped(t[1..])
  }

  function Quoted(t: Text): Text {
    [QUOTE] + (Escaped(t) + [QUOTE])
  }

  /** The formatter's loop over the characters. */
  method FormatString(value: Text) returns (out: Option<Text>)
    ensures out == if Encodable(value) then Some(Quoted(value)) else None
  {
    if exists k :: 0 <= k < |value| && IsSurrogate(value[k]) {
      return None;
    }
    var text := [QUOTE];
    var i := 0;
    while i < |value|
      invariant 0 <= i <= |value|
      invariant text + Escaped(value[i..]) == [QUOTE] + Escaped(value)
    {
      assert value[i..][0] == value[i] && value[i..][1..] == value[i + 1..];
      assert text + Escaped(value[i..]) == text + Escape(value[i]) + Escaped(value[i + 1..]);
      text := text + Escape(value[i]);
      i := i + 1;
    }
    assert text == [QUOTE] + Escaped(value) by {
      assert value[|value|..] == [];
      assert text + [] == text;
    }
    text := text + [QUOTE];
    assert text == Quoted(value);
    return Some(text);
  }

  /** An escape is recognised wherever it starts. */
  lemma EscapeUnique(a: Code, b: Code, r: Text, s: Text)
    requires Escape(a) + r == Escape(b) + s
    ensures a == b && r == s
  {
    var l, m := Escape(a) + r, Escape(b) + s;
    assert l[0] == Escape(a)[0] && m[0] == Escape(b)[0];
    if l[0] == BACKSLASH {
      assert l[1] == Escape(a)[1] && m[1] == Escape(b)[1];
      if l[1] == 0x75 {
        assert l[4] == Escape(a)[4] && m[4] == Escape(b)[4];
        assert l[5] == Escape(a)[5] && m[5] == Escape(b)[5];
      }
    }
    assert a == b;
    assert l[|Escape(a)|..] == r && m[|Escape(b)|..] == s;
  }

  /** A quoted string ends where it says it ends, and says which string it is. */
  lemma {:induction false} QuotedUnique(t: Text, u: Text, r: Text, s: Text)
    requires Escaped(t) + ([QUOTE] + r) == Escaped(u) + ([QUOTE] + s)
    ensures t == u && r == s
    decreases |t|
  {
    var l, m := [QUOTE] + r, [QUOTE] + s;
    if t == [] && u == [] {
      assert Escaped(t) + l == l && Escaped(u) + m == m;
      assert l[1..] == r && m[1..] == s;
    } else if t == [] {
      EscapedStarts(u, m);
    } else if u == [] {
      EscapedStarts(t, l);
    } else {
      Unfold(t, l);
      Unfold(u, m);
      EscapeUnique(t[0], u[0], Escaped(t[1..]) + l, Escaped(u[1..]) + m);
      QuotedUnique(t[1..], u[1..], r, s);
      assert t == [t[0]] + t[1..] && u == [u[0]] + u[1..];
    }
  }

  lemma Unfold(t: Text, r: Text)
    requires t != []
    ensures Escaped(t) + r == Escape(t[0]) + (Escaped(t[1..]) + r)
  {
  }

  lemma EscapedStarts(t: Text, r: Text)
    requires t != []
    ensures (Escaped(t) + r)[0] != QUOTE
  {
    assert (Escaped(t) + r)[0] == Escape(t[0])[0];
  }

  // ---------------------------------------------------------------- the sort key

  /** The UTF-16 code units of a code point. */
  function Units(c: Code): seq<nat> {
    if c < 0x10000 then [c] else [0xD800 + (c - 0x10000) / 0x400, 0xDC00 + (c - 0x10000) % 0x400]
  }

  function Utf16(t: Text): seq<nat> {
    if t == [] then [] else Units(t[0]) + Utf16(t[1..])
  }

  function BigEndian(units: seq<nat>): seq<nat> {
    if units == [] then [] else [units[0] / 0x100, units[0] % 0x100] + BigEndian(units[1..])
  }

  /** The bytes of the big-endian UTF-16 encoding. */
  function SortKey(t: Text): seq<nat> {
    BigEndian(Utf16(t))
  }

  /** Lexicographic order of sequences, a proper prefix first. */
  predicate LexLess(a: seq<nat>, b: seq<nat>) {
    b != [] && (a == [] || a[0] < b[0] || (a[0] == b[0] && LexLess(a[1..], b[1..])))
  }

  predicate AllUnits(a: seq<nat>) {
    forall k :: 0 <= k < |a| ==> a[k] < 0x10000
  }

  lemma UnitsInRange(t: Text)
    ensures AllUnits(Utf16(t))
  {
  }

  /** Byte order of the big-endian form is code-unit order. */
  lemma {:induction false} BytesFollowUnits(a: seq<nat>, b: seq<nat>)
    requires AllUnits(a) && AllUnits(b)
    ensures LexLess(BigEndian(a), BigEndian(b)) <==> LexLess(a, b)
    ensures BigEndian(a) == BigEndian(b) ==> a == b
    decreases |a|
  {
    if a != [] && b != [] {
      var p, q := BigEndian(a), BigEndian(b);
      BytesFollowUnits(a[1..], b[1..]);
      assert p[0] == a[0] / 0x100 && p[1] == a[0] % 0x100 && p[1..][1..] == BigEndian(a[1..]);
      assert q[0] == b[0] / 0x100 && q[1] == b[0] % 0x100 && q[1..][1..] == BigEndian(b[1..]);
      assert LexLess(p, q) <==> p[0] < q[0] || (p[0] == q[0] && LexLess(p[1..], q[1..]));
      assert LexLess(p[1..], q[1..]) <==> p[1] < q[1] || (p[1] == q[1] && LexLess(p[1..][1..], q[1..][1..]));
      assert a == [a[0]] + a[1..] && b == [b[0]] + b[1..];
    }
  }

  lemma SortKeyIsUtf16Order(t: Text, u: Text)
    ensures LexLess(SortKey(t), SortKey(u)) <==> LexLess(Utf16(t), Utf16(u))
  {
    UnitsInRange(t);
    UnitsInRange(u);
    BytesFollowUnits(Utf16(t), Utf16(u));
  }

  lemma UnitsUnique(a: Code, b: Code, r: seq<nat>, s: seq<nat>)
    requires !IsSurrogate(a) && !IsSurrogate(b) && Units(a) + r == Units(b) + s
    ensures a == b && r == s
  {
    var l, m := Units(a) + r, Units(b) + s;
    assert l[0] == Units(a)[0] && m[0] == Units(b)[0];
    if a >= 0x10000 && b >= 0x10000 {
      assert l[1] == Units(a)[1] && m[1] == Units(b)[1];
    }
    assert l[|Units(a)|..] == r && m[|Units(b)|..] == s;
  }

  lemma {:induction false} Utf16Injective(t: Text, u: Text)
    requires Encodable(t) && Encodable(u) && Utf16(t) == Utf16(u)
    ensures t == u
    decreases |t|
  {
    if t != [] && u != [] {
      UnitsUnique(t[0], u[0], Utf16(t[1..]), Utf16(u[1..]));
      Utf16Injective(t[1..], u[1..]);
      assert t == [t[0]] + t[1..] && u == [u[0]] + u[1..];
    }
  }

  lemma SortKeyInjective(t: Text, u: Text)
    requires Encodable(t) && Encodable(u) && SortKey(t) == SortKey(u)
    ensures t == u
  {
    UnitsInRange(t);
    UnitsInRange(u);
    BytesFollowUnits(Utf16(t), Utf16(u));
    Utf16Injective(t, u);
  }

  lemma {:induction false} LexTotal(a: seq<nat>, b: seq<nat>)
    ensures a == b || LexLess(a, b) || LexLess(b, a)
    ensures !(LexLess(a, b) && LexLess(b, a)) && !LexLess(a, a)
    decreases |a|
  {
    if a != [] && b != [] {
      LexTotal(a[1..], b[1..]);
      assert a == [a[0]] + a[1..] && b == [b[0]] + b[1..];
    }
    if a != [] {
      LexTotal(a[1..], a[1..]);
    }
  }

  lemma {:induction false} LexTransitive(a: seq<nat>, b: seq<nat>, c: seq<nat>)
    requires LexLess(a, b) && LexLess(b, c)
    ensures LexLess(a, c)
    decreases |a|
  {
    if a != [] && a[0] == b[0] && b[0] == c[0] {
      LexTransitive(a[1..], b[1..], c[1..]);
    }
  }

  /** Where two texts first differ, the sort key orders them as Python's code-point order does
      unless an astral character meets one of U+E000 to U+FFFF. */
  lemma OrdersAgreeIff(p: Text, a: Code, b: Code, r: Text, s: Text)
    requires !IsSurrogate(a) && !IsSurrogate(b) && a < b
    ensures LexLess(SortKey(p + [a] + r), SortKey(p + [b] + s)) <==> !(0xE000 <= a < 0x10000 <= b)
  {
    hide SortKey, LexLess, Units;
    SortKeyIsUtf16Order(p + [a] + r, p + [b] + s);
    CommonPrefix(p, [a] + r, [b] + s);
    assert p + [a] + r == p + ([a] + r) && p + [b] + s == p + ([b] + s);
    assert ([a] + r)[1..] == r && ([b] + s)[1..] == s;
    FirstUnitsDecide(a, b, Utf16(r), Utf16(s));
  }

  lemma FirstUnitsDecide(a: Code, b: Code, x: seq<nat>, y: seq<nat>)
    requires !IsSurrogate(a) && !IsSurrogate(b) && a < b
    ensures LexLess(Units(a) + x, Units(b) + y) <==> !(0xE000 <= a < 0x10000 <= b)
  {
    var l, m := Units(a) + x, Units(b) + y;
    assert l[0] == Units(a)[0] && m[0] == Units(b)[0];
    if a >= 0x10000 && l[0] == m[0] {
      assert l[1..][0] == Units(a)[1] && m[1..][0] == Units(b)[1];
    }
  }

  lemma {:induction false} CommonPrefix(p: Text, t: Text, u: Text)
    ensures LexLess(Utf16(p + t), Utf16(p + u)) <==> LexLess(Utf16(t), Utf16(u))
    decreases |p|
  {
    if p == [] {
      assert p + t == t && p + u == u;
    } else {
      CommonPrefix(p[1..], t, u);
      assert (p + t)[1..] == p[1..] + t && (p + u)[1..] == p[1..] + u;
      LexPrefix(Units(p[0]), Utf16(p[1..] + t), Utf16(p[1..] + u));
    }
  }

  lemma {:induction false} LexPrefix(p: seq<nat>, a: seq<nat>, b: seq<nat>)
    ensures LexLess(p + a, p + b) <==> LexLess(a, b)
    decreases |p|
  {
    if p == [] {
      assert p + a == a && p + b == b;
    } else {
      LexPrefix(p[1..], a, b);
      assert (p + a)[1..] == p[1..] + a && (p + b)[1..] == p[1..] + b;
    }
  }

  // ---------------------------------------------------------------- the output encoding

  type Byte = b: nat | b < 0x100

  function Utf8Code(c: Code): seq<Byte> {
    if c < 0x80 then [c]
    else if c < 0x800 then [0xC0 + c / 0x40, 0x80 + c % 0x40]
    else if c < 0x10000 then [0xE0 + c / 0x1000, 0x80 + c / 0x40 % 0x40, 0x80 + c % 0x40]
    else [0xF0 + c / 0x40000, 0x80 + c / 0x1000 % 0x40, 0x80 + c / 0x40 % 0x40, 0x80 + c % 0x40]
  }

  function Utf8(t: Text): seq<Byte> {
    if t == [] then [] else Utf8Code(t[0]) + Utf8(t[1..])
  }

  lemma Utf8CodeUnique(a: Code, b: Code, r: seq<Byte>, s: seq<Byte>)
    requires Utf8Code(a) + r == Utf8Code(b) + s
    ensures a == b && r == s
  {
    var x, y := Utf8Code(a), Utf8Code(b);
    var l, m := x + r, y + s;
    assert l[0] == x[0] && m[0] == y[0];
    assert |x| == |y|;
    assert forall k :: 0 <= k < |x| ==> l[k] == x[k] && m[k] == y[k];
    assert l[|x|..] == r && m[|y|..] == s;
    assert x == y by {
      assert forall k :: 0 <= k < |x| ==> x[k] == l[k] == m[k] == y[k];
    }
    SameBytesSameCode(a, b);
  }

  /** The bits that the continuation bytes carry. */
  lemma Groups(c: nat)
    ensures c == 0x40 * (c / 0x40) + c % 0x40
    ensures c == 0x1000 * (c / 0x1000) + 0x40 * (c / 0x40 % 0x40) + c % 0x40
    ensures c == 0x40000 * (c / 0x40000) + 0x1000 * (c / 0x1000 % 0x40) + 0x40 * (c / 0x40 % 0x40) + c % 0x40
  {
    var q := c / 0x40;
    var p := q / 0x40;
    assert p == c / 0x1000;
    assert p / 0x40 == c / 0x40000;
  }

  lemma SameBytesSameCode(a: Code, b: Code)
    requires Utf8Code(a) == Utf8Code(b)
    ensures a == b
  {
    Groups(a);
    Groups(b);
    var x, y := Utf8Code(a), Utf8Code(b);
    assert |x| == |y| && x[0] == y[0];
    if |x| == 2 {
      assert x[1] == y[1];
    } else if |x| == 3 {
      assert x[1] == y[1] && x[2] == y[2];
    } else if |x| == 4 {
      assert x[1] == y[1] && x[2] == y[2] && x[3] == y[3];
    }
  }

  lemma {:induction false} Utf8Injective(t: Text, u: Text)
    requires Utf8(t) == Utf8(u)
    ensures t == u
    decreases |t|
  {
    if t != [] && u != [] {
      Utf8CodeUnique(t[0], u[0], Utf8(t[1..]), Utf8(u[1..]));
      Utf8Injective(t[1..], u[1..]);
      assert t == [t[0]] + t[1..] && u == [u[0]] + u[1..];
    }
  }
}
