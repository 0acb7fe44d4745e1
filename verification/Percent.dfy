/** Percent-encoding as the execution envelope reads it (config-ui/execution_envelope.py): a path
    segment is checked and decoded, a query is split and decoded, and nothing is repaired. */
module Percent {
  import opened Wrappers
  import opened CanonicalText

  // ---------------------------------------------------------------- strict UTF-8

  /** The bits of a byte below a power of two. */
  function Bits(x: nat, m: nat): (r: nat)
    requires m > 0
    ensures r < m
  {
    x % m
  }

  /** The code that the first bytes would stand for, by the pattern of the leading one. */
  function Candidate(b: seq<Byte>): nat
    requires b != []
  {
    if b[0] < 0xC0 || |b| < 2 then b[0]
    else if b[0] < 0xE0 || |b| < 3 then Bits(b[0], 0x20) * 0x40 + Bits(b[1], 0x40)
    else if b[0] < 0xF0 || |b| < 4 then Bits(b[0], 0x10) * 0x1000 + Bits(b[1], 0x40) * 0x40 + Bits(b[2], 0x40)
    else Bits(b[0], 0x08) * 0x40000 + Bits(b[1], 0x40) * 0x1000 + Bits(b[2], 0x40) * 0x40 + Bits(b[3], 0x40)
  }

  predicate Leads(b: seq<Byte>) {
    b != [] && Candidate(b) < 0x110000 && !IsSurrogate(Candidate(b)) && Utf8Code(Candidate(b)) <= b
  }

  /** bytes.decode("utf-8", "strict"). */
  function Utf8Decode(b: seq<Byte>): Option<Text> {
    if b == [] then Some([])
    else if !Leads(b) then None
    else
      var rest := Utf8Decode(b[|Utf8Code(Candidate(b))|..]);
      if rest.None? then None else Some([Candidate(b)] + rest.value)
  }

  predicate Mark(high: nat, m: nat) {
    || (high == 0x80 && m == 0x40) || (high == 0xC0 && m == 0x20)
    || (high == 0xE0 && m == 0x10) || (high == 0xF0 && m == 0x08)
  }

  lemma Marked(high: nat, m: nat, low: nat)
    requires Mark(high, m) && low < m
    ensures m > 0 && Bits(high + low, m) == low
  {
    if m == 0x40 {
      assert (0x80 + low) % 0x40 == low;
    } else if m == 0x20 {
      assert (0xC0 + low) % 0x20 == low;
    } else if m == 0x10 {
      assert (0xE0 + low) % 0x10 == low;
    } else {
      assert (0xF0 + low) % 0x08 == low;
    }
  }

  lemma CandidateFound(c: Code, r: seq<Byte>)
    ensures Candidate(Utf8Code(c) + r) == c
  {
    hide Bits;
    Groups(c);
    var x, b := Utf8Code(c), Utf8Code(c) + r;
    assert forall k :: 0 <= k < |x| ==> b[k] == x[k];
    Marked(0x80, 0x40, c % 0x40);
    if 0x80 <= c < 0x800 {
      Marked(0xC0, 0x20, c / 0x40);
    } else if 0x800 <= c < 0x10000 {
      Marked(0xE0, 0x10, c / 0x1000);
      Marked(0x80, 0x40, c / 0x40 % 0x40);
    } else if c >= 0x10000 {
      Marked(0xF0, 0x08, c / 0x40000);
      Marked(0x80, 0x40, c / 0x1000 % 0x40);
      Marked(0x80, 0x40, c / 0x40 % 0x40);
    }
  }

  /** Decoding succeeds exactly on the encodings, and gives back what was encoded. */
  lemma {:induction false} DecodesIff(b: seq<Byte>, t: Text)
    ensures Utf8Decode(b) == Some(t) <==> Encodable(t) && Utf8(t) == b
    decreases |b|
  {
    if b == [] {
      if t != [] {
        assert Utf8Code(t[0]) != [];
      }
    } else if Leads(b) {
      var c := Candidate(b);
      var rest := b[|Utf8Code(c)|..];
      assert b == Utf8Code(c) + rest;
      if t != [] && Utf8(t) == b {
        Utf8CodeUnique(t[0], c, Utf8(t[1..]), rest);
      }
      if t != [] {
        DecodesIff(rest, t[1..]);
        assert t == [t[0]] + t[1..];
        EncodableCons(t);
      }
    } else if t != [] && Encodable(t) && Utf8(t) == b {
      CandidateFound(t[0], Utf8(t[1..]));
    }
  }

  lemma EncodableCons(t: Text)
    requires t != []
    ensures Encodable(t) <==> !IsSurrogate(t[0]) && Encodable(t[1..])
  {
    assert t == [t[0]] + t[1..];
  }

  lemma {:induction false} Utf8Concat(t: Text, u: Text)
    ensures Utf8(t + u) == Utf8(t) + Utf8(u)
    decreases |t|
  {
    hide Utf8Code;
    if t == [] {
      assert t + u == u;
    } else {
      Utf8Concat(t[1..], u);
      assert (t + u)[1..] == t[1..] + u && (t + u)[0] == t[0];
      Regroup(Utf8Code(t[0]), Utf8(t[1..]), Utf8(u));
    }
  }

  lemma Regroup(a: seq<Byte>, b: seq<Byte>, c: seq<Byte>)
    ensures a + (b + c) == (a + b) + c
  {
  }

  // ---------------------------------------------------------------- escapes

  const PERCENT: Code := 0x25

  predicate IsUpperHex(c: Code) {
    0x30 <= c <= 0x39 || 0x41 <= c <= 0x46
  }

  predicate IsHex(c: Code) {
    IsUpperHex(c) || 0x61 <= c <= 0x66
  }

  function HexValue(c: Code): (v: nat)
    requires IsHex(c)
    ensures v < 16
  {
    if c <= 0x39 then c - 0x30 else if c <= 0x46 then c - 0x37 else c - 0x57
  }

  /** A character that stands for itself, or a percent sign with two hex digits. */
  datatype Token = Literal(c: Code) | Escaped(b: Byte, upper: bool)

  predicate EscapeAt(s: Text) {
    |s| >= 3 && s[0] == PERCENT && IsHex(s[1]) && IsHex(s[2])
  }

  function EscapeOf(s: Text): Token
    requires EscapeAt(s)
  {
    Escaped(16 * HexValue(s[1]) + HexValue(s[2]), IsUpperHex(s[1]) && IsUpperHex(s[2]))
  }

  /** The escapes that re.finditer meets from left to right, and what stands between them. */
  function Tokens(s: Text): seq<Token> {
    if s == [] then []
    else if EscapeAt(s) then [EscapeOf(s)] + Tokens(s[3..])
    else [Literal(s[0])] + Tokens(s[1..])
  }

  predicate IsAscii(t: Token) {
    t.Escaped? || t.c < 0x80
  }

  function TokenBytes(t: Token): seq<Byte> {
    if t.Escaped? then [t.b] else Utf8Code(t.c)
  }

  function Bytes(ts: seq<Token>): seq<Byte> {
    if ts == [] then [] else TokenBytes(ts[0]) + Bytes(ts[1..])
  }

  /** How far the ASCII run at the front reaches. */
  function AsciiRun(ts: seq<Token>): (n: nat)
    ensures n <= |ts| && (ts != [] && IsAscii(ts[0]) ==> n > 0)
  {
    if ts == [] || !IsAscii(ts[0]) then 0 else 1 + AsciiRun(ts[1..])
  }

  /** urllib.parse.unquote with errors="strict": every ASCII run is turned into bytes and decoded
      by itself, every other character stays; None where a run is no UTF-8. */
  function Unquote(ts: seq<Token>): Option<Text>
    decreases |ts|
  {
    if ts == [] then Some([])
    else if !IsAscii(ts[0]) then
      var rest := Unquote(ts[1..]);
      if rest.None? then None else Some([ts[0].c] + rest.value)
    else
      var n := AsciiRun(ts);
      var run, rest := Utf8Decode(Bytes(ts[..n])), Unquote(ts[n..]);
      if run.None? || rest.None? then None else Some(run.value + rest.value)
  }

  lemma {:induction false} BytesConcat(ts: seq<Token>, us: seq<Token>)
    ensures Bytes(ts + us) == Bytes(ts) + Bytes(us)
    decreases |ts|
  {
    hide TokenBytes;
    if ts == [] {
      assert ts + us == us;
    } else {
      BytesConcat(ts[1..], us);
      assert (ts + us)[1..] == ts[1..] + us && (ts + us)[0] == ts[0];
      Regroup(TokenBytes(ts[0]), Bytes(ts[1..]), Bytes(us));
    }
  }

  /** The decoded text has the very bytes that were spelled. */
  lemma {:induction false} UnquoteKeepsBytes(ts: seq<Token>)
    requires Unquote(ts).Some?
    ensures Utf8(Unquote(ts).value) == Bytes(ts)
    decreases |ts|
  {
    hide Utf8Decode, Utf8Code;
    if ts != [] && !IsAscii(ts[0]) {
      UnquoteKeepsBytes(ts[1..]);
      var v := Unquote(ts).value;
      assert v[1..] == Unquote(ts[1..]).value;
    } else if ts != [] {
      hide Utf8, Bytes;
      var n := AsciiRun(ts);
      var run := Utf8Decode(Bytes(ts[..n])).value;
      DecodesIff(Bytes(ts[..n]), run);
      UnquoteKeepsBytes(ts[n..]);
      Utf8Concat(run, Unquote(ts[n..]).value);
      BytesConcat(ts[..n], ts[n..]);
      assert ts[..n] + ts[n..] == ts;
    }
  }

  /** Two spellings decode to one text exactly when they spell the same bytes. */
  lemma SameTextIffSameBytes(ts: seq<Token>, us: seq<Token>)
    requires Unquote(ts).Some? && Unquote(us).Some?
    ensures Unquote(ts) == Unquote(us) <==> Bytes(ts) == Bytes(us)
  {
    UnquoteKeepsBytes(ts);
    UnquoteKeepsBytes(us);
    if Bytes(ts) == Bytes(us) {
      Utf8Injective(Unquote(ts).value, Unquote(us).value);
    }
  }

  // ---------------------------------------------------------------- a path segment

  predicate IsUnreserved(c: nat) {
    || 0x41 <= c <= 0x5A || 0x61 <= c <= 0x7A || 0x30 <= c <= 0x39
    || c == 0x2D || c == 0x2E || c == 0x5F || c == 0x7E
  }

  const DOT: Text := [0x2E]
  const DOTS: Text := [0x2E, 0x2E]

  datatype SegmentError = DotSegment | LowerCaseEscape | UnreservedEscape | Malformed | NotUtf8 | Separator

  function BadEscape(t: Token): Option<SegmentError> {
    if t.Literal? then None
    else if !t.upper then Some(LowerCaseEscape)
    else if IsUnreserved(t.b) then Some(UnreservedEscape)
    else None
  }

  /** What is wrong with the first escape that is wrong. */
  function FirstBad(ts: seq<Token>): Option<SegmentError> {
    if ts == [] then None else if BadEscape(ts[0]).Some? then BadEscape(ts[0]) else FirstBad(ts[1..])
  }

  predicate IsSeparator(c: Code) {
    c == 0x2F || c == BACKSLASH || c == 0
  }

  /** _check_segment. */
  function CheckSegment(s: Text): Result<Text, SegmentError> {
    var ts := Tokens(s);
    if s == DOT || s == DOTS then Err(DotSegment)
    else if FirstBad(ts).Some? then Err(FirstBad(ts).value)
    else if Literal(PERCENT) in ts then Err(Malformed)
    else if Unquote(ts).None? then Err(NotUtf8)
    else if exists c :: c in Unquote(ts).value && IsSeparator(c) then Err(Separator)
    else Ok(Unquote(ts).value)
  }

  /** The loop over the escapes. */
  method ComputeSegment(s: Text) returns (r: Result<Text, SegmentError>)
    ensures r == CheckSegment(s)
  {
    if s == DOT || s == DOTS {
      return Err(DotSegment);
    }
    var ts := Tokens(s);
    var i := 0;
    while i < |ts|
      invariant 0 <= i <= |ts| && FirstBad(ts) == FirstBad(ts[i..])
    {
      if ts[i].Escaped? {
        if !ts[i].upper {
          return Err(LowerCaseEscape);
        }
        if IsUnreserved(ts[i].b) {
          return Err(UnreservedEscape);
        }
      }
      i := i + 1;
    }
    if Literal(PERCENT) in ts {
      return Err(Malformed);
    }
    var value := Unquote(ts);
    if value.None? {
      return Err(NotUtf8);
    }
    i := 0;
    while i < |value.value|
      invariant 0 <= i <= |value.value| && forall k :: 0 <= k < i ==> !IsSeparator(value.value[k])
    {
      if IsSeparator(value.value[i]) {
        return Err(Separator);
      }
      i := i + 1;
    }
    return Ok(value.value);
  }

  // ---------------------------------------------------------------- one spelling or several

  /** Characters that can be written in one way only: an unreserved one never as an escape, the
      percent sign never as itself, and a surrogate, which no UTF-8 stands for, never as escapes. */
  predicate IsRigid(c: Code) {
    IsUnreserved(c) || c == PERCENT || IsSurrogate(c)
  }

  predicate AllRigid(v: Text) {
    forall k :: 0 <= k < |v| ==> IsRigid(v[k])
  }

  lemma {:induction false} NoneBad(ts: seq<Token>, k: nat)
    requires FirstBad(ts).None? && k < |ts|
    ensures BadEscape(ts[k]).None?
    decreases |ts|
  {
    if k > 0 {
      NoneBad(ts[1..], k - 1);
    }
  }

  lemma {:induction false} FirstBadConcat(ts: seq<Token>, us: seq<Token>)
    ensures FirstBad(ts + us) == if FirstBad(ts).Some? then FirstBad(ts) else FirstBad(us)
    decreases |ts|
  {
    if ts == [] {
      assert ts + us == us;
    } else {
      FirstBadConcat(ts[1..], us);
      assert (ts + us)[1..] == ts[1..] + us && (ts + us)[0] == ts[0];
    }
  }

  /** What a check of the escapes leaves. */
  predicate Clean(ts: seq<Token>) {
    FirstBad(ts).None? && Literal(PERCENT) !in ts
  }

  lemma CleanConcat(ts: seq<Token>, us: seq<Token>)
    ensures Clean(ts + us) <==> Clean(ts) && Clean(us)
  {
    FirstBadConcat(ts, us);
  }

  lemma {:induction false} AsciiRunAt(ts: seq<Token>)
    ensures forall k :: 0 <= k < AsciiRun(ts) ==> IsAscii(ts[k])
    decreases |ts|
  {
    if ts != [] && IsAscii(ts[0]) {
      AsciiRunAt(ts[1..]);
      forall k | 0 <= k < AsciiRun(ts)
        ensures IsAscii(ts[k])
      {
        if k > 0 {
          assert ts[k] == ts[1..][k - 1];
        }
      }
    }
  }

  /** ASCII tokens spell one byte each. */
  lemma {:induction false} OneByteEach(ts: seq<Token>)
    requires forall k :: 0 <= k < |ts| ==> IsAscii(ts[k])
    ensures |Bytes(ts)| == |ts| && forall k :: 0 <= k < |ts| ==> TokenBytes(ts[k]) == [Bytes(ts)[k]]
    decreases |ts|
  {
    if ts != [] {
      OneByteEach(ts[1..]);
      assert Bytes(ts) == TokenBytes(ts[0]) + Bytes(ts[1..]) && |TokenBytes(ts[0])| == 1;
      forall k | 0 <= k < |ts|
        ensures TokenBytes(ts[k]) == [Bytes(ts)[k]]
      {
        if k > 0 {
          assert ts[k] == ts[1..][k - 1] && Bytes(ts)[k] == Bytes(ts[1..])[k - 1];
        }
      }
    }
  }

  lemma {:induction false} PlainUtf8(v: Text)
    requires forall k :: 0 <= k < |v| ==> v[k] < 0x80
    ensures |Utf8(v)| == |v| && forall k :: 0 <= k < |v| ==> Utf8(v)[k] == v[k]
    decreases |v|
  {
    if v != [] {
      PlainUtf8(v[1..]);
    }
  }

  /** The one token for a rigid character. */
  function RigidToken(c: Code): Token {
    if c == PERCENT then Escaped(0x25, true) else Literal(c)
  }

  predicate Rigidly(ts: seq<Token>, v: Text) {
    |ts| == |v| && forall k :: 0 <= k < |v| ==> ts[k] == RigidToken(v[k])
  }

  lemma RigidRun(ts: seq<Token>, v: Text)
    requires Clean(ts) && (forall k :: 0 <= k < |ts| ==> IsAscii(ts[k]))
    requires Utf8Decode(Bytes(ts)) == Some(v) && AllRigid(v)
    ensures Rigidly(ts, v)
  {
    hide Utf8, Utf8Decode, Bytes, FirstBad;
    DecodesIff(Bytes(ts), v);
    PlainUtf8(v);
    OneByteEach(ts);
    forall k | 0 <= k < |v|
      ensures ts[k] == RigidToken(v[k])
    {
      NoneBad(ts, k);
      assert TokenBytes(ts[k]) == [v[k]];
      assert ts[k] in ts;
    }
  }

  /** Tokens without a bad escape that decode to rigid characters are those characters' tokens. */
  lemma {:induction false} RigidTokens(ts: seq<Token>, v: Text)
    requires Clean(ts) && Unquote(ts) == Some(v) && AllRigid(v)
    ensures Rigidly(ts, v)
    decreases |ts|
  {
    hide Utf8Decode, Bytes;
    if ts != [] {
      var n := if IsAscii(ts[0]) then AsciiRun(ts) else 1;
      var rest := Unquote(ts[n..]).value;
      var m := |v| - |rest|;
      assert v[..m] + v[m..] == v && v[m..] == rest && ts[..n] + ts[n..] == ts;
      CleanConcat(ts[..n], ts[n..]);
      RigidTokens(ts[n..], v[m..]);
      if IsAscii(ts[0]) {
        AsciiRunAt(ts);
        RigidRun(ts[..n], v[..m]);
      }
    }
  }

  /** With upper-case digits a text can be read off its tokens. */
  lemma {:induction false} TokensInjective(s: Text, t: Text)
    requires Tokens(s) == Tokens(t) && FirstBad(Tokens(s)).None?
    ensures s == t
    decreases |s|
  {
    if s != [] && t != [] {
      var n := if EscapeAt(s) then 3 else 1;
      assert EscapeAt(s) == EscapeAt(t);
      assert Tokens(s)[1..] == Tokens(s[n..]) && Tokens(t)[1..] == Tokens(t[n..]);
      TokensInjective(s[n..], t[n..]);
      assert s[..n] == t[..n];
      assert s == s[..n] + s[n..] && t == t[..n] + t[n..];
    }
  }

  lemma RigidOneSpelling(s: Text, t: Text, v: Text)
    requires CheckSegment(s) == Ok(v) && CheckSegment(t) == Ok(v) && AllRigid(v)
    ensures s == t
  {
    hide Tokens, Unquote, FirstBad;
    RigidTokens(Tokens(s), v);
    RigidTokens(Tokens(t), v);
    assert Tokens(s) == Tokens(t);
    TokensInjective(s, t);
  }

  predicate AllUnreserved(v: Text) {
    forall k :: 0 <= k < |v| ==> IsUnreserved(v[k])
  }

  lemma {:induction false} LiteralTokens(s: Text)
    requires PERCENT !in s
    ensures |Tokens(s)| == |s| && forall k :: 0 <= k < |s| ==> Tokens(s)[k] == Literal(s[k])
    decreases |s|
  {
    if s != [] {
      LiteralTokens(s[1..]);
    }
  }

  /** A value of unreserved characters has one spelling: itself. */
  lemma UnreservedOneSpelling(s: Text, v: Text)
    requires CheckSegment(s) == Ok(v) && AllUnreserved(v)
    ensures s == v
  {
    hide Unquote, FirstBad;
    RigidTokens(Tokens(s), v);
    LiteralTokens(v);
    assert Tokens(s) == Tokens(v);
    TokensInjective(s, v);
  }

  // ---------------------------------------------------------------- every value has a spelling

  function UpperHex(d: nat): (c: Code)
    requires d < 16
    ensures IsUpperHex(c) && HexValue(c) == d
  {
    if d < 10 then 0x30 + d else 0x37 + d
  }

  /** One byte as a client writes it: literal when unreserved, an upper-case escape otherwise. */
  function Spelled(b: Byte): (s: Text)
    ensures s != []
  {
    if IsUnreserved(b) then [b] else [PERCENT, UpperHex(b / 16), UpperHex(b % 16)]
  }

  function SpellBytes(b: seq<Byte>): Text {
    if b == [] then [] else Spelled(b[0]) + SpellBytes(b[1..])
  }

  function Quote(v: Text): Text {
    SpellBytes(Utf8(v))
  }

  function TokenOf(b: Byte): Token {
    if IsUnreserved(b) then Literal(b) else Escaped(b, true)
  }

  lemma SpelledToken(b: Byte, rest: Text)
    ensures Tokens(Spelled(b) + rest) == [TokenOf(b)] + Tokens(rest)
  {
    var s := Spelled(b) + rest;
    if IsUnreserved(b) {
      assert s[1..] == rest && !EscapeAt(s);
    } else {
      assert s[3..] == rest && s[1] == UpperHex(b / 16) && s[2] == UpperHex(b % 16);
      assert EscapeAt(s) && EscapeOf(s) == Escaped(b, true);
    }
  }

  lemma {:induction false} SpelledTokens(b: seq<Byte>)
    ensures Bytes(Tokens(SpellBytes(b))) == b && AsciiRun(Tokens(SpellBytes(b))) == |Tokens(SpellBytes(b))|
    ensures FirstBad(Tokens(SpellBytes(b))).None? && Literal(PERCENT) !in Tokens(SpellBytes(b))
    decreases |b|
  {
    if b != [] {
      SpelledTokens(b[1..]);
      SpelledToken(b[0], SpellBytes(b[1..]));
      var ts := Tokens(SpellBytes(b));
      assert ts[0] == TokenOf(b[0]) && ts[1..] == Tokens(SpellBytes(b[1..]));
      assert TokenBytes(ts[0]) == [b[0]] && b == [b[0]] + b[1..];
    }
  }

  lemma EmptyUtf8(v: Text)
    ensures Utf8(v) == [] <==> v == []
  {
  }

  lemma AsciiUnquoted(ts: seq<Token>, v: Text)
    requires AsciiRun(ts) == |ts| && Bytes(ts) == Utf8(v) && Encodable(v)
    ensures Unquote(ts) == Some(v)
  {
    DecodesIff(Utf8(v), v);
    if ts == [] {
      EmptyUtf8(v);
    } else {
      assert ts[..|ts|] == ts && ts[|ts|..] == [] && IsAscii(ts[0]);
      assert Unquote(ts[|ts|..]) == Some([]);
      assert v + [] == v;
    }
  }

  /** Every text without a separator, other than a dot segment, has a spelling that is accepted and
      read back as that text. */
  lemma QuotedAccepted(v: Text)
    requires Encodable(v) && (forall c :: c in v ==> !IsSeparator(c))
    requires Quote(v) != DOT && Quote(v) != DOTS
    ensures CheckSegment(Quote(v)) == Ok(v)
  {
    SpelledTokens(Utf8(v));
    AsciiUnquoted(Tokens(Quote(v)), v);
  }

  /** What is accepted has no separator left in it and spells the bytes of its value. */
  lemma AcceptedMeans(s: Text, v: Text)
    requires CheckSegment(s) == Ok(v)
    ensures (forall c :: c in v ==> !IsSeparator(c)) && Bytes(Tokens(s)) == Utf8(v)
  {
    UnquoteKeepsBytes(Tokens(s));
  }

  predicate IsQuoted(c: Code) {
    IsUnreserved(c) || c == PERCENT
  }

  lemma {:induction false} QuotedCharacters(b: seq<Byte>)
    ensures forall c :: c in SpellBytes(b) ==> IsQuoted(c)
    decreases |b|
  {
    if b != [] {
      QuotedCharacters(b[1..]);
    }
  }

  // ---------------------------------------------------------------- two spellings

  /** One character, by itself where that is asked for and possible, and as escapes otherwise. */
  function Written(c: Code, plain: bool): Text {
    if c != PERCENT && (plain || IsSurrogate(c)) then [c] else SpellBytes(Utf8Code(c))
  }

  function Respelled(v: Text, plain: bool): Text {
    if v == [] then [] else Written(v[0], plain) + Respelled(v[1..], plain)
  }

  lemma {:induction false} SpellBytesSplit(b: seq<Byte>, rest: Text)
    ensures Tokens(SpellBytes(b) + rest) == Tokens(SpellBytes(b)) + Tokens(rest)
    decreases |b|
  {
    assert Tokens([]) == [];
    hide Tokens, Spelled;
    if b == [] {
      assert SpellBytes(b) + rest == rest;
    } else {
      SpellBytesSplit(b[1..], rest);
      SpelledToken(b[0], SpellBytes(b[1..]));
      SpelledToken(b[0], SpellBytes(b[1..]) + rest);
      assert SpellBytes(b) + rest == Spelled(b[0]) + (SpellBytes(b[1..]) + rest);
    }
  }

  lemma WrittenSplit(c: Code, plain: bool, rest: Text)
    ensures Tokens(Written(c, plain) + rest) == Tokens(Written(c, plain)) + Tokens(rest)
  {
    if Written(c, plain) == [c] && c != PERCENT {
      LiteralTokens([c]);
      assert ([c] + rest)[1..] == rest && !EscapeAt([c] + rest);
      assert Tokens([c]) == [Literal(c)];
    } else {
      SpellBytesSplit(Utf8Code(c), rest);
    }
  }

  lemma {:induction false} AsciiRunConcat(ts: seq<Token>, us: seq<Token>)
    requires AsciiRun(ts) == |ts|
    ensures AsciiRun(ts + us) == |ts| + AsciiRun(us)
    decreases |ts|
  {
    if ts == [] {
      assert ts + us == us;
    } else {
      AsciiRunConcat(ts[1..], us);
      assert (ts + us)[1..] == ts[1..] + us && (ts + us)[0] == ts[0];
    }
  }

  lemma CodeDecoded(c: Code, b: seq<Byte>, w: Text)
    requires Utf8Decode(b) == Some(w) && !IsSurrogate(c)
    ensures Utf8Decode(Utf8Code(c) + b) == Some([c] + w)
  {
    hide Utf8Code, Utf8Decode;
    DecodesIff(b, w);
    EncodableCons([c] + w);
    assert ([c] + w)[1..] == w;
    DecodesIff(Utf8Code(c) + b, [c] + w);
  }

  /** Where the first run ends, what it decodes to and what the rest does. */
  lemma UnquoteParts(us: seq<Token>, v: Text)
    requires Unquote(us) == Some(v)
    ensures var m := AsciiRun(us);
      var run, rest := Utf8Decode(Bytes(us[..m])), Unquote(us[m..]);
      run.Some? && rest.Some? && run.value + rest.value == v
  {
    var m := AsciiRun(us);
    if m == 0 {
      assert us[..m] == [] && us[m..] == us && Bytes([]) == [] && [] + v == v;
    }
  }

  lemma PartsUnquote(ts: seq<Token>, n: nat, w: Text, r: Text)
    requires 0 < n <= |ts| && n == AsciiRun(ts)
    requires Utf8Decode(Bytes(ts[..n])) == Some(w) && Unquote(ts[n..]) == Some(r)
    ensures Unquote(ts) == Some(w + r)
  {
    hide Utf8Decode, Bytes;
    assert IsAscii(ts[0]);
  }

  /** The escapes of one character in front of whatever follows, in the same run or not. */
  lemma EscapesUnquoted(ts: seq<Token>, c: Code, us: seq<Token>, v: Text)
    requires ts != [] && AsciiRun(ts) == |ts| && Bytes(ts) == Utf8Code(c) && !IsSurrogate(c)
    requires Unquote(us) == Some(v)
    ensures Unquote(ts + us) == Some([c] + v)
  {
    hide Utf8Code, Utf8Decode, Unquote, AsciiRun, Bytes;
    var all, m := ts + us, AsciiRun(us);
    AsciiRunConcat(ts, us);
    UnquoteParts(us, v);
    BytesConcat(ts, us[..m]);
    var w, r := Utf8Decode(Bytes(us[..m])).value, Unquote(us[m..]).value;
    CodeDecoded(c, Bytes(us[..m]), w);
    var n := |ts| + m;
    assert all[..n] == ts + us[..m] && all[n..] == us[m..];
    PartsUnquote(all, n, [c] + w, r);
    assert [c] + v == ([c] + w) + r;
  }

  /** A character that stands for itself. */
  lemma LiteralUnquoted(c: Code, us: seq<Token>, v: Text)
    requires Unquote(us) == Some(v)
    ensures Unquote([Literal(c)] + us) == Some([c] + v)
  {
    var all := [Literal(c)] + us;
    assert all[1..] == us;
    if c < 0x80 {
      var one := [Literal(c)];
      assert one[1..] == [] && AsciiRun(one) == 1 && Bytes(one) == Utf8Code(c) + [];
      EscapesUnquoted(one, c, us, v);
    }
  }

  lemma WrittenUnquoted(c: Code, plain: bool, us: seq<Token>, v: Text)
    requires Unquote(us) == Some(v)
    ensures Clean(Tokens(Written(c, plain))) && Unquote(Tokens(Written(c, plain)) + us) == Some([c] + v)
  {
    hide Unquote, Tokens;
    if c != PERCENT && (plain || IsSurrogate(c)) {
      LiteralTokens([c]);
      var ts := [Literal(c)];
      assert ts[1..] == [] && FirstBad(ts).None?;
      assert Clean(ts) && Tokens(Written(c, plain)) == ts;
      LiteralUnquoted(c, us, v);
    } else {
      SpelledTokens(Utf8Code(c));
      assert Bytes([]) == [];
      EscapesUnquoted(Tokens(SpellBytes(Utf8Code(c))), c, us, v);
    }
  }

  lemma {:induction false} RespelledUnquoted(v: Text, plain: bool)
    ensures Clean(Tokens(Respelled(v, plain))) && Unquote(Tokens(Respelled(v, plain))) == Some(v)
    decreases |v|
  {
    hide Written;
    if v != [] {
      var rest := Respelled(v[1..], plain);
      RespelledUnquoted(v[1..], plain);
      WrittenUnquoted(v[0], plain, Tokens(rest), v[1..]);
      WrittenSplit(v[0], plain, rest);
      CleanConcat(Tokens(Written(v[0], plain)), Tokens(rest));
      assert [v[0]] + v[1..] == v;
    }
  }

  lemma {:induction false} PlainKeeps(v: Text, k: nat)
    requires k < |v| && v[k] != PERCENT
    ensures v[k] in Respelled(v, true)
    decreases |v|
  {
    if k > 0 {
      PlainKeeps(v[1..], k - 1);
    }
  }

  /** Escaping leaves only rigid characters, and makes at least three of one that is not. */
  lemma {:induction false} EscapedIsRigid(v: Text)
    ensures AllRigid(Respelled(v, false))
    ensures AllRigid(v) || |Respelled(v, false)| >= 3
    decreases |v|
  {
    hide SpellBytes;
    if v != [] {
      EscapedIsRigid(v[1..]);
      QuotedCharacters(Utf8Code(v[0]));
      var first := Written(v[0], false);
      forall k | 0 <= k < |first|
        ensures IsRigid(first[k])
      {
        assert first[k] in first;
      }
      assert v == [v[0]] + v[1..];
      if !IsRigid(v[0]) {
        SpelledLong(Utf8Code(v[0]));
      }
    }
  }

  lemma SpelledLong(b: seq<Byte>)
    requires b != [] && !IsUnreserved(b[0])
    ensures |SpellBytes(b)| >= 3
  {
  }

  /** A value that was accepted is accepted as its escapes, and with its characters written out. */
  lemma RespelledAccepted(s: Text, v: Text, plain: bool)
    requires CheckSegment(s) == Ok(v) && !AllRigid(v)
    ensures CheckSegment(Respelled(v, plain)) == Ok(v)
  {
    hide Tokens, Unquote, Respelled;
    RespelledUnquoted(v, plain);
    var k :| 0 <= k < |v| && !IsRigid(v[k]);
    PlainKeeps(v, k);
    EscapedIsRigid(v);
  }

  /** An accepted value has one spelling if and only if all its characters are rigid; with any
      other character, writing that out or escaping it gives one resource two paths. */
  lemma OneSpellingIff(s: Text, v: Text)
    requires CheckSegment(s) == Ok(v)
    ensures (forall t :: CheckSegment(t) == Ok(v) ==> t == s) <==> AllRigid(v)
  {
    hide CheckSegment;
    if AllRigid(v) {
      forall t | CheckSegment(t) == Ok(v)
        ensures t == s
      {
        RigidOneSpelling(t, s, v);
      }
    } else {
      RespelledAccepted(s, v, true);
      RespelledAccepted(s, v, false);
      var k :| 0 <= k < |v| && !IsRigid(v[k]);
      PlainKeeps(v, k);
      EscapedIsRigid(v);
      assert Respelled(v, true) != Respelled(v, false);
    }
  }

  // ---------------------------------------------------------------- a query

  datatype Pair = Pair(name: Text, value: Text)

  const AMPERSAND: Code := 0x26
  const EQUALS: Code := 0x3D
  const PLUS: Code := 0x2B
  const SPACE: Code := 0x20

  /** str.split at one character. */
  function SplitAt(t: Text, sep: Code): (parts: seq<Text>)
    ensures |parts| > 0
  {
    if t == [] then [[]]
    else
      var rest := SplitAt(t[1..], sep);
      if t[0] == sep then [[]] + rest else [[t[0]] + rest[0]] + rest[1..]
  }

  function PlusToSpace(t: Text): Text {
    seq(|t|, k requires 0 <= k < |t| => if t[k] == PLUS then SPACE else t[k])
  }

  function FieldText(t: Text): Option<Text> {
    Unquote(Tokens(PlusToSpace(t)))
  }

  /** The index of the first equals sign, or the length. */
  function EqualsAt(t: Text): (n: nat)
    ensures n <= |t| && (n < |t| ==> t[n] == EQUALS)
  {
    if t == [] || t[0] == EQUALS then 0 else 1 + EqualsAt(t[1..])
  }

  /** One field of parse_qsl with strict parsing and strict decoding: None raises. */
  function ParseField(t: Text): Option<Pair> {
    var n := EqualsAt(t);
    if n == |t| then None
    else
      var name, value := FieldText(t[..n]), FieldText(t[n + 1..]);
      if name.None? || value.None? then None else Some(Pair(name.value, value.value))
  }

  function ParseFields(ts: seq<Text>): Option<seq<Pair>> {
    if ts == [] then Some([])
    else
      var first, rest := ParseField(ts[0]), ParseFields(ts[1..]);
      if first.None? || rest.None? then None else Some([first.value] + rest.value)
  }

  predicate Repeats(pairs: seq<Pair>, repeatable: set<Text>) {
    exists i, j :: 0 <= i < j < |pairs| && pairs[i].name == pairs[j].name && pairs[j].name !in repeatable
  }

  /** query_pairs; None where it raises. */
  function QueryPairs(query: Text, repeatable: set<Text>): Option<seq<Pair>> {
    var pairs := ParseFields(SplitAt(query, AMPERSAND));
    if query == [] then Some([])
    else if 0 in query || pairs.None? || Repeats(pairs.value, repeatable) then None
    else pairs
  }

  /** The parse, and the loop over its pairs with the names seen so far: a query is refused exactly
      when it has a NUL, a field without an equals sign, a part that is no UTF-8, or a second use
      of a name that is not repeatable; otherwise its pairs come in their order. */
  method ComputeQueryPairs(query: Text, repeatable: set<Text>) returns (r: Option<seq<Pair>>)
    ensures r == QueryPairs(query, repeatable)
  {
    hide ParseFields, SplitAt;
    if query == [] {
      return Some([]);
    }
    if 0 in query {
      return None;
    }
    var parsed := ParseFields(SplitAt(query, AMPERSAND));
    if parsed.None? {
      return None;
    }
    var pairs := parsed.value;
    var seen: set<Text> := {};
    var i := 0;
    while i < |pairs|
      invariant 0 <= i <= |pairs|
      invariant forall n :: n in seen <==> exists j :: 0 <= j < i && pairs[j].name == n
      invariant !Repeats(pairs[..i], repeatable)
    {
      if pairs[i].name in seen && pairs[i].name !in repeatable {
        return None;
      }
      seen := seen + {pairs[i].name};
      i := i + 1;
    }
    assert pairs[..i] == pairs;
    return Some(pairs);
  }

  // ---------------------------------------------------------------- every list of pairs has a query

  lemma QuotedFieldText(v: Text)
    requires Encodable(v)
    ensures FieldText(Quote(v)) == Some(v)
  {
    QuotedCharacters(Utf8(v));
    assert PlusToSpace(Quote(v)) == Quote(v) by {
      forall k | 0 <= k < |Quote(v)|
        ensures Quote(v)[k] != PLUS
      {
        assert Quote(v)[k] in Quote(v);
      }
    }
    SpelledTokens(Utf8(v));
    AsciiUnquoted(Tokens(Quote(v)), v);
  }

  function FormatField(p: Pair): Text {
    Quote(p.name) + ([EQUALS] + Quote(p.value))
  }

  function FormatQuery(pairs: seq<Pair>): Text
    requires pairs != []
  {
    if |pairs| == 1 then FormatField(pairs[0])
    else FormatField(pairs[0]) + ([AMPERSAND] + FormatQuery(pairs[1..]))
  }

  lemma {:induction false} EqualsAfter(a: Text, b: Text)
    requires EQUALS !in a
    ensures EqualsAt(a + ([EQUALS] + b)) == |a|
    decreases |a|
  {
    var t := a + ([EQUALS] + b);
    if a != [] {
      EqualsAfter(a[1..], b);
      assert t[1..] == a[1..] + ([EQUALS] + b) && t[0] == a[0];
    }
  }

  lemma {:induction false} SplitAfter(a: Text, sep: Code, b: Text)
    requires sep !in a
    ensures SplitAt(a + ([sep] + b), sep) == [a] + SplitAt(b, sep)
    decreases |a|
  {
    var t := a + ([sep] + b);
    if a == [] {
      assert t[1..] == b && t[0] == sep;
    } else {
      SplitAfter(a[1..], sep, b);
      assert t[1..] == a[1..] + ([sep] + b) && t[0] == a[0];
      var rest := SplitAt(t[1..], sep);
      assert rest[0] == a[1..] && rest[1..] == SplitAt(b, sep) && [a[0]] + a[1..] == a;
    }
  }

  lemma {:induction false} SplitNone(a: Text, sep: Code)
    requires sep !in a
    ensures SplitAt(a, sep) == [a]
    decreases |a|
  {
    if a != [] {
      SplitNone(a[1..], sep);
      assert [a[0]] + a[1..] == a;
    }
  }

  predicate PairEncodable(p: Pair) {
    Encodable(p.name) && Encodable(p.value)
  }

  lemma QuotedPlain(v: Text)
    ensures AMPERSAND !in Quote(v) && EQUALS !in Quote(v) && 0 !in Quote(v)
  {
    QuotedCharacters(Utf8(v));
  }

  lemma FormattedField(p: Pair)
    requires PairEncodable(p)
    ensures ParseField(FormatField(p)) == Some(p) && AMPERSAND !in FormatField(p) && 0 !in FormatField(p)
  {
    hide Quote, FieldText, Encodable;
    QuotedPlain(p.name);
    QuotedPlain(p.value);
    EqualsAfter(Quote(p.name), Quote(p.value));
    var t := FormatField(p);
    assert t[..|Quote(p.name)|] == Quote(p.name) && t[|Quote(p.name)| + 1..] == Quote(p.value);
    QuotedFieldText(p.name);
    QuotedFieldText(p.value);
  }

  lemma {:induction false} FormattedFields(pairs: seq<Pair>)
    requires pairs != [] && forall p :: p in pairs ==> PairEncodable(p)
    ensures ParseFields(SplitAt(FormatQuery(pairs), AMPERSAND)) == Some(pairs)
    ensures FormatQuery(pairs) != [] && 0 !in FormatQuery(pairs)
    decreases |pairs|
  {
    hide FormatField, ParseField;
    FormattedField(pairs[0]);
    var field := FormatField(pairs[0]);
    HasEquals(pairs[0]);
    if |pairs| == 1 {
      SplitNone(field, AMPERSAND);
      var fields: seq<Text> := [field];
      assert fields[1..] == [] && pairs == [pairs[0]] && pairs[1..] == [];
      assert ParseFields(fields[1..]) == Some([]) && ParseFields(fields) == Some([pairs[0]] + []);
      assert SplitAt(FormatQuery(pairs), AMPERSAND) == fields && [pairs[0]] + [] == pairs;
    } else {
      FormattedFields(pairs[1..]);
      SplitAfter(field, AMPERSAND, FormatQuery(pairs[1..]));
      assert pairs == [pairs[0]] + pairs[1..];
    }
  }

  lemma HasEquals(p: Pair)
    ensures FormatField(p) != []
  {
  }

  /** Every list of pairs, in its order and with its empty values, has a query that is read as that
      list, provided no name that is not repeatable is used twice. */
  lemma QueryRoundTrip(pairs: seq<Pair>, repeatable: set<Text>)
    requires (forall p :: p in pairs ==> PairEncodable(p)) && !Repeats(pairs, repeatable)
    ensures QueryPairs(if pairs == [] then [] else FormatQuery(pairs), repeatable) == Some(pairs)
  {
    hide ParseFields, SplitAt;
    if pairs != [] {
      FormattedFields(pairs);
    }
  }
}
