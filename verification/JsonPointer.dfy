/** RFC 6901 pointers as the control API reads them (config-ui/control_api.py): a pointer and the
    list of member names and indexes it stands for determine each other. */
module JsonPointer {
  import opened Wrappers
  import opened CanonicalNumber

  datatype PointerError = NoSlash | BadEscape

  // ---------------------------------------------------------------- splitting

  /** str.split("/"). */
  function Split(s: string): (parts: seq<string>)
    ensures |parts| > 0
  {
    if s == "" then [""]
    else if s[0] == '/' then [""] + Split(s[1..])
    else
      var rest := Split(s[1..]);
      [[s[0]] + rest[0]] + rest[1..]
  }

  /** Every part with a slash before it. */
  function Slashed(parts: seq<string>): string {
    if parts == [] then "" else "/" + parts[0] + Slashed(parts[1..])
  }

  predicate NoSlashIn(s: string) {
    forall k :: 0 <= k < |s| ==> s[k] != '/'
  }

  lemma {:induction false} SplitSlashed(parts: seq<string>)
    requires |parts| > 0 && forall k :: 0 <= k < |parts| ==> NoSlashIn(parts[k])
    ensures Split(Slashed(parts)[1..]) == parts
    decreases |parts|, |parts[0]|
  {
    var first, rest := parts[0], parts[1..];
    var s := Slashed(parts)[1..];
    assert s == first + Slashed(rest);
    if first == "" {
      if rest == [] {
        assert s == "";
      } else {
        SplitSlashed(rest);
        assert s[1..] == Slashed(rest)[1..];
      }
    } else {
      var shorter := [first[1..]] + rest;
      assert Slashed(shorter)[1..] == first[1..] + Slashed(rest);
      ShorterFirst(parts, shorter);
      SplitSlashed(shorter);
      assert s[1..] == Slashed(shorter)[1..] && s[0] == first[0];
      assert [first[0]] + first[1..] == first && shorter[1..] == rest && [first] + rest == parts;
    }
  }

  lemma ShorterFirst(parts: seq<string>, shorter: seq<string>)
    requires |parts| > 0 && parts[0] != "" && shorter == [parts[0][1..]] + parts[1..]
    requires forall k :: 0 <= k < |parts| ==> NoSlashIn(parts[k])
    ensures forall k :: 0 <= k < |shorter| ==> NoSlashIn(shorter[k])
  {
  }

  lemma {:induction false} SlashedSplit(s: string)
    ensures Slashed(Split(s)) == "/" + s
    ensures forall k :: 0 <= k < |Split(s)| ==> NoSlashIn(Split(s)[k])
  {
    if s != "" {
      SlashedSplit(s[1..]);
      assert s == [s[0]] + s[1..];
      var rest := Split(s[1..]);
      if s[0] == '/' {
        assert Split(s)[1..] == rest;
      } else {
        assert Split(s)[0] == [s[0]] + rest[0] && Split(s)[1..] == rest[1..];
        SlashedFirst(Split(s), rest, s[0], s[1..]);
      }
    }
  }

  lemma SlashedFirst(parts: seq<string>, rest: seq<string>, c: char, s: string)
    requires parts != [] && rest != [] && parts[0] == [c] + rest[0] && parts[1..] == rest[1..]
    requires Slashed(rest) == "/" + s
    ensures Slashed(parts) == "/" + ([c] + s)
  {
    var tail := rest[0] + Slashed(rest[1..]);
    assert tail == ("/" + tail)[1..] == ("/" + s)[1..] == s;
    assert Slashed(parts) == "/" + ([c] + tail);
  }

  // ---------------------------------------------------------------- escapes

  /** str.replace("~" + code, with). */
  function Replace(s: string, code: char, with: char): string {
    if |s| < 2 then s
    else if s[0] == '~' && s[1] == code then [with] + Replace(s[2..], code, with)
    else [s[0]] + Replace(s[1..], code, with)
  }

  /** Every tilde is followed by 0 or 1: the pattern of bad escapes is nowhere found. */
  predicate WellEscaped(s: string) {
    forall k :: 0 <= k < |s| && s[k] == '~' ==> k + 1 < |s| && (s[k + 1] == '0' || s[k + 1] == '1')
  }

  function Unescape(part: string): string {
    Replace(Replace(part, '1', '/'), '0', '~')
  }

  function EscapeChar(c: char): string {
    if c == '~' then "~0" else if c == '/' then "~1" else [c]
  }

  /** Section 4 of RFC 6901, the other way. */
  function Escape(key: string): string {
    if key == "" then "" else EscapeChar(key[0]) + Escape(key[1..])
  }

  lemma EscapeCons(c: char, key: string)
    ensures Escape([c] + key) == EscapeChar(c) + Escape(key)
  {
    assert ([c] + key)[1..] == key;
  }

  /** Unescaping works through a well-escaped part one character or one escape at a time. */
  lemma UnescapeStep(part: string)
    requires WellEscaped(part) && part != ""
    ensures part[0] == '~' ==>
      && |part| >= 2 && WellEscaped(part[2..])
      && Unescape(part) == [if part[1] == '1' then '/' else '~'] + Unescape(part[2..])
    ensures part[0] != '~' ==> WellEscaped(part[1..]) && Unescape(part) == [part[0]] + Unescape(part[1..])
  {
    if part[0] == '~' {
      var rest := part[2..];
      assert WellEscaped(rest) by {
        assert forall k :: 0 <= k < |rest| ==> rest[k] == part[k + 2];
      }
      var inner := Replace(rest, '1', '/');
      if part[1] == '1' {
        assert Replace(part, '1', '/') == ['/'] + inner;
        assert (['/'] + inner)[1..] == inner;
      } else {
        assert part[1..][1..] == rest;
        assert Replace(part[1..], '1', '/') == ['0'] + inner;
        assert Replace(part, '1', '/') == ['~', '0'] + inner;
        assert (['~', '0'] + inner)[2..] == inner;
      }
    } else {
      var rest := part[1..];
      assert WellEscaped(rest) by {
        assert forall k :: 0 <= k < |rest| ==> rest[k] == part[k + 1];
      }
      var inner := Replace(rest, '1', '/');
      assert Replace(part, '1', '/') == [part[0]] + inner;
      assert ([part[0]] + inner)[1..] == inner;
    }
  }

  /** No part is read as two names: escaping undoes unescaping on every valid part. */
  lemma {:induction false} EscapeUnescape(part: string)
    requires WellEscaped(part) && NoSlashIn(part)
    ensures Escape(Unescape(part)) == part
    decreases |part|
  {
    if part != "" {
      UnescapeStep(part);
      if part[0] == '~' {
        EscapeUnescape(part[2..]);
        EscapeCons(if part[1] == '1' then '/' else '~', Unescape(part[2..]));
        assert part == part[..2] + part[2..];
      } else {
        EscapeUnescape(part[1..]);
        EscapeCons(part[0], Unescape(part[1..]));
        assert part == [part[0]] + part[1..];
      }
    }
  }

  lemma {:induction false} EscapeValid(key: string)
    ensures WellEscaped(Escape(key)) && NoSlashIn(Escape(key))
  {
    if key != "" {
      EscapeValid(key[1..]);
      var rest := Escape(key[1..]);
      var head := EscapeChar(key[0]);
      assert forall k :: |head| <= k < |head + rest| ==> (head + rest)[k] == rest[k - |head|];
    }
  }

  /** Every name can be written: unescaping undoes escaping. */
  lemma {:induction false} UnescapeEscape(key: string)
    ensures Unescape(Escape(key)) == key
  {
    if key != "" {
      UnescapeEscape(key[1..]);
      EscapeValid(key);
      var part := Escape(key);
      UnescapeStep(part);
      var head := EscapeChar(key[0]);
      assert part[|head|..] == Escape(key[1..]);
      assert key == [key[0]] + key[1..];
    }
  }

  // ---------------------------------------------------------------- pointers

  function UnescapeAll(parts: seq<string>): (r: Result<seq<string>, PointerError>)
    ensures r.Ok? ==> |r.value| == |parts|
  {
    if parts == [] then Ok([])
    else if !WellEscaped(parts[0]) then Err(BadEscape)
    else
      var rest := UnescapeAll(parts[1..]);
      if rest.Err? then rest else Ok([Unescape(parts[0])] + rest.value)
  }

  function Parse(pointer: string): Result<seq<string>, PointerError> {
    if pointer == "" then Ok([])
    else if pointer[0] != '/' then Err(NoSlash)
    else UnescapeAll(Split(pointer[1..]))
  }

  /** pointer_parts: the parts are read one by one, and the first bad escape ends it. */
  method PointerParts(pointer: string) returns (r: Result<seq<string>, PointerError>)
    ensures r == Parse(pointer)
  {
    if pointer == "" {
      return Ok([]);
    }
    if pointer[0] != '/' {
      return Err(NoSlash);
    }
    var raw := Split(pointer[1..]);
    var parts := [];
    var i := 0;
    assert raw[0..] == raw;
    assert UnescapeAll(raw).Ok? ==> [] + UnescapeAll(raw).value == UnescapeAll(raw).value;
    while i < |raw|
      invariant 0 <= i <= |raw|
      invariant UnescapeAll(raw) == (var rest := UnescapeAll(raw[i..]); if rest.Err? then rest else Ok(parts + rest.value))
    {
      assert raw[i..][0] == raw[i] && raw[i..][1..] == raw[i + 1..];
      if !WellEscaped(raw[i]) {
        return Err(BadEscape);
      }
      ghost var rest := UnescapeAll(raw[i + 1..]);
      assert rest.Ok? ==> parts + ([Unescape(raw[i])] + rest.value) == parts + [Unescape(raw[i])] + rest.value;
      parts := parts + [Unescape(raw[i])];
      i := i + 1;
    }
    assert raw[i..] == [] && parts + [] == parts;
    return Ok(parts);
  }

  /** The pointer that names a path. */
  function Format(parts: seq<string>): string {
    if parts == [] then "" else "/" + Escape(parts[0]) + Format(parts[1..])
  }

  function EscapeAll(parts: seq<string>): (r: seq<string>)
    ensures |r| == |parts|
  {
    if parts == [] then [] else [Escape(parts[0])] + EscapeAll(parts[1..])
  }

  lemma {:induction false} FormatIsSlashed(parts: seq<string>)
    ensures Format(parts) == Slashed(EscapeAll(parts))
    ensures forall k :: 0 <= k < |parts| ==> NoSlashIn(EscapeAll(parts)[k])
    ensures UnescapeAll(EscapeAll(parts)) == Ok(parts)
  {
    if parts != [] {
      FormatIsSlashed(parts[1..]);
      EscapeValid(parts[0]);
      UnescapeEscape(parts[0]);
      assert EscapeAll(parts)[1..] == EscapeAll(parts[1..]);
      assert [parts[0]] + parts[1..] == parts;
    }
  }

  lemma {:induction false} EscapeUnescapeAll(parts: seq<string>)
    requires UnescapeAll(parts).Ok? && forall k :: 0 <= k < |parts| ==> NoSlashIn(parts[k])
    ensures EscapeAll(UnescapeAll(parts).value) == parts
  {
    if parts != [] {
      EscapeUnescapeAll(parts[1..]);
      EscapeUnescape(parts[0]);
      assert UnescapeAll(parts).value[1..] == UnescapeAll(parts[1..]).value;
    }
  }

  /** Every path has a pointer that is read back as that path. */
  lemma FormatParses(parts: seq<string>)
    ensures Parse(Format(parts)) == Ok(parts)
  {
    if parts != [] {
      FormatIsSlashed(parts);
      SplitSlashed(EscapeAll(parts));
    }
  }

  /** A pointer is accepted exactly when it is the pointer of some path, and then of one only. */
  lemma ParsesIffFormatted(pointer: string)
    ensures Parse(pointer).Ok? <==> exists parts :: pointer == Format(parts)
    ensures Parse(pointer).Ok? ==> pointer == Format(Parse(pointer).value)
  {
    if Parse(pointer).Ok? && pointer != "" {
      var raw := Split(pointer[1..]);
      SlashedSplit(pointer[1..]);
      EscapeUnescapeAll(raw);
      FormatIsSlashed(Parse(pointer).value);
      assert pointer == "/" + pointer[1..];
    }
    if Parse(pointer).Ok? {
      assert pointer == Format(Parse(pointer).value);
    }
    if parts :| pointer == Format(parts) {
      FormatParses(parts);
    }
  }

  // ---------------------------------------------------------------- list indexes

  /** The pattern 0|[1-9][0-9]*. */
  predicate IsIndex(part: string) {
    part == "0" || (part != "" && part[0] != '0' && forall k :: 0 <= k < |part| ==> IsDigit(part[k]))
  }

  lemma {:induction false} DigitsOfIndex(part: string)
    requires part != "" && part[0] != '0' && forall k :: 0 <= k < |part| ==> IsDigit(part[k])
    ensures NatOf(part) > 0 && Digits(NatOf(part)) == part
  {
    var front, last := part[..|part| - 1], part[|part| - 1];
    if front == "" {
      assert part == [last];
    } else {
      DigitsOfIndex(front);
      assert part == front + [last];
      assert NatOf(part) / 10 == NatOf(front) && NatOf(part) % 10 == DigitValue(last);
    }
  }

  /** An index has one spelling: no two part names address the same item of a list. */
  lemma IndexSpelling(part: string, other: string)
    requires IsIndex(part) && IsIndex(other) && NatOf(part) == NatOf(other)
    ensures part == other
  {
    assert NatOf("0") == 0;
    if part != "0" {
      DigitsOfIndex(part);
    }
    if other != "0" {
      DigitsOfIndex(other);
    }
  }
}
