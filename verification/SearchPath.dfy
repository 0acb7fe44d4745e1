/** The search-path scanner of the query guard (config-ui/derived_query_guard.py): the strings it
    accepts are exactly the comma-separated lists of quoted and bare names, and it reads each name
    back. The character classes of Python are a parameter. */
module SearchPath {
  import opened Wrappers

  /** str.isspace on one character, and str.lower. */
  datatype Classes = Classes(space: char -> bool, lower: string -> string)

  predicate Sane(c: Classes) {
    !c.space('"') && !c.space(',')
  }

  // ---------------------------------------------------------------- the grammar

  /** A quoted name, in which every inner quote is doubled, or a bare one, with spaces around it. */
  datatype Item =
    | Quoted(before: string, name: string, after: string)
    | Bare(before: string, raw: string, after: string)

  predicate AllSpace(c: Classes, s: string) {
    forall k :: 0 <= k < |s| ==> c.space(s[k])
  }

  predicate BareText(c: Classes, raw: string) {
    raw != "" && forall k :: 0 <= k < |raw| ==> raw[k] != '"' && raw[k] != ',' && !c.space(raw[k])
  }

  predicate Proper(c: Classes, item: Item) {
    && AllSpace(c, item.before) && AllSpace(c, item.after)
    && match item
       case Quoted(_, name, _) => name != ""
       case Bare(_, raw, _) => BareText(c, raw) && c.lower(raw) != ""
  }

  function Doubled(name: string): string {
    if name == "" then "" else (if name[0] == '"' then "\"\"" else [name[0]]) + Doubled(name[1..])
  }

  function Text(item: Item): string {
    match item
    case Quoted(before, name, after) => before + ("\"" + (Doubled(name) + ("\"" + after)))
    case Bare(before, raw, after) => before + (raw + after)
  }

  function Value(c: Classes, item: Item): string {
    match item
    case Quoted(_, name, _) => name
    case Bare(_, raw, _) => c.lower(raw)
  }

  function Format(items: seq<Item>): string {
    if items == [] then "" else if |items| == 1 then Text(items[0]) else Text(items[0]) + ("," + Format(items[1..]))
  }

  function Values(c: Classes, items: seq<Item>): (r: seq<string>)
    ensures |r| == |items| && forall k :: 0 <= k < |items| ==> r[k] == Value(c, items[k])
  {
    seq(|items|, k requires 0 <= k < |items| => Value(c, items[k]))
  }

  // ---------------------------------------------------------------- reading one item

  /** How many leading characters are spaces. */
  function Leading(c: Classes, s: string): (n: nat)
    ensures n <= |s| && AllSpace(c, s[..n]) && (n < |s| ==> !c.space(s[n]))
  {
    if s != "" && c.space(s[0]) then
      var n := Leading(c, s[1..]);
      assert s[..n + 1] == [s[0]] + s[1..][..n];
      n + 1
    else 0
  }

  lemma {:induction false} LeadingIs(c: Classes, spaces: string, rest: string)
    requires AllSpace(c, spaces) && (rest != "" ==> !c.space(rest[0]))
    ensures Leading(c, spaces + rest) == |spaces|
    decreases |spaces|
  {
    if spaces == "" {
      assert spaces + rest == rest;
    } else {
      assert (spaces + rest)[1..] == spaces[1..] + rest;
      LeadingIs(c, spaces[1..], rest);
    }
  }

  function Longer(name: string, r: Option<(string, string)>): Option<(string, string)> {
    if r.None? then None else Some((name + r.value.0, r.value.1))
  }

  /** The rest of a quoted name, from behind its opening quote: the name, and what follows it. */
  function Unquote(s: string): Option<(string, string)> {
    if s == "" then None
    else if s[0] != '"' then Longer([s[0]], Unquote(s[1..]))
    else if |s| > 1 && s[1] == '"' then Longer(['"'], Unquote(s[2..]))
    else Some(("", s[1..]))
  }

  lemma LongerTwice(a: string, b: string, r: Option<(string, string)>)
    ensures Longer(a, Longer(b, r)) == Longer(a + b, r) && Longer("", r) == r
  {
    if r.Some? {
      assert a + (b + r.value.0) == a + b + r.value.0 && "" + r.value.0 == r.value.0;
    }
  }

  lemma {:induction false} UnquoteReads(name: string, rest: string)
    requires rest != "" ==> rest[0] != '"'
    ensures Unquote(Doubled(name) + ("\"" + rest)) == Some((name, rest))
    decreases |name|
  {
    var s := Doubled(name) + ("\"" + rest);
    if name == "" {
      assert s == "\"" + rest && s[1..] == rest;
    } else {
      UnquoteReads(name[1..], rest);
      var tail := Doubled(name[1..]) + ("\"" + rest);
      if name[0] == '"' {
        assert s[2..] == tail;
      } else {
        assert s[1..] == tail;
      }
      assert [name[0]] + name[1..] == name;
    }
  }

  lemma {:induction false} UnquoteIs(s: string)
    requires Unquote(s).Some?
    ensures s == Doubled(Unquote(s).value.0) + ("\"" + Unquote(s).value.1)
    ensures Unquote(s).value.1 != "" ==> Unquote(s).value.1[0] != '"'
    decreases |s|
  {
    var name := Unquote(s).value.0;
    if s[0] != '"' {
      UnquoteIs(s[1..]);
      assert name[1..] == Unquote(s[1..]).value.0;
      assert s == [s[0]] + s[1..];
    } else if |s| > 1 && s[1] == '"' {
      UnquoteIs(s[2..]);
      assert name[1..] == Unquote(s[2..]).value.0;
      assert s == "\"\"" + s[2..];
    } else {
      assert s == "\"" + s[1..];
    }
  }

  /** The length of what comes before the next comma. */
  function ToComma(s: string): (n: nat)
    ensures n <= |s| && (forall k :: 0 <= k < n ==> s[k] != ',') && (n < |s| ==> s[n] == ',')
  {
    if s == "" || s[0] == ',' then 0
    else
      var n := ToComma(s[1..]);
      assert forall k :: 1 <= k < n + 1 ==> s[k] == s[1..][k - 1];
      n + 1
  }

  /** rstrip: the length up to the last character that is no space. */
  function Stripped(c: Classes, s: string): (n: nat)
    ensures n <= |s| && AllSpace(c, s[n..]) && (n > 0 ==> !c.space(s[n - 1]))
  {
    if s == "" then 0
    else if c.space(s[|s| - 1]) then
      var n := Stripped(c, s[..|s| - 1]);
      assert s[n..] == s[..|s| - 1][n..] + [s[|s| - 1]];
      n
    else |s|
  }

  function ReadQuoted(c: Classes, before: string, body: string): Option<(Item, string)>
    requires body != "" && body[0] == '"'
  {
    var r := Unquote(body[1..]);
    if r.None? || r.value.0 == "" then None
    else
      var trail := Leading(c, r.value.1);
      Some((Quoted(before, r.value.0, r.value.1[..trail]), r.value.1[trail..]))
  }

  function ReadBare(c: Classes, before: string, body: string): Option<(Item, string)> {
    var n := ToComma(body);
    var m := Stripped(c, body[..n]);
    if BareText(c, body[..m]) && c.lower(body[..m]) != ""
    then Some((Bare(before, body[..m], body[m..n]), body[n..])) else None
  }

  /** One name with the spaces around it, and what follows, as the scanner reads it. */
  function ReadItem(c: Classes, s: string): Option<(Item, string)> {
    var lead := Leading(c, s);
    var body := s[lead..];
    if body == "" then None
    else if body[0] == '"' then ReadQuoted(c, s[..lead], body)
    else ReadBare(c, s[..lead], body)
  }

  ghost predicate IsReadOf(c: Classes, r: (Item, string), s: string) {
    Proper(c, r.0) && s == Text(r.0) + r.1 && |r.1| < |s|
  }

  lemma ReadQuotedIs(c: Classes, before: string, body: string)
    requires body != "" && body[0] == '"' && ReadQuoted(c, before, body).Some? && AllSpace(c, before)
    ensures IsReadOf(c, ReadQuoted(c, before, body).value, before + body)
  {
    UnquoteIs(body[1..]);
    var name, rest := Unquote(body[1..]).value.0, Unquote(body[1..]).value.1;
    var trail := Leading(c, rest);
    hide Unquote, Doubled, Leading, AllSpace;
    QuotedBetween(before, body, Doubled(name), rest, trail);
  }

  lemma QuotedBetween(before: string, body: string, d: string, rest: string, trail: nat)
    requires body != "" && body[0] == '"' && body[1..] == d + ("\"" + rest) && trail <= |rest|
    ensures before + ("\"" + (d + ("\"" + rest[..trail]))) + rest[trail..] == before + body
  {
    assert rest == rest[..trail] + rest[trail..];
    assert body == "\"" + body[1..];
  }

  lemma ReadBareIs(c: Classes, before: string, body: string)
    requires ReadBare(c, before, body).Some? && AllSpace(c, before)
    ensures IsReadOf(c, ReadBare(c, before, body).value, before + body)
  {
    var n := ToComma(body);
    var m := Stripped(c, body[..n]);
    assert body[..n][m..] == body[m..n];
    hide ToComma, Stripped, AllSpace;
    assert before + (body[..m] + body[m..n]) + body[n..] == before + body;
  }

  /** What is read is there, and is proper. */
  lemma ReadItemIs(c: Classes, s: string)
    requires ReadItem(c, s).Some?
    ensures IsReadOf(c, ReadItem(c, s).value, s)
  {
    hide ReadQuoted, ReadBare, IsReadOf;
    var lead := Leading(c, s);
    assert s == s[..lead] + s[lead..];
    if s[lead..][0] == '"' {
      ReadQuotedIs(c, s[..lead], s[lead..]);
    } else {
      ReadBareIs(c, s[..lead], s[lead..]);
    }
  }

  lemma ReadQuotedReads(c: Classes, before: string, name: string, after: string, rest: string)
    requires Sane(c) && name != "" && AllSpace(c, after) && (rest != "" ==> rest[0] == ',')
    ensures ReadQuoted(c, before, "\"" + (Doubled(name) + ("\"" + (after + rest)))) == Some((Quoted(before, name, after), rest))
  {
    var tail := Doubled(name) + ("\"" + (after + rest));
    assert ("\"" + tail)[1..] == tail;
    assert after + rest != "" ==> (after + rest)[0] != '"';
    UnquoteReads(name, after + rest);
    LeadingIs(c, after, rest);
    hide Unquote, Doubled, Leading;
    assert (after + rest)[..|after|] == after && (after + rest)[|after|..] == rest;
  }

  lemma ReadBareReads(c: Classes, before: string, raw: string, after: string, rest: string)
    requires Sane(c) && BareText(c, raw) && c.lower(raw) != "" && AllSpace(c, after) && (rest != "" ==> rest[0] == ',')
    ensures ReadBare(c, before, raw + (after + rest)) == Some((Bare(before, raw, after), rest))
  {
    var body := raw + (after + rest);
    assert body == raw + after + rest;
    assert forall k :: 0 <= k < |after| ==> after[k] != ',';
    ToCommaIs(c, raw + after, rest);
    StrippedIs(c, raw, after);
    hide ToComma, Stripped;
    assert body[..|raw + after|] == raw + after;
    assert body[..|raw|] == raw && body[|raw|..|raw + after|] == after && body[|raw + after|..] == rest;
  }

  /** Whatever proper item comes first, up to the end or a comma, is what is read. */
  lemma ReadItemReads(c: Classes, item: Item, rest: string)
    requires Sane(c) && Proper(c, item) && (rest != "" ==> rest[0] == ',')
    ensures ReadItem(c, Text(item) + rest) == Some((item, rest))
  {
    hide ReadQuoted, ReadBare, Doubled, Leading;
    var before, after := item.before, item.after;
    var body: string;
    match item {
      case Quoted(_, name, _) =>
        body := "\"" + (Doubled(name) + ("\"" + (after + rest)));
        assert Text(item) + rest == before + body;
        ReadQuotedReads(c, before, name, after, rest);
      case Bare(_, raw, _) =>
        body := raw + (after + rest);
        assert Text(item) + rest == before + body;
        ReadBareReads(c, before, raw, after, rest);
    }
    LeadingIs(c, before, body);
    assert (before + body)[..|before|] == before && (before + body)[|before|..] == body;
  }

  lemma {:induction false} ToCommaIs(c: Classes, s: string, rest: string)
    requires (forall k :: 0 <= k < |s| ==> s[k] != ',') && (rest != "" ==> rest[0] == ',')
    ensures ToComma(s + rest) == |s|
    decreases |s|
  {
    if s == "" {
      assert s + rest == rest;
    } else {
      assert (s + rest)[1..] == s[1..] + rest;
      ToCommaIs(c, s[1..], rest);
    }
  }

  lemma {:induction false} StrippedIs(c: Classes, raw: string, after: string)
    requires AllSpace(c, after) && raw != "" && !c.space(raw[|raw| - 1])
    ensures Stripped(c, raw + after) == |raw|
    decreases |after|
  {
    if after == "" {
      assert raw + after == raw;
    } else {
      assert (raw + after)[..|raw + after| - 1] == raw + after[..|after| - 1];
      StrippedIs(c, raw, after[..|after| - 1]);
    }
  }

  // ---------------------------------------------------------------- reading the list

  function Cons(item: Item, rest: Option<seq<Item>>): Option<seq<Item>> {
    if rest.None? then None else Some([item] + rest.value)
  }

  /** One or more items; nothing may follow the last comma. */
  function ParseItems(c: Classes, s: string): Option<seq<Item>>
    decreases |s|
  {
    var r := ReadItem(c, s);
    if r.None? then None
    else
      ReadItemIs(c, s);
      var rest := r.value.1;
      if rest == "" then Some([r.value.0])
      else if rest[0] != ',' || rest[1..] == "" then None
      else Cons(r.value.0, ParseItems(c, rest[1..]))
  }

  function Names(c: Classes, items: Option<seq<Item>>): Option<seq<string>> {
    if items.None? then None else Some(Values(c, items.value))
  }

  /** What the scanner returns. */
  function Parse(c: Classes, s: string): Option<seq<string>> {
    if s == "" then Some([]) else Names(c, ParseItems(c, s))
  }

  lemma {:induction false} ItemsParse(c: Classes, items: seq<Item>)
    requires Sane(c) && items != [] && forall k :: 0 <= k < |items| ==> Proper(c, items[k])
    ensures ParseItems(c, Format(items)) == Some(items)
    decreases |items|
  {
    hide ReadItem, Text;
    if |items| == 1 {
      ReadItemReads(c, items[0], "");
      assert Text(items[0]) + "" == Text(items[0]) && [items[0]] == items;
    } else {
      var rest := Format(items[1..]);
      ReadItemReads(c, items[0], "," + rest);
      ItemsParse(c, items[1..]);
      assert ("," + rest)[1..] == rest;
      NotEmpty(c, items[1..]);
      assert [items[0]] + items[1..] == items;
    }
  }

  lemma NotEmpty(c: Classes, items: seq<Item>)
    requires items != [] && forall k :: 0 <= k < |items| ==> Proper(c, items[k])
    ensures Format(items) != ""
  {
    assert Proper(c, items[0]);
    assert Text(items[0]) != "";
  }

  lemma {:induction false} ParsedItems(c: Classes, s: string)
    requires ParseItems(c, s).Some?
    ensures (var items := ParseItems(c, s).value;
      items != [] && s == Format(items) && forall k :: 0 <= k < |items| ==> Proper(c, items[k]))
    decreases |s|
  {
    hide ReadItem, Text;
    ReadItemIs(c, s);
    var item, rest := ReadItem(c, s).value.0, ReadItem(c, s).value.1;
    if rest == "" {
      assert Text(item) + "" == Text(item);
    } else {
      ParsedItems(c, rest[1..]);
      assert rest == "," + rest[1..];
      assert ParseItems(c, s).value[1..] == ParseItems(c, rest[1..]).value;
    }
  }

  ghost predicate Spells(c: Classes, items: seq<Item>, s: string, names: seq<string>) {
    (forall k :: 0 <= k < |items| ==> Proper(c, items[k])) && s == Format(items) && names == Values(c, items)
  }

  /** The scanner returns these names exactly when the string is a list of proper items with these
      values: it accepts nothing else, whatever the string. */
  lemma ParsesIffSpelled(c: Classes, s: string, names: seq<string>)
    requires Sane(c)
    ensures Parse(c, s) == Some(names) <==> exists items :: Spells(c, items, s, names)
  {
    if Parse(c, s) == Some(names) {
      if s == "" {
        assert Spells(c, [], s, names);
      } else {
        ParsedItems(c, s);
        assert Spells(c, ParseItems(c, s).value, s, names);
      }
    }
    if items :| Spells(c, items, s, names) {
      if items != [] {
        ItemsParse(c, items);
        NotEmpty(c, items);
      }
    }
  }

  function Enquote(names: seq<string>): seq<Item> {
    seq(|names|, k requires 0 <= k < |names| => Quoted("", names[k], ""))
  }

  /** Any names but the empty one, quoted with their inner quotes doubled and joined with commas, are
      read back, whatever commas, spaces and quotes they contain. */
  lemma QuotedNamesRoundTrip(c: Classes, names: seq<string>)
    requires Sane(c) && forall k :: 0 <= k < |names| ==> names[k] != ""
    ensures Parse(c, Format(Enquote(names))) == Some(names)
  {
    var items := Enquote(names);
    assert Values(c, items) == names;
    assert Spells(c, items, Format(items), names);
    ParsesIffSpelled(c, Format(items), names);
  }

  // ---------------------------------------------------------------- the scanner

  method SkipSpaces(c: Classes, value: string, from: nat) returns (index: nat)
    requires from <= |value|
    ensures index == from + Leading(c, value[from..]) <= |value|
  {
    index := from;
    while index < |value| && c.space(value[index])
      invariant from <= index <= |value|
      invariant Leading(c, value[from..]) == index - from + Leading(c, value[index..])
    {
      assert value[index..][1..] == value[index + 1..];
      index := index + 1;
    }
  }

  /** From behind an opening quote to behind the closing one. */
  method ScanQuoted(value: string, from: nat) returns (r: Option<(string, nat)>)
    requires from <= |value|
    ensures r.None? <==> Unquote(value[from..]).None?
    ensures r.Some? ==> from < r.value.1 <= |value| && Unquote(value[from..]) == Some((r.value.0, value[r.value.1..]))
  {
    var index, name := from, "";
    LongerTwice("", "", Unquote(value[from..]));
    while index < |value|
      invariant from <= index <= |value|
      invariant Unquote(value[from..]) == Longer(name, Unquote(value[index..]))
      decreases |value| - index
    {
      hide Longer;
      assert value[index..][1..] == value[index + 1..];
      if value[index] != '"' {
        LongerTwice(name, [value[index]], Unquote(value[index + 1..]));
        name := name + [value[index]];
        index := index + 1;
      } else if index + 1 < |value| && value[index + 1] == '"' {
        assert value[index..][2..] == value[index + 2..];
        LongerTwice(name, ['"'], Unquote(value[index + 2..]));
        name := name + ['"'];
        index := index + 2;
      } else {
        NothingLonger(name, value[index + 1..]);
        return Some((name, index + 1));
      }
    }
    return None;
  }

  lemma NothingLonger(name: string, rest: string)
    ensures Longer(name, Some(("", rest))) == Some((name, rest))
  {
    assert name + "" == name;
  }

  method ScanToComma(value: string, from: nat) returns (index: nat)
    requires from <= |value|
    ensures index == from + ToComma(value[from..]) <= |value|
  {
    index := from;
    while index < |value| && value[index] != ','
      invariant from <= index <= |value|
      invariant ToComma(value[from..]) == index - from + ToComma(value[index..])
    {
      assert value[index..][1..] == value[index + 1..];
      index := index + 1;
    }
  }

  method ScanQuotedItem(c: Classes, value: string, from: nat, ghost before: string) returns (r: Option<(string, nat)>)
    requires from < |value| && value[from] == '"'
    ensures r.None? <==> ReadQuoted(c, before, value[from..]).None?
    ensures r.Some? ==>
      && from < r.value.1 <= |value| && value[r.value.1..] == ReadQuoted(c, before, value[from..]).value.1
      && r.value.0 == Value(c, ReadQuoted(c, before, value[from..]).value.0)
  {
    var quoted := ScanQuoted(value, from + 1);
    assert value[from..][1..] == value[from + 1..];
    if quoted.None? || quoted.value.0 == "" {
      return None;
    }
    var after := SkipSpaces(c, value, quoted.value.1);
    hide Unquote, Leading;
    assert value[quoted.value.1..][after - quoted.value.1..] == value[after..];
    return Some((quoted.value.0, after));
  }

  method ScanBareItem(c: Classes, value: string, from: nat, ghost before: string) returns (r: Option<(string, nat)>)
    requires from < |value|
    ensures r.None? <==> ReadBare(c, before, value[from..]).None?
    ensures r.Some? ==>
      && from < r.value.1 <= |value| && value[r.value.1..] == ReadBare(c, before, value[from..]).value.1
      && r.value.0 == Value(c, ReadBare(c, before, value[from..]).value.0)
  {
    hide ToComma, Stripped;
    var end := ScanToComma(value, from);
    var chunk := value[from..end];
    assert value[from..][..end - from] == chunk && value[from..][end - from..] == value[end..];
    var raw := chunk[..Stripped(c, chunk)];
    assert value[from..][..|raw|] == raw;
    if !BareText(c, raw) || c.lower(raw) == "" {
      return None;
    }
    assert raw != "" && end > from;
    return Some((c.lower(raw), end));
  }

  /** One name, from `from`: the schema and where the scanner stands after it. */
  method ScanItem(c: Classes, value: string, from: nat) returns (r: Option<(string, nat)>)
    requires from < |value|
    ensures r.None? <==> ReadItem(c, value[from..]).None?
    ensures r.Some? ==>
      && from < r.value.1 <= |value| && value[r.value.1..] == ReadItem(c, value[from..]).value.1
      && r.value.0 == Value(c, ReadItem(c, value[from..]).value.0)
  {
    hide ReadQuoted, ReadBare, Leading, Value;
    var index := SkipSpaces(c, value, from);
    ghost var before := value[from..][..index - from];
    assert value[from..][index - from..] == value[index..];
    if index == |value| {
      return None;
    }
    if value[index] == '"' {
      r := ScanQuotedItem(c, value, index, before);
    } else {
      r := ScanBareItem(c, value, index, before);
    }
  }

  function Prefixed(names: seq<string>, rest: Option<seq<string>>): Option<seq<string>> {
    if rest.None? then None else Some(names + rest.value)
  }

  /** _parse_search_path: it ends on every string. */
  method ParseSearchPath(c: Classes, value: string) returns (r: Option<seq<string>>)
    ensures r == Parse(c, value)
  {
    hide ReadItem, Text, Format;
    var schemas: seq<string> := [];
    var index := 0;
    assert value[0..] == value;
    assert Parse(c, value).Some? ==> [] + Parse(c, value).value == Parse(c, value).value;
    while index < |value|
      invariant 0 <= index <= |value|
      invariant index < |value| ==> Parse(c, value) == Prefixed(schemas, Names(c, ParseItems(c, value[index..])))
      invariant index == |value| ==> Parse(c, value) == Some(schemas)
      decreases |value| - index
    {
      var item := ScanItem(c, value, index);
      if item.None? {
        return None;
      }
      ghost var read := ReadItem(c, value[index..]).value;
      var end := item.value.1;
      assert Values(c, [read.0]) == [item.value.0];
      if end == |value| {
        return Some(schemas + [item.value.0]);
      }
      if value[end] != ',' || end + 1 == |value| {
        return None;
      }
      assert value[end..][1..] == value[end + 1..];
      ghost var rest := ParseItems(c, value[end + 1..]);
      if rest.Some? {
        assert Values(c, [read.0] + rest.value) == [item.value.0] + Values(c, rest.value);
        assert schemas + ([item.value.0] + Values(c, rest.value)) == schemas + [item.value.0] + Values(c, rest.value);
      }
      schemas, index := schemas + [item.value.0], end + 1;
    }
    return Some(schemas);
  }
}
