/** The RFC 8785 serializer (config-ui/canonical.py): equal bytes mean equal values, and a
    value's bytes do not depend on how its objects were assembled. */
module CanonicalJson {
  import opened Wrappers
  import opened CanonicalNumber
  import opened CanonicalText

  /** A parsed JSON value; an object lists its members in insertion order. */
  datatype Json =
    | JNull
    | JBool(b: bool)
    | JString(t: Text)
    | JNumber(n: Number)
    | JArray(items: seq<Json>)
    | JObject(members: seq<Member>)

  datatype Member = Member(name: Text, value: Json)

  /** What a Python dict and a Python float guarantee: distinct names, shortest decimals. */
  predicate Proper(v: Json) {
    match v
    case JNumber(n) => Shortest(n)
    case JArray(items) => forall k :: 0 <= k < |items| ==> Proper(items[k])
    case JObject(ms) =>
      && (forall i, j :: 0 <= i < j < |ms| ==> ms[i].name != ms[j].name)
      && (forall k :: 0 <= k < |ms| ==> Proper(ms[k].value))
    case _ => true
  }

  // ---------------------------------------------------------------- serialization

  const COMMA: Code := 0x2C
  const COLON: Code := 0x3A
  const LBRACKET: Code := 0x5B
  const RBRACKET: Code := 0x5D
  const LBRACE: Code := 0x7B
  const RBRACE: Code := 0x7D

  /** A member whose value has been serialized. */
  datatype Entry = Entry(name: Text, text: Text)

  function EntryText(e: Entry): Text {
    Quoted(e.name) + ([COLON] + e.text)
  }

  /** Python's sorted on the UTF-16 key, as an insertion sort. */
  function Insert(e: Entry, es: seq<Entry>): seq<Entry> {
    if es == [] || !LexLess(SortKey(es[0].name), SortKey(e.name)) then [e] + es
    else [es[0]] + Insert(e, es[1..])
  }

  function SortEntries(es: seq<Entry>): seq<Entry> {
    if es == [] then [] else Insert(es[0], SortEntries(es[1..]))
  }

  function Join(ts: seq<Text>): Text {
    if |ts| == 0 then [] else if |ts| == 1 then ts[0] else ts[0] + ([COMMA] + Join(ts[1..]))
  }

  function Enclosed(open: Code, ts: seq<Text>, close: Code): Text {
    [open] + (Join(ts) + [close])
  }

  function EntryTexts(es: seq<Entry>): (ts: seq<Text>)
    ensures |ts| == |es| && forall k :: 0 <= k < |es| ==> ts[k] == EntryText(es[k])
  {
    seq(|es|, k requires 0 <= k < |es| => EntryText(es[k]))
  }

  /** None where the Python serializer raises. */
  function Serialize(v: Json): Option<Text> {
    match v
    case JNull => Some(Ascii("null"))
    case JBool(b) => Some(Ascii(if b then "true" else "false"))
    case JString(t) => if Encodable(t) then Some(Quoted(t)) else None
    case JNumber(n) =>
      var text := FormatNumber(n);
      if text.Some? then Some(Ascii(text.value)) else None
    case JArray(items) =>
      var texts := SerializeItems(items);
      if texts.Some? then Some(Enclosed(LBRACKET, texts.value, RBRACKET)) else None
    case JObject(ms) =>
      var entries := SerializeMembers(ms);
      if entries.Some? then Some(Enclosed(LBRACE, EntryTexts(SortEntries(entries.value)), RBRACE)) else None
  }

  function SerializeItems(items: seq<Json>): (r: Option<seq<Text>>)
    ensures r.Some? <==> forall k :: 0 <= k < |items| ==> Serialize(items[k]).Some?
    ensures r.Some? ==> |r.value| == |items| && forall k :: 0 <= k < |items| ==> Serialize(items[k]) == Some(r.value[k])
  {
    if items == [] then Some([])
    else
      var first := Serialize(items[0]);
      var rest := SerializeItems(items[1..]);
      assert forall k :: 1 <= k < |items| ==> items[k] == items[1..][k - 1];
      if first.Some? && rest.Some? then Some([first.value] + rest.value) else None
  }

  function SerializeMembers(ms: seq<Member>): (r: Option<seq<Entry>>)
    ensures r.Some? <==> forall k :: 0 <= k < |ms| ==> Encodable(ms[k].name) && Serialize(ms[k].value).Some?
    ensures r.Some? ==> |r.value| == |ms|
    ensures r.Some? ==> forall k :: 0 <= k < |ms| ==> r.value[k].name == ms[k].name && Serialize(ms[k].value) == Some(r.value[k].text)
  {
    if ms == [] then Some([])
    else
      var first := Serialize(ms[0].value);
      var rest := SerializeMembers(ms[1..]);
      assert forall k :: 1 <= k < |ms| ==> ms[k] == ms[1..][k - 1];
      if Encodable(ms[0].name) && first.Some? && rest.Some?
      then Some([Entry(ms[0].name, first.value)] + rest.value)
      else None
  }

  function Canonicalize(v: Json): Option<seq<Byte>> {
    var text := Serialize(v);
    if text.Some? && Encodable(text.value) then Some(Utf8(text.value)) else None
  }

  // ---------------------------------------------------------------- sorting

  predicate Before(a: Entry, b: Entry) {
    LexLess(SortKey(a.name), SortKey(b.name))
  }

  ghost predicate StrictlySorted(es: seq<Entry>) {
    forall i, j :: 0 <= i < j < |es| ==> Before(es[i], es[j])
  }

  ghost predicate DistinctNames(es: seq<Entry>) {
    && (forall k :: 0 <= k < |es| ==> Encodable(es[k].name))
    && (forall i, j :: 0 <= i < j < |es| ==> es[i].name != es[j].name)
  }

  lemma {:induction false} InsertSorts(e: Entry, es: seq<Entry>)
    requires StrictlySorted(es) && Encodable(e.name)
    requires forall k :: 0 <= k < |es| ==> Encodable(es[k].name) && es[k].name != e.name
    ensures StrictlySorted(Insert(e, es))
    ensures forall x :: x in Insert(e, es) <==> x == e || x in es
    decreases |es|
  {
    if es != [] {
      LexTotal(SortKey(es[0].name), SortKey(e.name));
      if Before(es[0], e) {
        InsertSorts(e, es[1..]);
        var t := Insert(e, es[1..]);
        forall k | 0 <= k < |t|
          ensures Before(es[0], t[k])
        {
          assert t[k] in t;
        }
        assert forall x :: x in es <==> x == es[0] || x in es[1..];
      } else {
        if SortKey(es[0].name) == SortKey(e.name) {
          SortKeyInjective(es[0].name, e.name);
        }
        assert Before(e, es[0]);
        forall k | 0 < k < |es|
          ensures Before(e, es[k])
        {
          LexTransitive(SortKey(e.name), SortKey(es[0].name), SortKey(es[k].name));
        }
      }
    }
  }

  lemma {:induction false} SortSorts(es: seq<Entry>)
    requires DistinctNames(es)
    ensures StrictlySorted(SortEntries(es))
    ensures forall x :: x in SortEntries(es) <==> x in es
    decreases |es|
  {
    if es != [] {
      SortSorts(es[1..]);
      var t := SortEntries(es[1..]);
      forall k | 0 <= k < |t|
        ensures Encodable(t[k].name) && t[k].name != es[0].name
      {
        assert t[k] in es[1..];
      }
      InsertSorts(es[0], t);
      assert forall x :: x in es <==> x == es[0] || x in es[1..];
    }
  }

  /** A strictly sorted list is determined by its elements. */
  lemma {:induction false} SortedUnique(a: seq<Entry>, b: seq<Entry>)
    requires StrictlySorted(a) && StrictlySorted(b) && forall x :: x in a <==> x in b
    ensures a == b
    decreases |a|
  {
    assert |a| > 0 ==> a[0] in b;
    assert |b| > 0 ==> b[0] in a;
    hide SortKey;
    if a != [] {
      var k :| 0 <= k < |b| && b[k] == a[0];
      var j :| 0 <= j < |a| && a[j] == b[0];
      if j > 0 && k > 0 {
        LexTotal(SortKey(a[0].name), SortKey(b[0].name));
      }
      forall x
        ensures x in a[1..] <==> x in b[1..]
      {
        LexTotal(SortKey(x.name), SortKey(x.name));
        assert x in a[1..] ==> x in b && Before(a[0], x);
        assert x in b[1..] ==> x in a && Before(b[0], x);
      }
      SortedUnique(a[1..], b[1..]);
      assert a == [a[0]] + a[1..] && b == [b[0]] + b[1..];
    }
  }

  /** Whatever the insertion order, the same members sort to the same list. */
  lemma SortIgnoresOrder(a: seq<Entry>, b: seq<Entry>)
    requires DistinctNames(a) && DistinctNames(b) && forall x :: x in a <==> x in b
    ensures SortEntries(a) == SortEntries(b)
  {
    SortSorts(a);
    SortSorts(b);
    SortedUnique(SortEntries(a), SortEntries(b));
  }

  // ---------------------------------------------------------------- a text ends where it ends

  /** What can follow a value inside a larger text. */
  predicate Delimited(r: Text) {
    r == [] || r[0] == COMMA || r[0] == RBRACKET || r[0] == RBRACE
  }

  ghost predicate SelfDelimiting(t: Text, u: Text) {
    forall r, s {:trigger t + r, u + s} :: t + r == u + s && Delimited(r) && Delimited(s) ==> t == u
  }

  /** The first character tells the kind of value. */
  function KindOf(v: Json): nat {
    match v
    case JNull => 0
    case JBool(b) => if b then 1 else 2
    case JString(_) => 3
    case JNumber(_) => 4
    case JArray(_) => 5
    case JObject(_) => 6
  }

  predicate IsKind(c: Code, kind: nat) {
    match kind
    case 0 => c == 0x6E
    case 1 => c == 0x74
    case 2 => c == 0x66
    case 3 => c == QUOTE
    case 4 => 0x30 <= c <= 0x39 || c == 0x2D
    case 5 => c == LBRACKET
    case 6 => c == LBRACE
    case _ => false
  }

  lemma StartsWithKind(v: Json, t: Text)
    requires Proper(v) && Serialize(v) == Some(t)
    ensures t != [] && IsKind(t[0], KindOf(v))
  {
    if v.JNumber? {
      NumberCharacters(v.n);
    }
  }

  lemma StringsDelimited(a: Text, b: Text, r: Text, s: Text)
    requires Quoted(a) + r == Quoted(b) + s
    ensures a == b
  {
    QuotedBody(a, r);
    QuotedBody(b, s);
    QuotedUnique(a, b, r, s);
  }

  lemma QuotedBody(a: Text, r: Text)
    ensures (Quoted(a) + r)[1..] == Escaped(a) + ([QUOTE] + r)
  {
    hide Escaped;
  }

  predicate IsDelimiter(c: Code) {
    c == COMMA || c == RBRACKET || c == RBRACE
  }

  /** A run without delimiters ends at the first one. */
  lemma RunsDelimited(t: Text, u: Text, r: Text, s: Text)
    requires t + r == u + s && Delimited(r) && Delimited(s)
    requires forall k :: 0 <= k < |t| ==> !IsDelimiter(t[k])
    requires forall k :: 0 <= k < |u| ==> !IsDelimiter(u[k])
    ensures t == u
  {
    var l := t + r;
    assert forall k :: 0 <= k < |t| ==> l[k] == t[k];
    assert forall k :: 0 <= k < |u| ==> l[k] == u[k];
    assert |t| < |l| ==> l[|t|] == r[0];
    assert |u| < |l| ==> l[|u|] == s[0];
  }

  lemma NumberIsRun(x: Number, t: Text)
    requires Shortest(x) && FormatNumber(x).Some? && t == Ascii(FormatNumber(x).value)
    ensures forall k :: 0 <= k < |t| ==> !IsDelimiter(t[k])
  {
    hide FormatNumber;
    NumberCharacters(x);
    assert forall k :: 0 <= k < |t| ==> NumberChar(FormatNumber(x).value[k]);
  }

  /** A list of self-delimiting texts can be told apart from any other. */
  lemma {:induction false} JoinUnique(ts: seq<Text>, us: seq<Text>, close: Code, r: Text, s: Text)
    requires close == RBRACKET || close == RBRACE
    requires forall i, j :: 0 <= i < |ts| && 0 <= j < |us| ==> SelfDelimiting(ts[i], us[j])
    requires forall i :: 0 <= i < |ts| ==> ts[i] != [] && ts[i][0] != close
    requires forall i :: 0 <= i < |us| ==> us[i] != [] && us[i][0] != close
    requires Join(ts) + ([close] + r) == Join(us) + ([close] + s)
    ensures ts == us && r == s
    decreases |ts|
  {
    var l, m := [close] + r, [close] + s;
    assert (Join(ts) + l)[0] == if ts == [] then close else ts[0][0];
    assert (Join(us) + m)[0] == if us == [] then close else us[0][0];
    if ts == [] || us == [] {
      assert l[1..] == r && m[1..] == s;
      assert Join(ts) + l == l && Join(us) + m == m;
    } else {
      var x := Tail(ts, l);
      var y := Tail(us, m);
      TailSplits(ts, l);
      TailSplits(us, m);
      assert SelfDelimiting(ts[0], us[0]);
      assert ts[0] == us[0];
      assert (ts[0] + x)[|ts[0]|..] == x && (us[0] + y)[|us[0]|..] == y;
      if |ts| == 1 || |us| == 1 {
        assert x[0] == if |ts| == 1 then close else COMMA;
        assert y[0] == if |us| == 1 then close else COMMA;
        assert l[1..] == r && m[1..] == s;
      } else {
        assert x[1..] == Join(ts[1..]) + l && y[1..] == Join(us[1..]) + m;
        JoinUnique(ts[1..], us[1..], close, r, s);
        assert ts == [ts[0]] + ts[1..] && us == [us[0]] + us[1..];
      }
    }
  }

  function Tail(ts: seq<Text>, l: Text): Text
    requires ts != []
  {
    if |ts| == 1 then l else [COMMA] + (Join(ts[1..]) + l)
  }

  lemma TailSplits(ts: seq<Text>, l: Text)
    requires ts != []
    ensures Join(ts) + l == ts[0] + Tail(ts, l)
  {
  }

  lemma EnclosedUnique(open: Code, ts: seq<Text>, us: seq<Text>, close: Code, r: Text, s: Text)
    requires close == RBRACKET || close == RBRACE
    requires forall i, j :: 0 <= i < |ts| && 0 <= j < |us| ==> SelfDelimiting(ts[i], us[j])
    requires forall i :: 0 <= i < |ts| ==> ts[i] != [] && ts[i][0] != close
    requires forall i :: 0 <= i < |us| ==> us[i] != [] && us[i][0] != close
    requires Enclosed(open, ts, close) + r == Enclosed(open, us, close) + s
    ensures ts == us
  {
    var l, m := Enclosed(open, ts, close) + r, Enclosed(open, us, close) + s;
    assert l[1..] == Join(ts) + ([close] + r);
    assert m[1..] == Join(us) + ([close] + s);
    JoinUnique(ts, us, close, r, s);
  }

  /** Entries are told apart by their quoted names and then by their values. */
  lemma EntriesDelimited(a: Entry, b: Entry)
    requires SelfDelimiting(a.text, b.text)
    ensures SelfDelimiting(EntryText(a), EntryText(b))
    ensures EntryText(a) == EntryText(b) ==> a == b
  {
    forall r, s | EntryText(a) + r == EntryText(b) + s && Delimited(r) && Delimited(s)
      ensures a == b
    {
      EntrySplits(a, r);
      EntrySplits(b, s);
      var x, y := [COLON] + (a.text + r), [COLON] + (b.text + s);
      QuotedUnique(a.name, b.name, x, y);
      assert x[1..] == a.text + r && y[1..] == b.text + s;
    }
    if EntryText(a) == EntryText(b) {
      assert EntryText(a) + [] == EntryText(b) + [];
    }
  }

  lemma EntrySplits(e: Entry, r: Text)
    ensures (EntryText(e) + r)[1..] == Escaped(e.name) + ([QUOTE] + ([COLON] + (e.text + r)))
  {
  }

  ghost predicate Accepted(v: Json, t: Text) {
    Proper(v) && Serialize(v) == Some(t)
  }

  /** No value's text, followed by a delimiter, can be read as another value's text. */
  lemma {:induction false} ValuesDelimited(v: Json, w: Json, t: Text, u: Text)
    requires Accepted(v, t) && Accepted(w, u)
    ensures SelfDelimiting(t, u)
    decreases v
  {
    hide Quoted, Enclosed, EntryTexts, SortEntries, FormatNumber, Encodable;
    forall r, s | t + r == u + s && Delimited(r) && Delimited(s)
      ensures t == u
    {
      StartsWithKind(v, t);
      StartsWithKind(w, u);
      assert (t + r)[0] == t[0] && (u + s)[0] == u[0];
      match v
      case JNull =>
      case JBool(_) =>
      case JString(a) =>
        StringsDelimited(a, w.t, r, s);
      case JNumber(n) =>
        NumberIsRun(n, t);
        NumberIsRun(w.n, u);
        RunsDelimited(t, u, r, s);
      case JArray(items) => ArraysDelimited(v, w, r, s);
      case JObject(ms) => ObjectsDelimited(v, w, r, s);
    }
  }

  lemma {:induction false} ArraysDelimited(v: Json, w: Json, r: Text, s: Text)
    requires v.JArray? && w.JArray? && Proper(v) && Proper(w) && Serialize(v).Some? && Serialize(w).Some?
    requires Serialize(v).value + r == Serialize(w).value + s
    ensures SerializeItems(v.items) == SerializeItems(w.items)
    decreases v, 0
  {
    var ts, us := SerializeItems(v.items).value, SerializeItems(w.items).value;
    forall i, j | 0 <= i < |ts| && 0 <= j < |us|
      ensures SelfDelimiting(ts[i], us[j])
    {
      ValuesDelimited(v.items[i], w.items[j], ts[i], us[j]);
    }
    forall i | 0 <= i < |ts|
      ensures ts[i] != [] && ts[i][0] != RBRACKET
    {
      StartsWithKind(v.items[i], ts[i]);
    }
    forall i | 0 <= i < |us|
      ensures us[i] != [] && us[i][0] != RBRACKET
    {
      StartsWithKind(w.items[i], us[i]);
    }
    EnclosedUnique(LBRACKET, ts, us, RBRACKET, r, s);
  }

  lemma EntriesDistinct(ms: seq<Member>)
    requires Proper(JObject(ms)) && SerializeMembers(ms).Some?
    ensures DistinctNames(SerializeMembers(ms).value)
  {
    var es := SerializeMembers(ms).value;
    forall i, j | 0 <= i < j < |es|
      ensures es[i].name != es[j].name
    {
      assert es[i].name == ms[i].name && es[j].name == ms[j].name;
    }
  }

  lemma {:induction false} ObjectsDelimited(v: Json, w: Json, r: Text, s: Text)
    requires v.JObject? && w.JObject? && Proper(v) && Proper(w) && Serialize(v).Some? && Serialize(w).Some?
    requires Serialize(v).value + r == Serialize(w).value + s
    ensures SortEntries(SerializeMembers(v.members).value) == SortEntries(SerializeMembers(w.members).value)
    decreases v, 0
  {
    var vs, ws := SerializeMembers(v.members).value, SerializeMembers(w.members).value;
    var es, fs := SortEntries(vs), SortEntries(ws);
    EntriesDistinct(v.members);
    EntriesDistinct(w.members);
    SortSorts(vs);
    SortSorts(ws);
    var ts, us := EntryTexts(es), EntryTexts(fs);
    forall i, j | 0 <= i < |es| && 0 <= j < |fs|
      ensures SelfDelimiting(ts[i], us[j]) && (ts[i] == us[j] ==> es[i] == fs[j])
    {
      assert es[i] in vs && fs[j] in ws;
      var a :| 0 <= a < |vs| && vs[a] == es[i];
      var b :| 0 <= b < |ws| && ws[b] == fs[j];
      ValuesDelimited(v.members[a].value, w.members[b].value, es[i].text, fs[j].text);
      EntriesDelimited(es[i], fs[j]);
    }
    EnclosedUnique(LBRACE, ts, us, RBRACE, r, s);
    forall i | 0 <= i < |es|
      ensures es[i] == fs[i]
    {
      assert ts[i] == us[i];
    }
  }

  // ---------------------------------------------------------------- equal text, equal value

  /** Equality of JSON values: numbers by value, objects as unordered maps. */
  predicate Same(v: Json, w: Json) {
    match (v, w)
    case (JNull, JNull) => true
    case (JBool(a), JBool(b)) => a == b
    case (JString(a), JString(b)) => a == b
    case (JNumber(a), JNumber(b)) => Value(a) == Value(b)
    case (JArray(a), JArray(b)) => |a| == |b| && forall k :: 0 <= k < |a| ==> Same(a[k], b[k])
    case (JObject(a), JObject(b)) =>
      |a| == |b| && forall i :: 0 <= i < |a| ==> exists j :: 0 <= j < |b| && SameMember(a[i], b[j])
    case _ => false
  }

  predicate SameMember(m: Member, n: Member) {
    m.name == n.name && Same(m.value, n.value)
  }

  /** Every integer is below 10^21, where floats of the same value turn to exponents. */
  predicate PlainNumbers(v: Json) {
    match v
    case JNumber(n) => Plain(n)
    case JArray(items) => forall k :: 0 <= k < |items| ==> PlainNumbers(items[k])
    case JObject(ms) => forall k :: 0 <= k < |ms| ==> PlainNumbers(ms[k].value)
    case _ => true
  }

  lemma {:induction false} EqualTextSameValue(v: Json, w: Json, t: Text)
    requires Accepted(v, t) && Accepted(w, t)
    ensures Same(v, w)
    decreases v
  {
    StartsWithKind(v, t);
    StartsWithKind(w, t);
    match v
    case JNull =>
    case JBool(_) =>
    case JString(a) =>
      assert Quoted(a) == Quoted(w.t);
      StringsDelimited(a, w.t, [], []);
    case JNumber(n) =>
      AsciiInjective(FormatNumber(n).value, FormatNumber(w.n).value);
      OneTextOneValue(n, w.n);
    case JArray(items) =>
      ArraysDelimited(v, w, [], []);
      forall k | 0 <= k < |items|
        ensures Same(items[k], w.items[k])
      {
        EqualTextSameValue(items[k], w.items[k], SerializeItems(items).value[k]);
      }
    case JObject(ms) =>
      ObjectsDelimited(v, w, [], []);
      EqualEntriesSameMembers(ms, w.members);
  }

  lemma SortKeepsLength(es: seq<Entry>)
    ensures |SortEntries(es)| == |es|
  {
    if es != [] {
      InsertLength(es[0], SortEntries(es[1..]));
    }
  }

  lemma InsertLength(e: Entry, es: seq<Entry>)
    ensures |Insert(e, es)| == |es| + 1
  {
  }

  lemma {:induction false} EqualEntriesSameMembers(ms: seq<Member>, ns: seq<Member>)
    requires Proper(JObject(ms)) && Proper(JObject(ns)) && SerializeMembers(ms).Some? && SerializeMembers(ns).Some?
    requires SortEntries(SerializeMembers(ms).value) == SortEntries(SerializeMembers(ns).value)
    ensures Same(JObject(ms), JObject(ns))
    decreases JObject(ms), 0
  {
    var es, fs := SerializeMembers(ms).value, SerializeMembers(ns).value;
    EntriesDistinct(ms);
    EntriesDistinct(ns);
    SortSorts(es);
    SortSorts(fs);
    SortKeepsLength(es);
    SortKeepsLength(fs);
    forall i | 0 <= i < |ms|
      ensures exists j :: 0 <= j < |ns| && SameMember(ms[i], ns[j])
    {
      assert es[i] in SortEntries(es);
      assert es[i] in fs;
      var j :| 0 <= j < |fs| && fs[j] == es[i];
      EqualTextSameValue(ms[i].value, ns[j].value, es[i].text);
      assert SameMember(ms[i], ns[j]);
    }
  }

  lemma {:induction false} SameValueEqualText(v: Json, w: Json)
    requires Proper(v) && Proper(w) && Serialize(v).Some? && Serialize(w).Some? && Same(v, w)
    requires PlainNumbers(v) && PlainNumbers(w)
    ensures Serialize(v) == Serialize(w)
    decreases v
  {
    match v
    case JNull =>
    case JBool(_) =>
    case JString(_) =>
    case JNumber(n) => OneTextOneValue(n, w.n);
    case JArray(items) =>
      forall k | 0 <= k < |items|
        ensures SerializeItems(items).value[k] == SerializeItems(w.items).value[k]
      {
        SameValueEqualText(items[k], w.items[k]);
      }
      assert SerializeItems(items).value == SerializeItems(w.items).value;
    case JObject(ms) =>
      var es, fs := SerializeMembers(ms).value, SerializeMembers(w.members).value;
      EntriesDistinct(ms);
      EntriesDistinct(w.members);
      forall i | 0 <= i < |ms|
        ensures es[i] in fs
      {
        var j :| 0 <= j < |w.members| && SameMember(ms[i], w.members[j]);
        SameValueEqualText(ms[i].value, w.members[j].value);
        assert fs[j] == es[i];
      }
      SameElements(es, fs);
      SortIgnoresOrder(es, fs);
  }

  /** Two lists of one length with distinct names, one inside the other, have the same elements. */
  lemma SameElements(es: seq<Entry>, fs: seq<Entry>)
    requires DistinctNames(es) && DistinctNames(fs) && |es| == |fs|
    requires forall i :: 0 <= i < |es| ==> es[i] in fs
    ensures forall x :: x in es <==> x in fs
  {
    var a, b := set x | x in es, set x | x in fs;
    Cardinality(es);
    Cardinality(fs);
    assert a <= b;
    SubsetOfSameSize(a, b);
    forall x
      ensures x in es <==> x in fs
    {
      assert x in es <==> x in a;
      assert x in fs <==> x in b;
    }
  }

  lemma {:induction false} Cardinality(es: seq<Entry>)
    requires forall i, j :: 0 <= i < j < |es| ==> es[i].name != es[j].name
    ensures |set x | x in es| == |es|
    decreases |es|
  {
    if es != [] {
      Cardinality(es[1..]);
      var rest := set x | x in es[1..];
      assert es[0] !in es[1..];
      assert (set x | x in es) == rest + {es[0]};
    }
  }

  lemma SubsetOfSameSize(a: set<Entry>, b: set<Entry>)
    requires a <= b && |a| == |b|
    ensures a == b
  {
    assert b == a + (b - a);
    assert |b| == |a| + |b - a|;
  }

  /** The scheme's point: two accepted values have the same canonical bytes only if they are the
      same value, and below 10^21 whenever they are. */
  lemma SameBytesIff(v: Json, w: Json)
    requires Proper(v) && Proper(w) && Canonicalize(v).Some? && Canonicalize(w).Some?
    ensures Canonicalize(v) == Canonicalize(w) ==> Same(v, w)
    ensures PlainNumbers(v) && PlainNumbers(w) && Same(v, w) ==> Canonicalize(v) == Canonicalize(w)
  {
    if Canonicalize(v) == Canonicalize(w) {
      Utf8Injective(Serialize(v).value, Serialize(w).value);
      EqualTextSameValue(v, w, Serialize(v).value);
    }
    if PlainNumbers(v) && PlainNumbers(w) && Same(v, w) {
      SameValueEqualText(v, w);
    }
  }

  // ---------------------------------------------------------------- what is accepted

  /** The check that runs over a parsed value; it does not look at member names. */
  predicate CheckDomain(v: Json) {
    match v
    case JString(t) => Encodable(t)
    case JNumber(n) => n.Integer? ==> SurvivesRoundTrip(n.i)
    case JArray(items) => forall k :: 0 <= k < |items| ==> CheckDomain(items[k])
    case JObject(ms) => forall k :: 0 <= k < |ms| ==> CheckDomain(ms[k].value)
    case _ => true
  }

  predicate NamesEncodable(v: Json) {
    match v
    case JArray(items) => forall k :: 0 <= k < |items| ==> NamesEncodable(items[k])
    case JObject(ms) => forall k :: 0 <= k < |ms| ==> Encodable(ms[k].name) && NamesEncodable(ms[k].value)
    case _ => true
  }

  lemma {:induction false} SerializesIff(v: Json)
    ensures Serialize(v).Some? <==> CheckDomain(v) && NamesEncodable(v)
    decreases v
  {
    match v
    case JArray(items) =>
      forall k | 0 <= k < |items|
        ensures Serialize(items[k]).Some? <==> CheckDomain(items[k]) && NamesEncodable(items[k])
      {
        SerializesIff(items[k]);
      }
    case JObject(ms) =>
      forall k | 0 <= k < |ms|
        ensures Serialize(ms[k].value).Some? <==> CheckDomain(ms[k].value) && NamesEncodable(ms[k].value)
      {
        SerializesIff(ms[k].value);
      }
    case _ =>
  }

  /** A value has canonical bytes exactly when it is in the domain and every member name can be
      encoded: what serializes can always be encoded. */
  lemma CanonicalizesIff(v: Json)
    ensures Canonicalize(v).Some? <==> CheckDomain(v) && NamesEncodable(v)
  {
    SerializesIff(v);
    if Serialize(v).Some? {
      TextEncodable(v);
    }
  }

  /** A value the parser admits canonicalizes unless some member name holds an unpaired
      surrogate, which the domain check lets through. */
  lemma AdmittedCanonicalizesIff(v: Json)
    requires CheckDomain(v)
    ensures Canonicalize(v).Some? <==> NamesEncodable(v)
  {
    CanonicalizesIff(v);
  }

  lemma LoneSurrogateNameAdmitted()
    ensures var v := JObject([Member([0xD800], JNull)]); Proper(v) && CheckDomain(v) && Canonicalize(v).None?
  {
    var v := JObject([Member([0xD800], JNull)]);
    assert IsSurrogate(v.members[0].name[0]);
    CanonicalizesIff(v);
  }

  /** The serialized text always has a UTF-8 encoding. */
  lemma {:induction false} TextEncodable(v: Json)
    requires Serialize(v).Some?
    ensures Encodable(Serialize(v).value)
    decreases v
  {
    hide Escaped, SortEntries, FormatNumber, Join;
    match v
    case JString(t) => EscapedEncodable(t);
    case JArray(items) =>
      var ts := SerializeItems(items).value;
      forall k | 0 <= k < |ts|
        ensures Encodable(ts[k])
      {
        TextEncodable(items[k]);
      }
      JoinEncodable(ts);
    case JObject(ms) =>
      var es := SerializeMembers(ms).value;
      forall k | 0 <= k < |es|
        ensures Encodable(EntryText(es[k]))
      {
        TextEncodable(ms[k].value);
        EscapedEncodable(es[k].name);
      }
      SortFrom(es);
      var ts := EntryTexts(SortEntries(es));
      forall k | 0 <= k < |ts|
        ensures Encodable(ts[k])
      {
        assert SortEntries(es)[k] in es;
      }
      JoinEncodable(ts);
    case JNumber(n) => AsciiEncodable(FormatNumber(n).value);
    case _ =>
  }

  lemma AsciiEncodable(s: string)
    ensures Encodable(Ascii(s))
  {
  }

  lemma SortFrom(es: seq<Entry>)
    ensures forall x :: x in SortEntries(es) ==> x in es
  {
    if es != [] {
      InsertFrom(es[0], SortEntries(es[1..]));
    }
  }

  lemma InsertFrom(e: Entry, es: seq<Entry>)
    ensures forall x :: x in Insert(e, es) ==> x == e || x in es
  {
  }

  lemma EscapedEncodable(t: Text)
    requires Encodable(t)
    ensures Encodable(Escaped(t))
  {
  }

  lemma JoinEncodable(ts: seq<Text>)
    requires forall k :: 0 <= k < |ts| ==> Encodable(ts[k])
    ensures Encodable(Join(ts))
  {
  }
}
