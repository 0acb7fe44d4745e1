/** The canonical execution request (config-ui/execution_envelope.py): its twelve members, and
    why two requests with one digest are one request. */
module Envelope {
  import opened Wrappers
  import opened CanonicalText
  import opened CanonicalJson
  import opened Percent

  // ---------------------------------------------------------------- path parameters

  const SLASH: Code := 0x2F
  const LBRACE_CODE: Code := 0x7B
  const RBRACE_CODE: Code := 0x7D
  const NEWLINE: Code := 0x0A

  predicate IsLetter(c: Code) {
    0x41 <= c <= 0x5A || 0x61 <= c <= 0x7A
  }

  predicate IsParameterName(t: Text) {
    t != [] && IsLetter(t[0]) && forall k :: 0 <= k < |t| ==> IsLetter(t[k]) || 0x30 <= t[k] <= 0x39
  }

  /** The name in braces that a template segment stands for; the pattern's end also matches before
      a final newline. */
  function TemplateParameter(t: Text): Option<Text> {
    var body := if t != [] && t[|t| - 1] == NEWLINE then t[..|t| - 1] else t;
    if |body| > 2 && body[0] == LBRACE_CODE && body[|body| - 1] == RBRACE_CODE && IsParameterName(body[1..|body| - 1])
    then Some(body[1..|body| - 1]) else None
  }

  function Split(t: Text): (parts: seq<Text>)
    ensures |parts| > 0
  {
    SplitAt(t, SLASH)
  }

  /** dict[name] = value: an existing entry keeps its place. */
  function Put(ms: seq<Member>, name: Text, value: Json): seq<Member> {
    if ms == [] then [Member(name, value)]
    else if ms[0].name == name then [Member(name, value)] + ms[1..]
    else [ms[0]] + Put(ms[1..], name, value)
  }

  /** One segment of the zip: None refuses the path. */
  function PutSegment(template: Text, actual: Text, ms: seq<Member>): Option<seq<Member>> {
    var parameter := TemplateParameter(template);
    if parameter.None? then if template == actual then Some(ms) else None
    else if actual == [] || CheckSegment(actual).Err? then None
    else Some(Put(ms, parameter.value, JString(CheckSegment(actual).value)))
  }

  function MatchParts(template: seq<Text>, actual: seq<Text>, ms: seq<Member>): Option<seq<Member>>
    requires |template| == |actual|
  {
    if template == [] then Some(ms)
    else
      var next := PutSegment(template[0], actual[0], ms);
      if next.None? then None else MatchParts(template[1..], actual[1..], next.value)
  }

  function PathParameters(template: Text, path: Text): Option<seq<Member>> {
    var ts, ps := Split(template), Split(path);
    if path == [] || path[0] != SLASH || BACKSLASH in path || |ts| != |ps| then None
    else MatchParts(ts, ps, [])
  }

  /** The loop that fills the dictionary. */
  method ComputePathParameters(template: Text, path: Text) returns (r: Option<seq<Member>>)
    ensures r == PathParameters(template, path)
  {
    if path == [] || path[0] != SLASH || BACKSLASH in path {
      return None;
    }
    var ts, ps := Split(template), Split(path);
    if |ts| != |ps| {
      return None;
    }
    var parameters: seq<Member> := [];
    var i := 0;
    while i < |ts|
      invariant 0 <= i <= |ts| == |ps|
      invariant MatchParts(ts[i..], ps[i..], parameters) == MatchParts(ts, ps, [])
    {
      assert ts[i..][1..] == ts[i + 1..] && ps[i..][1..] == ps[i + 1..];
      var next := PutSegment(ts[i], ps[i], parameters);
      if next.None? {
        return None;
      }
      parameters := next.value;
      i := i + 1;
    }
    return Some(parameters);
  }

  ghost predicate DistinctMembers(ms: seq<Member>) {
    forall i, j :: 0 <= i < j < |ms| ==> ms[i].name != ms[j].name
  }

  ghost predicate StringsOnly(ms: seq<Member>) {
    forall k :: 0 <= k < |ms| ==> ms[k].value.JString?
  }

  lemma {:induction false} PutKeepsDict(ms: seq<Member>, name: Text, value: Text)
    requires DistinctMembers(ms) && StringsOnly(ms)
    ensures DistinctMembers(Put(ms, name, JString(value))) && StringsOnly(Put(ms, name, JString(value)))
    ensures forall m :: m in Put(ms, name, JString(value)) ==> m.name == name || m in ms
    decreases |ms|
  {
    if ms != [] && ms[0].name != name {
      PutKeepsDict(ms[1..], name, value);
      var t := Put(ms[1..], name, JString(value));
      forall k | 0 <= k < |t|
        ensures t[k].name != ms[0].name
      {
        assert t[k] in t;
      }
    }
  }

  lemma {:induction false} MatchedIsDict(template: seq<Text>, actual: seq<Text>, ms: seq<Member>)
    requires |template| == |actual| && DistinctMembers(ms) && StringsOnly(ms)
    requires MatchParts(template, actual, ms).Some?
    ensures Proper(JObject(MatchParts(template, actual, ms).value))
    decreases |template|
  {
    if template != [] {
      var next := PutSegment(template[0], actual[0], ms).value;
      if TemplateParameter(template[0]).Some? {
        PutKeepsDict(ms, TemplateParameter(template[0]).value, CheckSegment(actual[0]).value);
      }
      MatchedIsDict(template[1..], actual[1..], next);
    }
  }

  // ---------------------------------------------------------------- query pairs

  function PairsJson(pairs: seq<Pair>): (r: seq<Json>)
    ensures |r| == |pairs|
    ensures forall k :: 0 <= k < |pairs| ==> r[k] == JArray([JString(pairs[k].name), JString(pairs[k].value)])
  {
    seq(|pairs|, k requires 0 <= k < |pairs| => JArray([JString(pairs[k].name), JString(pairs[k].value)]))
  }

  // ---------------------------------------------------------------- the envelope

  datatype Request = Request(
    instance: Text, verb: Text, operationId: Text, pathTemplate: Text, path: Text, query: Text,
    body: Json, resolvedDefaults: Json, confirmationFields: Json, revisionBinding: Json)

  const SCHEME := "mapp-jcs-v1"

  /** A request with its path parameters and its query pairs. */
  datatype Checked = Checked(request: Request, parameters: seq<Member>, pairs: seq<Pair>)

  /** The twelve members in the order the dictionary lists them. */
  function Members(c: Checked): seq<Member> {
    [ Member(Ascii("version"), JString(Ascii(SCHEME))),
      Member(Ascii("instance"), JString(c.request.instance)),
      Member(Ascii("method"), JString(c.request.verb)),
      Member(Ascii("operationId"), JString(c.request.operationId)),
      Member(Ascii("pathTemplate"), JString(c.request.pathTemplate)),
      Member(Ascii("pathParameters"), JObject(c.parameters)),
      Member(Ascii("path"), JString(c.request.path)),
      Member(Ascii("query"), JArray(PairsJson(c.pairs))),
      Member(Ascii("body"), c.request.body),
      Member(Ascii("resolvedDefaults"), c.request.resolvedDefaults),
      Member(Ascii("confirmationFields"), c.request.confirmationFields),
      Member(Ascii("revisionBinding"), c.request.revisionBinding) ]
  }

  predicate IsUpper(t: Text) {
    forall k :: 0 <= k < |t| ==> !(0x61 <= t[k] <= 0x7A)
  }

  function Check(repeatable: set<Text>, r: Request): Option<Checked> {
    var parameters := PathParameters(r.pathTemplate, r.path);
    var pairs := QueryPairs(r.query, repeatable);
    if !IsUpper(r.verb) || r.instance == [] || parameters.None? || pairs.None? then None
    else Some(Checked(r, parameters.value, pairs.value))
  }

  function Build(repeatable: set<Text>, r: Request): Option<Json> {
    var c := Check(repeatable, r);
    if c.None? then None else Some(JObject(Members(c.value)))
  }

  predicate ProperRequest(r: Request) {
    Proper(r.body) && Proper(r.resolvedDefaults) && Proper(r.confirmationFields) && Proper(r.revisionBinding)
  }

  const NAMES: seq<string> := [
    "version", "instance", "method", "operationId", "pathTemplate", "pathParameters",
    "path", "query", "body", "resolvedDefaults", "confirmationFields", "revisionBinding"]

  lemma NamesDistinct(i: nat, j: nat)
    requires i < 12 && j < 12 && Ascii(NAMES[i]) == Ascii(NAMES[j])
    ensures i == j
  {
    AsciiInjective(NAMES[i], NAMES[j]);
  }

  lemma MemberNames(c: Checked, i: nat)
    requires i < 12
    ensures Members(c)[i].name == Ascii(NAMES[i])
  {
  }

  /** The envelope is an object of exactly the twelve members, in their order, all different. */
  lemma EnvelopeProper(repeatable: set<Text>, r: Request)
    requires ProperRequest(r) && Build(repeatable, r).Some?
    ensures var v := Build(repeatable, r).value;
      && Proper(v) && v.JObject? && |v.members| == |NAMES| == 12
      && forall i :: 0 <= i < 12 ==> v.members[i].name == Ascii(NAMES[i])
  {
    hide PathParameters, QueryPairs;
    var c := Check(repeatable, r).value;
    var ms := Members(c);
    ParametersProper(r.pathTemplate, r.path);
    forall i, j | 0 <= i < j < |ms|
      ensures ms[i].name != ms[j].name
    {
      MemberNames(c, i);
      MemberNames(c, j);
      if ms[i].name == ms[j].name {
        NamesDistinct(i, j);
      }
    }
    assert forall k :: 0 <= k < |PairsJson(c.pairs)| ==> Proper(PairsJson(c.pairs)[k]);
    forall k | 0 <= k < |ms|
      ensures Proper(ms[k].value)
    {
    }
  }

  lemma ParametersProper(template: Text, path: Text)
    requires PathParameters(template, path).Some?
    ensures Proper(JObject(PathParameters(template, path).value))
  {
    MatchedIsDict(Split(template), Split(path), []);
  }

  predicate Admitted(v: Json) {
    CheckDomain(v) && NamesEncodable(v)
  }

  /** Everything the request brings is in the domain of canonical JSON. */
  predicate RequestAdmitted(c: Checked) {
    var r := c.request;
    && Encodable(r.instance) && Encodable(r.verb) && Encodable(r.operationId) && Encodable(r.pathTemplate)
    && Encodable(r.path) && (forall p :: p in c.pairs ==> PairEncodable(p)) && Admitted(JObject(c.parameters))
    && Admitted(r.body) && Admitted(r.resolvedDefaults) && Admitted(r.confirmationFields) && Admitted(r.revisionBinding)
  }

  lemma PairsAdmittedIff(pairs: seq<Pair>)
    ensures Admitted(JArray(PairsJson(pairs))) <==>
      forall p :: p in pairs ==> PairEncodable(p)
  {
    var items := PairsJson(pairs);
    forall k | 0 <= k < |pairs|
      ensures CheckDomain(items[k]) && NamesEncodable(items[k]) <==> PairEncodable(pairs[k])
    {
      var texts := [JString(pairs[k].name), JString(pairs[k].value)];
      assert items[k] == JArray(texts);
      assert CheckDomain(texts[0]) <==> Encodable(pairs[k].name);
      assert CheckDomain(texts[1]) <==> Encodable(pairs[k].value);
    }
    assert forall k :: 0 <= k < |pairs| ==> pairs[k] in pairs;
    if Admitted(JArray(items)) {
      forall p | p in pairs
        ensures PairEncodable(p)
      {
        var k :| 0 <= k < |pairs| && pairs[k] == p;
        assert CheckDomain(items[k]) && NamesEncodable(items[k]);
      }
    }
  }

  /** An envelope has a digest exactly when everything in the request is admitted. */
  lemma EnvelopeCanonicalizesIff(repeatable: set<Text>, r: Request)
    requires Build(repeatable, r).Some?
    ensures Canonicalize(Build(repeatable, r).value).Some? <==> RequestAdmitted(Check(repeatable, r).value)
  {
    hide Members, Canonicalize, PathParameters, QueryPairs, MemberValue;
    var c := Check(repeatable, r).value;
    CanonicalizesIff(JObject(Members(c)));
    MembersAdmittedIff(c);
    PairsAdmittedIff(c.pairs);
    ValuesAdmittedIff(c);
  }

  ghost predicate ValuesAdmitted(c: Checked) {
    forall i: nat :: i < 12 ==> Admitted(MemberValue(c, i))
  }

  lemma MembersAdmittedIff(c: Checked)
    ensures Admitted(JObject(Members(c))) <==> ValuesAdmitted(c)
  {
    hide MemberValue, NAMES;
    MemberAt(c, 0);
    forall i: nat | i < 12
      ensures Members(c)[i].value == MemberValue(c, i)
      ensures Encodable(Members(c)[i].name)
    {
      MemberAt(c, i);
      NameEncodable(i);
    }
  }

  lemma NameEncodable(i: nat)
    requires i < 12
    ensures Encodable(Ascii(NAMES[i]))
  {
    AsciiEncodable(NAMES[i]);
  }

  lemma ValuesAdmittedIff(c: Checked)
    ensures var r := c.request;
      ValuesAdmitted(c) <==>
        && Encodable(r.instance) && Encodable(r.verb) && Encodable(r.operationId) && Encodable(r.pathTemplate)
        && Encodable(r.path) && Admitted(JArray(PairsJson(c.pairs))) && Admitted(JObject(c.parameters))
        && Admitted(r.body) && Admitted(r.resolvedDefaults) && Admitted(r.confirmationFields)
        && Admitted(r.revisionBinding)
  {
    AsciiEncodable(SCHEME);
    var all := ValuesAdmitted(c);
    assert all ==> Admitted(MemberValue(c, 1)) && Admitted(MemberValue(c, 2));
    assert all ==> Admitted(MemberValue(c, 3)) && Admitted(MemberValue(c, 4));
    assert all ==> Admitted(MemberValue(c, 5)) && Admitted(MemberValue(c, 6));
    assert all ==> Admitted(MemberValue(c, 7)) && Admitted(MemberValue(c, 8));
    assert all ==> Admitted(MemberValue(c, 9)) && Admitted(MemberValue(c, 10));
    assert all ==> Admitted(MemberValue(c, 11));
  }

  /** Two requests whose envelopes have the same bytes, and so the same digest, agree on every
      member: nothing a token was bound to can be exchanged for something else. The query is bound
      by its pairs, not by how they were spelled. */
  lemma SameDigestSameRequest(repeatable: set<Text>, a: Request, b: Request)
    requires ProperRequest(a) && ProperRequest(b)
    requires Build(repeatable, a).Some? && Build(repeatable, b).Some?
    requires Canonicalize(Build(repeatable, a).value).Some?
    requires Canonicalize(Build(repeatable, a).value) == Canonicalize(Build(repeatable, b).value)
    ensures a.instance == b.instance && a.verb == b.verb && a.operationId == b.operationId
    ensures a.pathTemplate == b.pathTemplate && a.path == b.path
    ensures QueryPairs(a.query, repeatable) == QueryPairs(b.query, repeatable)
    ensures Same(a.body, b.body) && Same(a.resolvedDefaults, b.resolvedDefaults)
    ensures Same(a.confirmationFields, b.confirmationFields) && Same(a.revisionBinding, b.revisionBinding)
  {
    hide Members, Canonicalize, Same, PathParameters, QueryPairs;
    var x, y := Check(repeatable, a).value, Check(repeatable, b).value;
    EnvelopeProper(repeatable, a);
    EnvelopeProper(repeatable, b);
    SameBytesIff(JObject(Members(x)), JObject(Members(y)));
    SameEnvelopes(x, y);
  }

  /** The value of the member named NAMES[i]. */
  function MemberValue(c: Checked, i: nat): Json {
    match i
    case 0 => JString(Ascii(SCHEME))
    case 1 => JString(c.request.instance)
    case 2 => JString(c.request.verb)
    case 3 => JString(c.request.operationId)
    case 4 => JString(c.request.pathTemplate)
    case 5 => JObject(c.parameters)
    case 6 => JString(c.request.path)
    case 7 => JArray(PairsJson(c.pairs))
    case 8 => c.request.body
    case 9 => c.request.resolvedDefaults
    case 10 => c.request.confirmationFields
    case _ => c.request.revisionBinding
  }

  lemma MemberAt(c: Checked, i: nat)
    requires i < 12
    ensures |Members(c)| == 12
    ensures Members(c)[i] == Member(Ascii(NAMES[i]), MemberValue(c, i))
  {
  }

  lemma AlignedMember(a: Checked, b: Checked, i: nat)
    requires i < 12 && Same(JObject(Members(a)), JObject(Members(b)))
    ensures Same(MemberValue(a, i), MemberValue(b, i))
  {
    hide Members, MemberValue, NAMES;
    var ms, ns := Members(a), Members(b);
    MemberAt(a, i);
    var j: nat :| j < |ns| && SameMember(ms[i], ns[j]);
    MemberAt(b, 0);
    MemberAt(b, j);
    NamesDistinct(i, j);
  }

  lemma SameEnvelopes(a: Checked, b: Checked)
    requires Same(JObject(Members(a)), JObject(Members(b)))
    ensures var x, y := a.request, b.request;
      && x.instance == y.instance && x.verb == y.verb && x.operationId == y.operationId
      && x.pathTemplate == y.pathTemplate && x.path == y.path && a.pairs == b.pairs
      && Same(x.body, y.body) && Same(x.resolvedDefaults, y.resolvedDefaults)
      && Same(x.confirmationFields, y.confirmationFields) && Same(x.revisionBinding, y.revisionBinding)
  {
    hide Members;
    AlignedMember(a, b, 1);
    AlignedMember(a, b, 2);
    AlignedMember(a, b, 3);
    AlignedMember(a, b, 4);
    AlignedMember(a, b, 6);
    AlignedMember(a, b, 7);
    AlignedMember(a, b, 8);
    AlignedMember(a, b, 9);
    AlignedMember(a, b, 10);
    AlignedMember(a, b, 11);
    SameQueries(a.pairs, b.pairs);
  }

  lemma SameQueries(a: seq<Pair>, b: seq<Pair>)
    requires Same(JArray(PairsJson(a)), JArray(PairsJson(b)))
    ensures a == b
  {
    forall k | 0 <= k < |a|
      ensures a[k] == b[k]
    {
      var x, y := PairsJson(a)[k], PairsJson(b)[k];
      assert Same(x, y);
      assert Same(x.items[0], y.items[0]) && Same(x.items[1], y.items[1]);
    }
  }
}
