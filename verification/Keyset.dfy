/** Keyset pagination of the proposal directory (config-ui/control_api.py): a bounded heap instead
    of a sort, pages bounded in items and bytes, and a walk that misses and repeats nothing. */
module Keyset {
  import opened Wrappers
  import opened CanonicalText
  import opened CanonicalJson

  const COLLECTION_PAGE_MAX_ITEMS_BYTES: nat := 15728640

  // ---------------------------------------------------------------- descending order

  /** Python's order of strings. */
  predicate Less(a: Text, b: Text) {
    LexLess(a, b)
  }

  lemma LessTotal(a: Text, b: Text)
    ensures a == b || Less(a, b) || Less(b, a)
    ensures !(Less(a, b) && Less(b, a)) && !Less(a, a)
  {
    LexTotal(a, b);
  }

  lemma LessTransitive(a: Text, b: Text, c: Text)
    requires Less(a, b) && Less(b, c)
    ensures Less(a, c)
  {
    LexTransitive(a, b, c);
  }

  predicate IsGreatest(s: set<Text>, m: Text) {
    m in s && forall x :: x in s ==> x == m || Less(x, m)
  }

  lemma {:induction false} GreatestExists(s: set<Text>)
    requires s != {}
    ensures exists m :: IsGreatest(s, m)
    decreases |s|
  {
    hide Less;
    var a :| a in s;
    if s == {a} {
      assert IsGreatest(s, a);
    } else {
      GreatestExists(s - {a});
      var m: Text :| IsGreatest(s - {a}, m);
      LessTotal(a, m);
      if Less(m, a) {
        forall x | x in s ensures x == a || Less(x, a) {
          if x != a && x != m { LessTransitive(x, m, a); }
        }
        assert IsGreatest(s, a);
      } else {
        assert IsGreatest(s, m);
      }
    }
  }

  lemma GreatestUnique(s: set<Text>, m: Text, n: Text)
    requires IsGreatest(s, m) && IsGreatest(s, n)
    ensures m == n
  {
    LessTotal(m, n);
  }

  function Greatest(s: set<Text>): (m: Text)
    requires s != {}
    ensures IsGreatest(s, m)
  {
    GreatestExists(s);
    assert forall m, n :: IsGreatest(s, m) && IsGreatest(s, n) ==> m == n by {
      forall m, n | IsGreatest(s, m) && IsGreatest(s, n) ensures m == n { GreatestUnique(s, m, n); }
    }
    var m :| m in s && IsGreatest(s, m);
    m
  }

  /** sorted(names, reverse=True). */
  function Descending(s: set<Text>): (d: seq<Text>)
    ensures |d| == |s| && forall x :: x in d <==> x in s
    decreases |s|
  {
    if s == {} then [] else
    var m := Greatest(s);
    var rest := Descending(s - {m});
    assert forall x :: x in [m] + rest <==> x in s;
    [m] + rest
  }

  lemma {:induction false} DescendingOrdered(s: set<Text>)
    ensures forall i, j :: 0 <= i < j < |s| ==> Less(Descending(s)[j], Descending(s)[i])
    decreases |s|
  {
    if s != {} {
      var m := Greatest(s);
      DescendingOrdered(s - {m});
      var rest := Descending(s - {m});
      forall i, j | 0 <= i < j < |s| ensures Less(Descending(s)[j], Descending(s)[i]) {
        if i == 0 {
          assert rest[j - 1] in rest;
        }
      }
    }
  }

  /** The greatest elements of a set, sorted, are a prefix of the set, sorted. */
  lemma {:induction false} TopIsPrefix(s: set<Text>, top: set<Text>)
    requires top <= s && forall x, y :: x in s - top && y in top ==> Less(x, y)
    ensures |top| <= |s| && Descending(top) == Descending(s)[..|top|]
    decreases |top|
  {
    SubsetSize(top, s);
    if top != {} {
      var m := Greatest(top);
      assert IsGreatest(s, m);
      GreatestUnique(s, m, Greatest(s));
      assert (s - {m}) - (top - {m}) == s - top;
      TopIsPrefix(s - {m}, top - {m});
      assert Descending(s)[..|top|] == [m] + Descending(s - {m})[..|top| - 1];
    }
  }

  lemma SubsetSize(a: set<Text>, b: set<Text>)
    requires a <= b
    ensures |a| <= |b|
  {
    assert b == a + (b - a);
  }

  // ---------------------------------------------------------------- the bounded heap

  predicate Below(name: Text, after: Option<Text>) {
    after.None? || Less(name, after.value)
  }

  /** The names a page may still show. */
  function Eligible(names: set<Text>, after: Option<Text>): set<Text> {
    set n | n in names && Below(n, after)
  }

  function NamesOf(entries: seq<Text>): set<Text> {
    set n | n in entries
  }

  predicate IsLeast(s: set<Text>, m: Text) {
    m in s && forall x :: x in s ==> x == m || Less(m, x)
  }

  /** heap[0] of a heap that holds these names. */
  method Least(s: set<Text>) returns (m: Text)
    requires s != {}
    ensures IsLeast(s, m)
  {
    m :| m in s;
    var todo := s - {m};
    while todo != {}
      invariant todo <= s && m in s - todo
      invariant forall x :: x in s - todo ==> x == m || Less(m, x)
      decreases |todo|
    {
      var a :| a in todo;
      LessTotal(a, m);
      if Less(a, m) {
        forall x | x in s - todo && x != m ensures Less(a, x) {
          LessTransitive(a, m, x);
        }
        m := a;
      }
      todo := todo - {a};
    }
  }

  /** What the heap holds after a scan: the greatest of what was seen, up to its bound. */
  ghost predicate TopOf(seen: set<Text>, heap: set<Text>, bound: nat) {
    && heap <= seen && |heap| <= bound && (|heap| < bound ==> heap == seen)
    && (forall x, y :: x in seen - heap && y in heap ==> Less(x, y))
  }

  lemma PushKeeps(seen: set<Text>, heap: set<Text>, bound: nat, name: Text)
    requires TopOf(seen, heap, bound) && |heap| < bound && name !in seen
    ensures TopOf(seen + {name}, heap + {name}, bound)
  {
    assert |heap + {name}| == |heap| + 1;
  }

  lemma ReplaceKeeps(seen: set<Text>, heap: set<Text>, bound: nat, name: Text, least: Text)
    requires TopOf(seen, heap, bound) && IsLeast(heap, least) && Less(least, name) && name !in seen && |heap| == bound
    ensures TopOf(seen + {name}, heap - {least} + {name}, bound)
  {
    var after := heap - {least} + {name};
    forall x, y | x in seen + {name} - after && y in after ensures Less(x, y) {
      if x != least {
        if y == name { LessTransitive(x, least, name); }
      }
    }
    assert |heap - {least}| == |heap| - 1 && |after| == |heap|;
  }

  lemma SkipKeeps(seen: set<Text>, heap: set<Text>, bound: nat, name: Text, least: Text)
    requires TopOf(seen, heap, bound) && IsLeast(heap, least) && !Less(least, name) && name !in seen && |heap| == bound
    ensures TopOf(seen + {name}, heap, bound)
  {
    LessTotal(least, name);
    forall x, y | x in seen + {name} - heap && y in heap ensures Less(x, y) {
      if x == name && y != least { LessTransitive(name, least, y); }
    }
  }

  /** proposal_list with a fetch limit: one pass over the directory, in whatever order it is read,
      with a heap of at most that many names. */
  method ProposalNames(entries: seq<Text>, after: Option<Text>, fetchLimit: nat) returns (r: seq<Text>)
    requires fetchLimit >= 1 && forall i, j :: 0 <= i < j < |entries| ==> entries[i] != entries[j]
    ensures (var sorted := Descending(Eligible(NamesOf(entries), after));
      r == if |sorted| <= fetchLimit then sorted else sorted[..fetchLimit])
  {
    hide Less, TopOf;
    var heap: set<Text> := {};
    ghost var seen: set<Text> := {};
    EmptyHeap(fetchLimit);
    var i := 0;
    while i < |entries|
      invariant 0 <= i <= |entries| && seen == Eligible(NamesOf(entries[..i]), after)
      invariant TopOf(seen, heap, fetchLimit) && |heap| <= fetchLimit
    {
      var name := entries[i];
      EligibleSnoc(entries, i, after);
      if Below(name, after) {
        heap := HeapAdd(seen, heap, fetchLimit, name);
        seen := seen + {name};
      }
      i := i + 1;
    }
    assert entries[..i] == entries;
    HeapIsPrefix(seen, heap, fetchLimit);
    r := Descending(heap);
  }

  /** heappush below the bound, heapreplace of the least at it. */
  method HeapAdd(ghost seen: set<Text>, heap: set<Text>, bound: nat, name: Text) returns (r: set<Text>)
    requires TopOf(seen, heap, bound) && bound >= 1 && name !in seen
    ensures TopOf(seen + {name}, r, bound) && |r| <= bound
  {
    if |heap| < bound {
      PushKeeps(seen, heap, bound, name);
      return heap + {name};
    }
    var least := Least(heap);
    if Less(least, name) {
      ReplaceKeeps(seen, heap, bound, name, least);
      return heap - {least} + {name};
    }
    SkipKeeps(seen, heap, bound, name, least);
    return heap;
  }

  lemma EmptyHeap(bound: nat)
    ensures TopOf({}, {}, bound)
  {
  }

  lemma HeapIsPrefix(seen: set<Text>, heap: set<Text>, bound: nat)
    requires TopOf(seen, heap, bound)
    ensures Descending(heap) == if |seen| <= bound then Descending(seen) else Descending(seen)[..bound]
  {
    TopIsPrefix(seen, heap);
  }

  lemma EligibleSnoc(entries: seq<Text>, i: nat, after: Option<Text>)
    requires i < |entries| && forall i, j :: 0 <= i < j < |entries| ==> entries[i] != entries[j]
    ensures (var before, next := Eligible(NamesOf(entries[..i]), after), Eligible(NamesOf(entries[..i + 1]), after);
      entries[i] !in before && next == if Below(entries[i], after) then before + {entries[i]} else before)
  {
    hide Less;
    assert entries[..i + 1] == entries[..i] + [entries[i]];
    assert entries[i] !in entries[..i];
  }

  // ---------------------------------------------------------------- one page

  datatype PageError = PageTooLarge
  datatype Item = Item(id: Text, text: Text)

  /** The length of the compact JSON array of these texts. */
  function ArrayLength(items: seq<Item>): nat {
    |Enclosed(LBRACKET, Texts(items), RBRACKET)|
  }

  function Texts(items: seq<Item>): (ts: seq<Text>)
    ensures |ts| == |items| && forall k :: 0 <= k < |items| ==> ts[k] == items[k].text
  {
    seq(|items|, k requires 0 <= k < |items| => items[k].text)
  }

  lemma {:induction false} JoinSnoc(ts: seq<Text>, t: Text)
    ensures |Join(ts + [t])| == |Join(ts)| + (if ts == [] then 0 else 1) + |t|
    decreases |ts|
  {
    if ts != [] {
      JoinSnoc(ts[1..], t);
      assert (ts + [t])[1..] == ts[1..] + [t];
    }
  }

  lemma ArraySnoc(items: seq<Item>, item: Item)
    ensures ArrayLength(items + [item]) == ArrayLength(items) + (if items == [] then 0 else 1) + |item.text|
    ensures ArrayLength([]) == 2
  {
    JoinSnoc(Texts(items), item.text);
    assert Texts(items + [item]) == Texts(items) + [item.text];
    assert Texts([]) == [];
  }

  predicate Oversize(item: Item) {
    |item.text| + 2 > COLLECTION_PAGE_MAX_ITEMS_BYTES
  }

  /** How many items fit: as many as the limit allows before the array would grow too long. */
  predicate Cut(items: seq<Item>, limit: nat, n: nat) {
    && n <= |items| && n <= limit
    && ArrayLength(items[..n]) <= COLLECTION_PAGE_MAX_ITEMS_BYTES
    && (n < |items| && n < limit ==> ArrayLength(items[..n + 1]) > COLLECTION_PAGE_MAX_ITEMS_BYTES)
  }

  /** How many of these items the page holds, counting from n. */
  function Count(items: seq<Item>, limit: nat, n: nat): (r: Result<nat, PageError>)
    requires n <= |items| && n <= limit && ArrayLength(items[..n]) <= COLLECTION_PAGE_MAX_ITEMS_BYTES
    ensures r.Ok? ==> n <= r.value && Cut(items, limit, r.value)
    ensures r.Ok? ==> forall k :: n <= k < r.value ==> !Oversize(items[k])
    ensures r.Ok? && r.value < |items| && r.value < limit ==> !Oversize(items[r.value])
    ensures r.Err? ==> r.error == PageTooLarge && exists k :: n <= k < |items| && k < limit && Oversize(items[k])
    decreases |items| - n
  {
    if n == |items| || n == limit then Ok(n)
    else if Oversize(items[n]) then Err(PageTooLarge)
    else if ArrayLength(items[..n + 1]) > COLLECTION_PAGE_MAX_ITEMS_BYTES then Ok(n)
    else Count(items, limit, n + 1)
  }

  /** What the bounded collection is, as a function. */
  function Bounded(items: seq<Item>, limit: nat): Result<nat, PageError> {
    ArraySnoc([], Item([], []));
    assert items[..0] == [];
    Count(items, limit, 0)
  }

  /** _bounded_collection_items: the running count is the length of the array so far. It fails exactly
      when it reaches an item that fits no page. */
  method BoundedCollectionItems(items: seq<Item>, limit: nat) returns (r: Result<(seq<Item>, bool), PageError>)
    ensures r == if Bounded(items, limit).Err? then Err(PageTooLarge)
                 else Ok((items[..Bounded(items, limit).value], Bounded(items, limit).value < |items|))
  {
    var bounded: seq<Item> := [];
    var used := 2;
    ArraySnoc([], Item([], []));
    assert items[..0] == [];
    while |bounded| < |items| && |bounded| < limit
      invariant |bounded| <= |items| && |bounded| <= limit && bounded == items[..|bounded|]
      invariant used == ArrayLength(bounded) <= COLLECTION_PAGE_MAX_ITEMS_BYTES
      invariant Bounded(items, limit) == Count(items, limit, |bounded|)
      decreases |items| - |bounded|
    {
      var n := |bounded|;
      var item := items[n];
      var separator := if bounded == [] then 0 else 1;
      ArraySnoc(bounded, item);
      assert items[..n + 1] == bounded + [item];
      if |item.text| + 2 > COLLECTION_PAGE_MAX_ITEMS_BYTES {
        return Err(PageTooLarge);
      }
      if used + separator + |item.text| > COLLECTION_PAGE_MAX_ITEMS_BYTES {
        return Ok((bounded, true));
      }
      bounded := bounded + [item];
      used := used + separator + |item.text|;
    }
    return Ok((bounded, |items| > limit));
  }

  // ---------------------------------------------------------------- the walk

  datatype Page = Page(ids: seq<Text>, next: Option<Text>)

  /** The summaries of the next names, and one more to tell whether there is more. */
  function Fetched(dir: map<Text, Text>, after: Option<Text>, limit: nat): (items: seq<Item>)
    ensures |items| <= limit + 1 && |items| <= |Eligible(dir.Keys, after)|
    ensures |items| < limit + 1 ==> |items| == |Eligible(dir.Keys, after)|
    ensures forall k :: 0 <= k < |items| ==> items[k].id == Descending(Eligible(dir.Keys, after))[k]
    ensures forall k :: 0 <= k < |items| ==> items[k].id in Eligible(dir.Keys, after) && items[k] == Summary(dir, items[k].id)
  {
    var d := Descending(Eligible(dir.Keys, after));
    assert forall k :: 0 <= k < |d| ==> d[k] in Eligible(dir.Keys, after) by {
      forall k | 0 <= k < |d| ensures d[k] in Eligible(dir.Keys, after) { assert d[k] in d; }
    }
    var n := if |d| <= limit + 1 then |d| else limit + 1;
    seq(n, k requires 0 <= k < n => Summary(dir, d[k]))
  }

  function Summary(dir: map<Text, Text>, id: Text): Item
    requires id in dir
  {
    Item(id, dir[id])
  }

  /** paginate_keyset_page over what was fetched. */
  function PageAfter(dir: map<Text, Text>, after: Option<Text>, limit: nat): Result<Page, PageError> {
    var items := Fetched(dir, after, limit);
    var n := Bounded(items, limit);
    if n.Err? then Err(n.error)
    else
      var ids := seq(n.value, k requires 0 <= k < n.value => items[k].id);
      Ok(Page(ids, if n.value < |items| && n.value > 0 then Some(ids[n.value - 1]) else None))
  }

  /** The names after the i-th in descending order are the rest of the order. */
  lemma RestOf(names: set<Text>, after: Option<Text>, i: nat)
    requires i < |Eligible(names, after)|
    ensures (var d := Descending(Eligible(names, after));
      && Eligible(names, Some(d[i])) < Eligible(names, after)
      && Descending(Eligible(names, Some(d[i]))) == d[i + 1..])
  {
    var s := Eligible(names, after);
    var d := Descending(s);
    DescendingOrdered(s);
    var rest := Eligible(names, Some(d[i]));
    assert d[i] in d;
    forall x | x in rest ensures x in s {
      if after.Some? { LessTransitive(x, d[i], after.value); }
    }
    LessTotal(d[i], d[i]);
    assert d[i] !in rest;
    forall k | 0 <= k < |d| ensures d[k] in rest <==> k > i {
      assert d[k] in d;
      if k < i { LessTotal(d[k], d[i]); }
    }
    SuffixIsDescending(s, rest, i + 1);
  }

  /** Dropping the greatest n leaves the suffix. */
  lemma {:induction false} SuffixIsDescending(s: set<Text>, rest: set<Text>, n: nat)
    requires n <= |s| && rest <= s
    requires forall k :: 0 <= k < |s| ==> (Descending(s)[k] in rest <==> k >= n)
    ensures Descending(rest) == Descending(s)[n..]
    decreases |s|
  {
    if n == 0 {
      AllOfDescending(s, rest);
    } else {
      var m := Greatest(s);
      DescendingStep(s);
      hide Descending;
      var d := Descending(s);
      assert d[0] == m && d[1..] == Descending(s - {m});
      assert m !in rest;
      forall k | 0 <= k < |s - {m}| ensures Descending(s - {m})[k] in rest <==> k >= n - 1 {
        assert Descending(s - {m})[k] == d[k + 1];
      }
      SuffixIsDescending(s - {m}, rest, n - 1);
      assert d[n..] == d[1..][n - 1..];
    }
  }

  lemma DescendingStep(s: set<Text>)
    requires s != {}
    ensures Descending(s) == [Greatest(s)] + Descending(s - {Greatest(s)})
  {
  }

  lemma AllOfDescending(s: set<Text>, rest: set<Text>)
    requires rest <= s && forall k :: 0 <= k < |s| ==> Descending(s)[k] in rest
    ensures rest == s && Descending(rest) == Descending(s)[0..]
  {
    hide Descending;
    var d := Descending(s);
    forall x | x in s
      ensures x in rest
    {
      assert x in d;
    }
  }

  function Prepend(ids: seq<Text>, rest: Result<seq<seq<Text>>, PageError>): Result<seq<seq<Text>>, PageError> {
    if rest.Err? then rest else Ok([ids] + rest.value)
  }

  lemma PageIsPrefix(dir: map<Text, Text>, after: Option<Text>, limit: nat)
    requires PageAfter(dir, after, limit).Ok?
    ensures (var d := Descending(Eligible(dir.Keys, after));
      var page := PageAfter(dir, after, limit).value;
      && |page.ids| <= |d| && page.ids == d[..|page.ids|] && |page.ids| <= limit
      && (page.next.Some? ==> |page.ids| > 0 && page.next.value == page.ids[|page.ids| - 1])
      && (page.next.Some? ==> |page.ids| < |d|)
      && (page.next.None? ==> |page.ids| == |d| || |page.ids| == 0))
  {
    hide Descending, Eligible, Bounded, Fetched;
    var items := Fetched(dir, after, limit);
    BoundedWithin(items, limit);
    assert |items| <= |Descending(Eligible(dir.Keys, after))|;
  }

  lemma BoundedWithin(items: seq<Item>, limit: nat)
    requires Bounded(items, limit).Ok?
    ensures Bounded(items, limit).value <= |items| && Bounded(items, limit).value <= limit
  {
  }

  /** Follow the cursors over a directory that does not change. */
  function Walk(dir: map<Text, Text>, after: Option<Text>, limit: nat): Result<seq<seq<Text>>, PageError>
    decreases |Eligible(dir.Keys, after)|
  {
    var page := PageAfter(dir, after, limit);
    if page.Err? then Err(page.error)
    else if page.value.next.None? then Ok([page.value.ids])
    else
      PageIsPrefix(dir, after, limit);
      RestOf(dir.Keys, after, |page.value.ids| - 1);
      SmallerSize(Eligible(dir.Keys, page.value.next), Eligible(dir.Keys, after));
      Prepend(page.value.ids, Walk(dir, page.value.next, limit))
  }

  lemma SmallerSize(a: set<Text>, b: set<Text>)
    requires a < b
    ensures |a| < |b|
  {
    var x :| x in b && x !in a;
    SubsetSize(a, b - {x});
  }

  function Flatten(pages: seq<seq<Text>>): seq<Text> {
    if pages == [] then [] else pages[0] + Flatten(pages[1..])
  }

  /** Every proposal that is left can be shown on some page. */
  predicate AllShowable(dir: map<Text, Text>, after: Option<Text>) {
    forall id :: id in Eligible(dir.Keys, after) ==> !Oversize(Summary(dir, id))
  }

  lemma FirstFits(items: seq<Item>, limit: nat)
    requires |items| > 0 && limit >= 1
    ensures Bounded(items, limit).Ok? ==> Bounded(items, limit).value > 0
  {
    ArraySnoc([], items[0]);
    assert items[..1] == [] + [items[0]];
  }

  /** A page of what is left is not empty, unless nothing is left; and it fails only on an item that
      no page could hold. */
  lemma PageProgress(dir: map<Text, Text>, after: Option<Text>, limit: nat)
    requires limit >= 1
    ensures AllShowable(dir, after) ==> PageAfter(dir, after, limit).Ok?
    ensures PageAfter(dir, after, limit).Ok? && Eligible(dir.Keys, after) != {} ==> |PageAfter(dir, after, limit).value.ids| > 0
    ensures PageAfter(dir, after, limit).Ok? ==>
      (var ids := PageAfter(dir, after, limit).value.ids;
      forall k :: 0 <= k < |ids| ==> ids[k] in dir && !Oversize(Summary(dir, ids[k])))
  {
    hide ArrayLength, Descending, Oversize;
    var items := Fetched(dir, after, limit);
    if |items| > 0 {
      FirstFits(items, limit);
    }
    if PageAfter(dir, after, limit).Ok? {
      var ids := PageAfter(dir, after, limit).value.ids;
      forall k | 0 <= k < |ids| ensures ids[k] in dir && !Oversize(Summary(dir, ids[k])) {
        assert items[k] == Summary(dir, items[k].id) && ids[k] == items[k].id;
        assert !Oversize(items[k]);
      }
    }
  }

  /** What is left can be shown exactly when this page and what is left after it can. */
  lemma ShowableSplit(dir: map<Text, Text>, after: Option<Text>, n: nat)
    requires 0 < n <= |Eligible(dir.Keys, after)|
    requires (var d := Descending(Eligible(dir.Keys, after));
      forall k :: 0 <= k < n ==> d[k] in dir && !Oversize(Summary(dir, d[k])))
    ensures AllShowable(dir, after) <==> AllShowable(dir, Some(Descending(Eligible(dir.Keys, after))[n - 1]))
  {
    var s := Eligible(dir.Keys, after);
    var rest := Eligible(dir.Keys, Some(Descending(s)[n - 1]));
    RestOf(dir.Keys, after, n - 1);
    forall id | id in s ensures id in rest || !Oversize(Summary(dir, id)) {
      PrefixOrRest(s, rest, n, id);
    }
  }

  lemma PrefixOrRest(s: set<Text>, rest: set<Text>, n: nat, id: Text)
    requires n <= |s| && Descending(rest) == Descending(s)[n..] && id in s
    ensures id in rest || id in Descending(s)[..n]
  {
    hide Descending;
    var d := Descending(s);
    assert id in d;
    var k :| 0 <= k < |d| && d[k] == id;
    if k >= n {
      assert d[n..][k - n] == id;
      assert id in Descending(rest);
    } else {
      assert d[..n][k] == id;
    }
  }

  lemma LastPage(dir: map<Text, Text>, after: Option<Text>, ids: seq<Text>)
    requires ids == Descending(Eligible(dir.Keys, after))
    requires forall k :: 0 <= k < |ids| ==> ids[k] in dir && !Oversize(Summary(dir, ids[k]))
    ensures AllShowable(dir, after)
  {
    forall id | id in Eligible(dir.Keys, after) ensures !Oversize(Summary(dir, id)) {
      assert id in ids;
    }
  }

  /** Following the cursors from the start yields every proposal exactly once, in the unpaginated
      order, in non-empty pages; it fails exactly when some proposal fits no page. */
  lemma {:induction false} WalkYieldsAll(dir: map<Text, Text>, after: Option<Text>, limit: nat)
    requires limit >= 1
    ensures Walk(dir, after, limit).Ok? <==> AllShowable(dir, after)
    ensures Walk(dir, after, limit).Ok? ==> Flatten(Walk(dir, after, limit).value) == Descending(Eligible(dir.Keys, after))
    ensures Walk(dir, after, limit).Ok? && Eligible(dir.Keys, after) != {} ==>
      forall k :: 0 <= k < |Walk(dir, after, limit).value| ==> 0 < |Walk(dir, after, limit).value[k]| <= limit
    decreases |Eligible(dir.Keys, after)|
  {
    hide PageAfter, Eligible, AllShowable, Oversize, Walk, Descending, Flatten;
    PageProgress(dir, after, limit);
    WalkStep(dir, after, limit);
    if PageAfter(dir, after, limit).Ok? {
      var page := PageAfter(dir, after, limit).value;
      var d := Descending(Eligible(dir.Keys, after));
      PageIsPrefix(dir, after, limit);
      if page.next.None? {
        assert page.ids == d;
        LastPage(dir, after, page.ids);
        OnePage(page.ids);
      } else {
        var n := |page.ids|;
        RestOf(dir.Keys, after, n - 1);
        SmallerSize(Eligible(dir.Keys, page.next), Eligible(dir.Keys, after));
        ShowableSplit(dir, after, n);
        WalkYieldsAll(dir, page.next, limit);
        MorePages(page.ids, Walk(dir, page.next, limit), d);
      }
    }
  }

  lemma WalkStep(dir: map<Text, Text>, after: Option<Text>, limit: nat)
    ensures (var page := PageAfter(dir, after, limit);
      Walk(dir, after, limit) ==
        if page.Err? then Err(page.error)
        else if page.value.next.None? then Ok([page.value.ids])
        else Prepend(page.value.ids, Walk(dir, page.value.next, limit)))
  {
    hide PageAfter, Eligible;
  }

  lemma OnePage(ids: seq<Text>)
    ensures Flatten([ids]) == ids
  {
    assert [ids][1..] == [];
  }

  lemma MorePages(ids: seq<Text>, rest: Result<seq<seq<Text>>, PageError>, d: seq<Text>)
    requires |ids| < |d| && ids == d[..|ids|] && (rest.Ok? ==> Flatten(rest.value) == d[|ids|..])
    ensures rest.Ok? ==> Flatten(Prepend(ids, rest).value) == d
  {
    if rest.Ok? {
      assert ([ids] + rest.value)[1..] == rest.value;
      assert d[..|ids|] + d[|ids|..] == d;
    }
  }
}
