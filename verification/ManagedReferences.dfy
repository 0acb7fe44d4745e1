/** Which derived relations a workspace mentions (config-ui/derived_drafts.py, managed_references):
    a walk with a pending stack over the whole document, conservative about what it cannot read. */
module ManagedReferences {
  import opened Wrappers

  datatype Value = Text(s: string) | Other(truthy: bool) | Array(items: seq<Value>) | Object(members: map<string, Value>)

  /** The reference pattern: the relation names a text mentions, in lower case, and whether the
      schema's name is left in the text once they are taken out. */
  datatype Pattern = Pattern(names: string -> set<string>, leftover: string -> bool)

  /** Stands for a dependency that cannot be read. */
  const UNRESOLVED := "*"

  function TextRefs(p: Pattern, s: string): set<string> {
    p.names(s) + if p.leftover(s) then {UNRESOLVED} else {}
  }

  predicate Truthy(v: Value) {
    match v
    case Text(s) => s != ""
    case Other(truthy) => truthy
    case Array(items) => items != []
    case Object(members) => members != map[]
  }

  /** A query template whose source is given by name. */
  predicate Hidden(members: map<string, Value>, template: bool) {
    "src" in members && members["src"].Text? && (template || ("dbs" in members && Truthy(members["dbs"])))
  }

  predicate InTemplate(template: bool, key: string) {
    template || key == "templates" || key == "template"
  }

  // ---------------------------------------------------------------- by recursion

  function Refs(p: Pattern, v: Value, template: bool): set<string>
    decreases v
  {
    match v
    case Text(s) => TextRefs(p, s)
    case Other(_) => {}
    case Array(items) => set k, x | 0 <= k < |items| && x in Refs(p, items[k], template) :: x
    case Object(members) =>
      (if Hidden(members, template) then {UNRESOLVED} else {})
      + set k, x | k in members && x in Refs(p, members[k], InTemplate(template, k)) :: x
  }

  /** The text is somewhere in the value. */
  predicate Occurs(s: string, v: Value)
    decreases v
  {
    match v
    case Text(t) => t == s
    case Other(_) => false
    case Array(items) => exists k :: 0 <= k < |items| && Occurs(s, items[k])
    case Object(members) => exists k :: k in members && Occurs(s, members[k])
  }

  /** A name is found exactly when some text of the workspace mentions it, wherever the text is. */
  lemma {:induction false} FoundIffMentioned(p: Pattern, v: Value, template: bool, name: string)
    requires name != UNRESOLVED
    ensures name in Refs(p, v, template) <==> exists s :: Occurs(s, v) && name in p.names(s)
    decreases v
  {
    match v
    case Text(s) =>
      assert Occurs(s, v);
    case Other(_) =>
    case Array(items) =>
      forall k | 0 <= k < |items|
        ensures name in Refs(p, items[k], template) <==> exists s :: Occurs(s, items[k]) && name in p.names(s)
      {
        FoundIffMentioned(p, items[k], template, name);
      }
      if s :| Occurs(s, v) && name in p.names(s) {
        var k :| 0 <= k < |items| && Occurs(s, items[k]);
        assert name in Refs(p, items[k], template);
      }
      if k :| 0 <= k < |items| && name in Refs(p, items[k], template) {
        var s :| Occurs(s, items[k]) && name in p.names(s);
        assert Occurs(s, v);
      }
    case Object(members) =>
      forall k | k in members
        ensures name in Refs(p, members[k], InTemplate(template, k)) <==> exists s :: Occurs(s, members[k]) && name in p.names(s)
      {
        FoundIffMentioned(p, members[k], InTemplate(template, k), name);
      }
      if s :| Occurs(s, v) && name in p.names(s) {
        var k :| k in members && Occurs(s, members[k]);
        assert name in Refs(p, members[k], InTemplate(template, k));
      }
      if k :| k in members && name in Refs(p, members[k], InTemplate(template, k)) {
        var s :| Occurs(s, members[k]) && name in p.names(s);
        assert Occurs(s, v);
      }
  }

  lemma MemberFound(p: Pattern, members: map<string, Value>, template: bool, k: string, x: string)
    requires k in members && x in Refs(p, members[k], InTemplate(template, k))
    ensures x in Refs(p, Object(members), template)
  {
  }

  /** Whatever names the schema without naming a relation makes the result unresolved. */
  lemma {:induction false} LeftoverUnresolved(p: Pattern, v: Value, template: bool, s: string)
    requires Occurs(s, v) && p.leftover(s)
    ensures UNRESOLVED in Refs(p, v, template)
    decreases v
  {
    match v
    case Text(_) =>
    case Array(items) =>
      var k :| 0 <= k < |items| && Occurs(s, items[k]);
      LeftoverUnresolved(p, items[k], template, s);
    case Object(members) =>
      var k :| k in members && Occurs(s, members[k]);
      LeftoverUnresolved(p, members[k], InTemplate(template, k), s);
      MemberFound(p, members, template, k, UNRESOLVED);
  }

  // ---------------------------------------------------------------- with a stack

  datatype Pending = Pending(value: Value, template: bool)

  ghost function RefsAll(p: Pattern, stack: seq<Pending>): set<string> {
    set k, x | 0 <= k < |stack| && x in Refs(p, stack[k].value, stack[k].template) :: x
  }

  /** The stack gets smaller when a value is replaced by its children. */
  ghost function Weight(v: Value): (n: nat)
    ensures n >= 1
    decreases v, 0
  {
    match v
    case Array(items) => 1 + SeqWeight(items, v, |items|)
    case Object(members) => 1 + MapWeight(members, v, members.Keys)
    case _ => 1
  }

  ghost function SeqWeight(items: seq<Value>, v: Value, n: nat): nat
    requires v == Array(items) && n <= |items|
    decreases v, 0, n
  {
    if n == 0 then 0 else SeqWeight(items, v, n - 1) + Weight(items[n - 1])
  }

  ghost function MapWeight(members: map<string, Value>, v: Value, keys: set<string>): nat
    requires v == Object(members) && keys <= members.Keys
    decreases v, 0, |keys|
  {
    if keys == {} then 0
    else
      var k :| k in keys;
      MapWeight(members, v, keys - {k}) + Weight(members[k])
  }

  lemma {:induction false} MapWeightAny(members: map<string, Value>, v: Value, keys: set<string>, k: string)
    requires v == Object(members) && keys <= members.Keys && k in keys
    ensures MapWeight(members, v, keys) == MapWeight(members, v, keys - {k}) + Weight(members[k])
    decreases |keys|
  {
    hide Weight;
    var first: string :| first in keys && MapWeight(members, v, keys) == MapWeight(members, v, keys - {first}) + Weight(members[first]);
    if first != k {
      MapWeightAny(members, v, keys - {first}, k);
      MapWeightAny(members, v, keys - {k}, first);
      assert keys - {first} - {k} == keys - {k} - {first};
    }
  }

  ghost function StackWeight(stack: seq<Pending>): nat {
    if stack == [] then 0 else StackWeight(stack[..|stack| - 1]) + Weight(stack[|stack| - 1].value)
  }

  lemma PushedWeight(p: Pattern, stack: seq<Pending>, item: Pending)
    ensures StackWeight(stack + [item]) == StackWeight(stack) + Weight(item.value)
    ensures RefsAll(p, stack + [item]) == RefsAll(p, stack) + Refs(p, item.value, item.template)
  {
    hide Weight, Refs;
    var all := stack + [item];
    assert all[..|stack|] == stack;
    assert forall k :: 0 <= k < |stack| ==> all[k] == stack[k];
    assert all[|stack|] == item;
    forall x | x in RefsAll(p, stack) + Refs(p, item.value, item.template) ensures x in RefsAll(p, all) {
      if x in RefsAll(p, stack) {
        var k :| 0 <= k < |stack| && x in Refs(p, stack[k].value, stack[k].template);
        assert x in Refs(p, all[k].value, all[k].template);
      } else {
        assert x in Refs(p, all[|stack|].value, all[|stack|].template);
      }
    }
  }

  /** What the members of some keys mention. */
  ghost function MemberRefs(p: Pattern, members: map<string, Value>, keys: set<string>, template: bool): set<string>
    requires keys <= members.Keys
  {
    set k, x | k in keys && x in Refs(p, members[k], InTemplate(template, k)) :: x
  }

  ghost function ItemRefs(p: Pattern, items: seq<Value>, n: nat, template: bool): set<string>
    requires n <= |items|
  {
    set k, x | 0 <= k < n && x in Refs(p, items[k], template) :: x
  }

  /** managed_references: pop a value, take what its own text says, push its children. The result is
      what recursion over the document finds, whatever the order. */
  method ManagedReferences(p: Pattern, workspace: Value) returns (result: set<string>)
    ensures result == Refs(p, workspace, false)
  {
    result := {};
    var pending := [Pending(workspace, false)];
    PushedWeight(p, [], Pending(workspace, false));
    assert [] + pending == pending;
    NoneLeft(p);
    hide Refs, RefsAll, Weight, StackWeight;
    while pending != []
      invariant result + RefsAll(p, pending) == Refs(p, workspace, false)
      decreases StackWeight(pending)
    {
      var item, front := pending[|pending| - 1], pending[..|pending| - 1];
      assert pending == front + [item];
      PushedWeight(p, front, item);
      OwnRefs(p, item.value, item.template);
      match item.value
      case Text(s) =>
        result := result + TextRefs(p, s);
        pending := front;
      case Other(_) =>
        pending := front;
      case Array(items) =>
        pending := PushItems(p, front, items, item.template, item.value);
      case Object(members) =>
        if Hidden(members, item.template) {
          result := result + {UNRESOLVED};
        }
        pending := PushMembers(p, front, members, item.template, item.value);
    }
  }

  lemma NoneLeft(p: Pattern)
    ensures RefsAll(p, []) == {}
  {
  }

  lemma OwnRefs(p: Pattern, v: Value, template: bool)
    ensures v.Text? ==> Refs(p, v, template) == TextRefs(p, v.s)
    ensures v.Other? ==> Refs(p, v, template) == {}
    ensures Weight(v) > 0
  {
  }

  method PushItems(p: Pattern, front: seq<Pending>, items: seq<Value>, template: bool, ghost v: Value) returns (r: seq<Pending>)
    requires v == Array(items)
    ensures RefsAll(p, r) == RefsAll(p, front) + Refs(p, v, template)
    ensures StackWeight(r) < StackWeight(front) + Weight(v)
  {
    hide Refs, RefsAll, Weight, StackWeight;
    r := front;
    var n := 0;
    NoItems(p, items, template);
    while n < |items|
      invariant 0 <= n <= |items|
      invariant RefsAll(p, r) == RefsAll(p, front) + ItemRefs(p, items, n, template)
      invariant StackWeight(r) == StackWeight(front) + SeqWeight(items, v, n)
    {
      PushedWeight(p, r, Pending(items[n], template));
      MoreItems(p, items, n, template);
      r := r + [Pending(items[n], template)];
      n := n + 1;
    }
    AllItems(p, items, template, v);
  }

  lemma NoItems(p: Pattern, items: seq<Value>, template: bool)
    ensures ItemRefs(p, items, 0, template) == {}
  {
  }

  lemma MoreItems(p: Pattern, items: seq<Value>, n: nat, template: bool)
    requires n < |items|
    ensures ItemRefs(p, items, n + 1, template) == ItemRefs(p, items, n, template) + Refs(p, items[n], template)
  {
    hide Refs;
  }

  lemma AllItems(p: Pattern, items: seq<Value>, template: bool, v: Value)
    requires v == Array(items)
    ensures ItemRefs(p, items, |items|, template) == Refs(p, v, template)
    ensures Weight(v) == 1 + SeqWeight(items, v, |items|)
  {
  }

  method PushMembers(p: Pattern, front: seq<Pending>, members: map<string, Value>, template: bool, ghost v: Value)
    returns (r: seq<Pending>)
    requires v == Object(members)
    ensures RefsAll(p, r) + (if Hidden(members, template) then {UNRESOLVED} else {}) == RefsAll(p, front) + Refs(p, v, template)
    ensures StackWeight(r) < StackWeight(front) + Weight(v)
  {
    hide Refs, RefsAll, Weight, StackWeight, MemberRefs, MapWeight, Hidden, Carries;
    r := front;
    NothingPushed(p, front, members, template, v);
    var todo := members.Keys;
    ghost var done: set<string> := {};
    while todo != {}
      invariant todo <= members.Keys && done <= members.Keys && done !! todo && members.Keys <= done + todo
      invariant Carries(p, front, r, members, done, template, v)
      decreases |todo|
    {
      var k :| k in todo;
      MemberStep(p, front, r, members, done, k, template, v);
      r := r + [Pending(members[k], InTemplate(template, k))];
      todo, done := todo - {k}, done + {k};
    }
    assert done == members.Keys;
    AllPushed(p, front, r, members, template, v);
  }

  lemma NothingPushed(p: Pattern, front: seq<Pending>, members: map<string, Value>, template: bool, v: Value)
    requires v == Object(members)
    ensures Carries(p, front, front, members, {}, template, v)
  {
    NoMembers(p, members, template, v);
  }

  lemma AllPushed(p: Pattern, front: seq<Pending>, r: seq<Pending>, members: map<string, Value>, template: bool, v: Value)
    requires v == Object(members) && Carries(p, front, r, members, members.Keys, template, v)
    ensures RefsAll(p, r) + (if Hidden(members, template) then {UNRESOLVED} else {}) == RefsAll(p, front) + Refs(p, v, template)
    ensures StackWeight(r) < StackWeight(front) + Weight(v)
  {
    AllMembers(p, members, template, v);
    hide Refs, RefsAll, Weight, StackWeight, MemberRefs, MapWeight, Hidden;
  }

  /** The stack is the front with the members of these keys pushed. */
  ghost predicate Carries(p: Pattern, front: seq<Pending>, r: seq<Pending>, members: map<string, Value>, keys: set<string>,
                          template: bool, v: Value)
    requires v == Object(members) && keys <= members.Keys
  {
    && RefsAll(p, r) == RefsAll(p, front) + MemberRefs(p, members, keys, template)
    && StackWeight(r) == StackWeight(front) + MapWeight(members, v, keys)
  }

  lemma MemberStep(p: Pattern, front: seq<Pending>, r: seq<Pending>, members: map<string, Value>, keys: set<string>, k: string,
                   template: bool, v: Value)
    requires v == Object(members) && keys + {k} <= members.Keys && k !in keys && Carries(p, front, r, members, keys, template, v)
    ensures Carries(p, front, r + [Pending(members[k], InTemplate(template, k))], members, keys + {k}, template, v)
  {
    hide Refs, RefsAll, Weight, StackWeight, MemberRefs, MapWeight;
    PushedWeight(p, r, Pending(members[k], InTemplate(template, k)));
    MapWeightAny(members, v, keys + {k}, k);
    assert keys + {k} - {k} == keys;
    MoreMembers(p, members, keys, k, template);
  }

  lemma NoMembers(p: Pattern, members: map<string, Value>, template: bool, v: Value)
    requires v == Object(members)
    ensures MemberRefs(p, members, {}, template) == {} && MapWeight(members, v, {}) == 0
  {
  }

  lemma MoreMembers(p: Pattern, members: map<string, Value>, keys: set<string>, k: string, template: bool)
    requires keys + {k} <= members.Keys
    ensures MemberRefs(p, members, keys + {k}, template)
         == MemberRefs(p, members, keys, template) + Refs(p, members[k], InTemplate(template, k))
  {
    hide Refs;
  }

  lemma AllMembers(p: Pattern, members: map<string, Value>, template: bool, v: Value)
    requires v == Object(members)
    ensures MemberRefs(p, members, members.Keys, template) + (if Hidden(members, template) then {UNRESOLVED} else {})
         == Refs(p, v, template)
    ensures Weight(v) == 1 + MapWeight(members, v, members.Keys)
  {
  }
}
