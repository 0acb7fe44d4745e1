/** The row estimator of the query planning probe (config-ui/derived_layers.py): effective rows of a
    plan node, corrected by the proven bounds of generated rows, with results cached per node and a
    set of nodes being resolved that breaks cyclic CTE references. */
module PlanRows {
  import opened Wrappers

  const PROPAGATING: set<string> := {
    "Aggregate", "Gather", "Gather Merge", "Group", "Incremental Sort", "Materialize", "Memoize", "Result",
    "Sort", "Subquery Scan", "Unique", "WindowAgg"
  }

  const QUERY_PLANNING_MAX_NESTED_LOOP_PAIR_ROWS: nat := 100000000

  type Id = nat

  /** A child with its Parent Relationship. */
  datatype Kid = Kid(id: Id, relationship: string)

  datatype Node = Node(nodeType: string, rows: nat, plans: seq<Kid>, cteName: Option<string>, strategy: string,
                       oneTimeFilter: string)

  /** The plan's nodes, and the producer of each named CTE. */
  datatype Plan = Plan(nodes: seq<Node>, producers: map<string, Id>)

  /** Rows each input row of a literal series can yield, and rows the H3 calls can yield in all. */
  datatype Bounds = Bounds(literal: nat, h3: nat)

  datatype Caches = Caches(rows: map<Id, nat>, generated: map<Id, bool>)

  ghost predicate WellFormed(p: Plan) {
    && (forall i, k :: 0 <= i < |p.nodes| && 0 <= k < |p.nodes[i].plans| ==> p.nodes[i].plans[k].id < |p.nodes|)
    && (forall name :: name in p.producers ==> p.producers[name] < |p.nodes|)
  }

  /** The children that are not init plans or sub plans. */
  function Regular(plans: seq<Kid>): (r: seq<Id>)
    ensures forall k :: 0 <= k < |r| ==> exists j :: 0 <= j < |plans| && plans[j].id == r[k]
  {
    if plans == [] then []
    else
      var rest := Regular(plans[1..]);
      if plans[0].relationship == "InitPlan" || plans[0].relationship == "SubPlan" then rest else [plans[0].id] + rest
  }

  function KidsOf(p: Plan, i: Id): (r: seq<Id>)
    requires i < |p.nodes|
    ensures WellFormed(p) ==> forall k :: 0 <= k < |r| ==> r[k] < |p.nodes|
  {
    Regular(p.nodes[i].plans)
  }

  /** What a CTE Scan reads. */
  function ProducerOf(p: Plan, i: Id): (r: Option<Id>)
    requires i < |p.nodes|
    ensures WellFormed(p) && r.Some? ==> r.value < |p.nodes|
  {
    if p.nodes[i].nodeType == "CTE Scan" && p.nodes[i].cteName.Some? && p.nodes[i].cteName.value in p.producers
    then Some(p.producers[p.nodes[i].cteName.value]) else None
  }

  predicate Generates(n: Node) {
    n.nodeType == "ProjectSet" || n.nodeType == "Function Scan"
  }

  predicate Propagates(n: Node) {
    n.nodeType in PROPAGATING && !(n.nodeType == "Aggregate" && n.strategy == "Plain") && n.oneTimeFilter != "false"
  }

  predicate Appends(n: Node) {
    n.nodeType == "Append" || n.nodeType == "Merge Append"
  }

  function Max(a: nat, b: nat): nat {
    if a < b then b else a
  }

  function Times(a: nat, b: nat): nat {
    a * b
  }

  // ---------------------------------------------------------------- as the source computes

  /** How many nodes are not being resolved. */
  function Left(p: Plan, resolving: set<Id>): (r: nat)
    requires forall x :: x in resolving ==> x < |p.nodes|
  {
    |set x | 0 <= x < |p.nodes| && x !in resolving|
  }

  lemma LeftLess(p: Plan, resolving: set<Id>, i: Id)
    requires (forall x :: x in resolving ==> x < |p.nodes|) && i < |p.nodes| && i !in resolving
    ensures Left(p, resolving + {i}) < Left(p, resolving)
  {
    var s := set x | 0 <= x < |p.nodes| && x !in resolving;
    var t := set x | 0 <= x < |p.nodes| && x !in resolving + {i};
    assert t == s - {i};
  }

  ghost predicate Sound(p: Plan, i: Id, resolving: set<Id>) {
    WellFormed(p) && i < |p.nodes| && forall x :: x in resolving ==> x < |p.nodes|
  }

  ghost predicate SoundAll(p: Plan, kids: seq<Id>, resolving: set<Id>) {
    WellFormed(p) && (forall k :: 0 <= k < |kids| ==> kids[k] < |p.nodes|) && forall x :: x in resolving ==> x < |p.nodes|
  }

  /** has_generated_rows, with the cache passed along. */
  ghost function HasGenerated(p: Plan, i: Id, resolving: set<Id>, g: map<Id, bool>): (bool, map<Id, bool>)
    requires Sound(p, i, resolving)
    decreases Left(p, resolving), 0, 0
  {
    if i in g then (g[i], g)
    else if i in resolving then (false, g)
    else
      LeftLess(p, resolving, i);
      var own := Generates(p.nodes[i]);
      var cte := if !own && ProducerOf(p, i).Some? then HasGenerated(p, ProducerOf(p, i).value, resolving + {i}, g) else (own, g);
      var all := if cte.0 then cte else AnyGenerated(p, KidsOf(p, i), resolving + {i}, cte.1);
      (all.0, all.1[i := all.0])
  }

  /** any(...) over the children, stopping at the first that has them. */
  ghost function AnyGenerated(p: Plan, kids: seq<Id>, resolving: set<Id>, g: map<Id, bool>): (bool, map<Id, bool>)
    requires SoundAll(p, kids, resolving)
    decreases Left(p, resolving), 1, |kids|
  {
    if kids == [] then (false, g)
    else
      var first := HasGenerated(p, kids[0], resolving, g);
      if first.0 then first else AnyGenerated(p, kids[1..], resolving, first.1)
  }

  /** effective_rows, with the caches passed along. */
  ghost function Effective(p: Plan, b: Bounds, i: Id, resolving: set<Id>, c: Caches): (nat, Caches)
    requires Sound(p, i, resolving)
    decreases Left(p, resolving), 0, 0
  {
    if i in c.rows then (c.rows[i], c)
    else if i in resolving then (p.nodes[i].rows, c)
    else
      LeftLess(p, resolving, i);
      var r := Corrected(p, b, i, resolving + {i}, c);
      (r.0, r.1.(rows := r.1.rows[i := r.0]))
  }

  /** The rows of a node that is now being resolved. */
  ghost function Corrected(p: Plan, b: Bounds, i: Id, inner: set<Id>, c: Caches): (nat, Caches)
    requires Sound(p, i, inner)
    decreases Left(p, inner), 2, 0
  {
    var n, kids := p.nodes[i], KidsOf(p, i);
    if n.nodeType == "ProjectSet" then
      var input := if |kids| == 1 then Effective(p, b, kids[0], inner, c) else (1, c);
      (Max(Max(n.rows, b.h3), Times(input.0, b.literal)), input.1)
    else if n.nodeType == "Function Scan" then (Max(Max(n.rows, b.h3), b.literal), c)
    else if n.nodeType == "CTE Scan" then
      if ProducerOf(p, i).None? then (n.rows, c)
      else
        var r := Effective(p, b, ProducerOf(p, i).value, inner, c);
        (Max(n.rows, r.0), r.1)
    else if Propagates(n) && |kids| == 1 then
      var r := Effective(p, b, kids[0], inner, c);
      (Max(n.rows, r.0), r.1)
    else if Appends(n) && kids != [] then
      var r := SumOf(p, b, kids, inner, c);
      (Max(n.rows, r.0), r.1)
    else (n.rows, c)
  }

  ghost function SumOf(p: Plan, b: Bounds, kids: seq<Id>, inner: set<Id>, c: Caches): (nat, Caches)
    requires SoundAll(p, kids, inner)
    decreases Left(p, inner), 1, |kids|
  {
    if kids == [] then (0, c)
    else
      var g := HasGenerated(p, kids[0], inner, c.generated);
      var d := c.(generated := g.1);
      var first := if g.0 then Effective(p, b, kids[0], inner, d) else (p.nodes[kids[0]].rows, d);
      var rest := SumOf(p, b, kids[1..], inner, first.1);
      (first.0 + rest.0, rest.1)
  }

  // ---------------------------------------------------------------- never below the planner, monotone in the bounds

  ghost predicate AtLeastPlanned(p: Plan, c: Caches) {
    forall i :: i in c.rows && i < |p.nodes| ==> c.rows[i] >= p.nodes[i].rows
  }

  /** On every plan, cyclic or not, and after every earlier query, the estimate is never below what
      the planner says. */
  lemma {:induction false} NeverBelowPlanned(p: Plan, b: Bounds, i: Id, resolving: set<Id>, c: Caches)
    requires Sound(p, i, resolving) && AtLeastPlanned(p, c)
    ensures Effective(p, b, i, resolving, c).0 >= p.nodes[i].rows
    ensures AtLeastPlanned(p, Effective(p, b, i, resolving, c).1)
    decreases Left(p, resolving), 0, 0
  {
    if i !in c.rows && i !in resolving {
      LeftLess(p, resolving, i);
      CorrectedAtLeast(p, b, i, resolving + {i}, c);
    }
  }

  lemma {:induction false} CorrectedAtLeast(p: Plan, b: Bounds, i: Id, inner: set<Id>, c: Caches)
    requires Sound(p, i, inner) && AtLeastPlanned(p, c)
    ensures Corrected(p, b, i, inner, c).0 >= p.nodes[i].rows
    ensures AtLeastPlanned(p, Corrected(p, b, i, inner, c).1)
    decreases Left(p, inner), 2, 0
  {
    hide Effective, SumOf, HasGenerated, ProducerOf, KidsOf, AtLeastPlanned;
    var n, kids := p.nodes[i], KidsOf(p, i);
    if ProducerOf(p, i).Some? {
      NeverBelowPlanned(p, b, ProducerOf(p, i).value, inner, c);
    }
    if |kids| == 1 {
      NeverBelowPlanned(p, b, kids[0], inner, c);
    }
    SumAtLeast(p, b, kids, inner, c);
  }

  lemma {:induction false} SumAtLeast(p: Plan, b: Bounds, kids: seq<Id>, inner: set<Id>, c: Caches)
    requires SoundAll(p, kids, inner) && AtLeastPlanned(p, c)
    ensures AtLeastPlanned(p, SumOf(p, b, kids, inner, c).1)
    decreases Left(p, inner), 1, |kids|
  {
    if kids != [] {
      var g := HasGenerated(p, kids[0], inner, c.generated);
      var d := c.(generated := g.1);
      NeverBelowPlanned(p, b, kids[0], inner, d);
      var first := if g.0 then Effective(p, b, kids[0], inner, d) else (p.nodes[kids[0]].rows, d);
      SumAtLeast(p, b, kids[1..], inner, first.1);
    }
  }

  predicate Wider(b: Bounds, w: Bounds) {
    b.literal <= w.literal && b.h3 <= w.h3
  }

  /** The same nodes are cached, with no smaller rows. */
  ghost predicate NoSmaller(c: Caches, d: Caches) {
    && c.generated == d.generated && c.rows.Keys == d.rows.Keys
    && forall i :: i in c.rows ==> c.rows[i] <= d.rows[i]
  }

  lemma ProductMonotone(a: nat, b: nat, x: nat, y: nat)
    requires a <= x && b <= y
    ensures Times(a, b) <= Times(x, y)
  {
    assert a * b <= x * b <= x * y;
  }

  /** Larger bounds never make an estimate smaller: on every plan, whatever was asked before. */
  lemma {:induction false} MonotoneInBounds(p: Plan, b: Bounds, w: Bounds, i: Id, resolving: set<Id>, c: Caches, d: Caches)
    requires Sound(p, i, resolving) && Wider(b, w) && NoSmaller(c, d)
    ensures Effective(p, b, i, resolving, c).0 <= Effective(p, w, i, resolving, d).0
    ensures NoSmaller(Effective(p, b, i, resolving, c).1, Effective(p, w, i, resolving, d).1)
    decreases Left(p, resolving), 0, 0
  {
    if i !in c.rows && i !in resolving {
      LeftLess(p, resolving, i);
      CorrectedMonotone(p, b, w, i, resolving + {i}, c, d);
    }
  }

  lemma {:induction false} CorrectedMonotone(p: Plan, b: Bounds, w: Bounds, i: Id, inner: set<Id>, c: Caches, d: Caches)
    requires Sound(p, i, inner) && Wider(b, w) && NoSmaller(c, d)
    ensures Corrected(p, b, i, inner, c).0 <= Corrected(p, w, i, inner, d).0
    ensures NoSmaller(Corrected(p, b, i, inner, c).1, Corrected(p, w, i, inner, d).1)
    decreases Left(p, inner), 2, 0
  {
    hide Effective, SumOf, HasGenerated, ProducerOf, KidsOf, NoSmaller, Propagates, Appends;
    var n, kids := p.nodes[i], KidsOf(p, i);
    if n.nodeType == "CTE Scan" {
      if ProducerOf(p, i).Some? {
        MonotoneInBounds(p, b, w, ProducerOf(p, i).value, inner, c, d);
      }
    } else if Appends(n) {
      SumMonotone(p, b, w, kids, inner, c, d);
    }
    if |kids| == 1 {
      MonotoneInBounds(p, b, w, kids[0], inner, c, d);
      ProductMonotone(Effective(p, b, kids[0], inner, c).0, b.literal, Effective(p, w, kids[0], inner, d).0, w.literal);
    }
  }

  lemma {:induction false} SumMonotone(p: Plan, b: Bounds, w: Bounds, kids: seq<Id>, inner: set<Id>, c: Caches, d: Caches)
    requires SoundAll(p, kids, inner) && Wider(b, w) && NoSmaller(c, d)
    ensures SumOf(p, b, kids, inner, c).0 <= SumOf(p, w, kids, inner, d).0
    ensures NoSmaller(SumOf(p, b, kids, inner, c).1, SumOf(p, w, kids, inner, d).1)
    decreases Left(p, inner), 1, |kids|
  {
    if kids != [] {
      var g := HasGenerated(p, kids[0], inner, c.generated);
      var c1, d1 := c.(generated := g.1), d.(generated := g.1);
      MonotoneInBounds(p, b, w, kids[0], inner, c1, d1);
      var x := if g.0 then Effective(p, b, kids[0], inner, c1) else (p.nodes[kids[0]].rows, c1);
      var y := if g.0 then Effective(p, w, kids[0], inner, d1) else (p.nodes[kids[0]].rows, d1);
      SumMonotone(p, b, w, kids[1..], inner, x.1, y.1);
    }
  }

  // ---------------------------------------------------------------- the plain definitions

  /** The plan has no cycle: every reference goes down in rank. */
  ghost predicate Ranked(p: Plan, rank: seq<nat>) {
    && WellFormed(p) && |rank| == |p.nodes|
    && (forall i, k :: 0 <= i < |p.nodes| && 0 <= k < |KidsOf(p, i)| ==> rank[KidsOf(p, i)[k]] < rank[i])
    && (forall i :: 0 <= i < |p.nodes| && ProducerOf(p, i).Some? ==> rank[ProducerOf(p, i).value] < rank[i])
  }

  /** Some node that generates rows is below, through regular children and CTE references. */
  ghost function PlainGenerated(p: Plan, rank: seq<nat>, i: Id): bool
    requires Ranked(p, rank) && i < |p.nodes|
    decreases rank[i]
  {
    || Generates(p.nodes[i])
    || (ProducerOf(p, i).Some? && PlainGenerated(p, rank, ProducerOf(p, i).value))
    || exists k :: 0 <= k < |KidsOf(p, i)| && PlainGenerated(p, rank, KidsOf(p, i)[k])
  }

  /** The rows of a node by recursion on the plan alone. */
  ghost function PlainRows(p: Plan, rank: seq<nat>, b: Bounds, i: Id): nat
    requires Ranked(p, rank) && i < |p.nodes|
    decreases rank[i], 1, 0
  {
    var n, kids := p.nodes[i], KidsOf(p, i);
    if n.nodeType == "ProjectSet" then
      Max(Max(n.rows, b.h3), Times(if |kids| == 1 then PlainRows(p, rank, b, kids[0]) else 1, b.literal))
    else if n.nodeType == "Function Scan" then Max(Max(n.rows, b.h3), b.literal)
    else if n.nodeType == "CTE Scan" then
      if ProducerOf(p, i).None? then n.rows else Max(n.rows, PlainRows(p, rank, b, ProducerOf(p, i).value))
    else if Propagates(n) && |kids| == 1 then Max(n.rows, PlainRows(p, rank, b, kids[0]))
    else if Appends(n) && kids != [] then Max(n.rows, PlainSum(p, rank, b, i, kids))
    else n.rows
  }

  ghost function PlainSum(p: Plan, rank: seq<nat>, b: Bounds, i: Id, kids: seq<Id>): nat
    requires Ranked(p, rank) && i < |p.nodes|
    requires forall k :: 0 <= k < |kids| ==> kids[k] < |p.nodes| && rank[kids[k]] < rank[i]
    decreases rank[i], 0, |kids|
  {
    if kids == [] then 0
    else (if PlainGenerated(p, rank, kids[0]) then PlainRows(p, rank, b, kids[0]) else p.nodes[kids[0]].rows)
         + PlainSum(p, rank, b, i, kids[1..])
  }

  ghost predicate GeneratedRight(p: Plan, rank: seq<nat>, g: map<Id, bool>)
    requires Ranked(p, rank)
  {
    forall i :: i in g && i < |p.nodes| ==> g[i] == PlainGenerated(p, rank, i)
  }

  ghost predicate RowsRight(p: Plan, rank: seq<nat>, b: Bounds, rows: map<Id, nat>)
    requires Ranked(p, rank)
  {
    forall i :: i in rows && i < |p.nodes| ==> rows[i] == PlainRows(p, rank, b, i)
  }

  /** Everything being resolved is above the node. */
  ghost predicate Above(p: Plan, rank: seq<nat>, resolving: set<Id>, i: Id)
    requires Ranked(p, rank) && Sound(p, i, resolving)
  {
    forall x :: x in resolving ==> rank[x] > rank[i]
  }

  lemma {:induction false} GeneratedIsPlain(p: Plan, rank: seq<nat>, i: Id, resolving: set<Id>, g: map<Id, bool>)
    requires Ranked(p, rank) && Sound(p, i, resolving) && Above(p, rank, resolving, i) && GeneratedRight(p, rank, g)
    ensures HasGenerated(p, i, resolving, g).0 == PlainGenerated(p, rank, i)
    ensures GeneratedRight(p, rank, HasGenerated(p, i, resolving, g).1)
    decreases Left(p, resolving), 0, 0
  {
    if i !in g {
      LeftLess(p, resolving, i);
      var own := Generates(p.nodes[i]);
      if !own && ProducerOf(p, i).Some? {
        GeneratedIsPlain(p, rank, ProducerOf(p, i).value, resolving + {i}, g);
      }
      var cte := if !own && ProducerOf(p, i).Some? then HasGenerated(p, ProducerOf(p, i).value, resolving + {i}, g) else (own, g);
      if !cte.0 {
        AnyIsPlain(p, rank, KidsOf(p, i), resolving + {i}, cte.1, i);
      }
    }
  }

  lemma {:induction false} AnyIsPlain(p: Plan, rank: seq<nat>, kids: seq<Id>, resolving: set<Id>, g: map<Id, bool>, i: Id)
    requires Ranked(p, rank) && SoundAll(p, kids, resolving) && GeneratedRight(p, rank, g) && i < |p.nodes|
    requires forall k :: 0 <= k < |kids| ==> rank[kids[k]] < rank[i]
    requires forall x :: x in resolving ==> rank[x] >= rank[i]
    ensures AnyGenerated(p, kids, resolving, g).0 <==> exists k :: 0 <= k < |kids| && PlainGenerated(p, rank, kids[k])
    ensures GeneratedRight(p, rank, AnyGenerated(p, kids, resolving, g).1)
    decreases Left(p, resolving), 1, |kids|
  {
    if kids != [] {
      GeneratedIsPlain(p, rank, kids[0], resolving, g);
      var first := HasGenerated(p, kids[0], resolving, g);
      if !first.0 {
        AnyIsPlain(p, rank, kids[1..], resolving, first.1, i);
        assert forall k :: 0 < k < |kids| ==> kids[k] == kids[1..][k - 1];
        assert forall k :: 0 <= k < |kids[1..]| ==> kids[1..][k] == kids[k + 1];
      }
    }
  }

  /** On every acyclic plan the cached estimate is the plain recursion, whatever was asked before and
      in whatever order. */
  lemma {:induction false} EffectiveIsPlain(p: Plan, rank: seq<nat>, b: Bounds, i: Id, resolving: set<Id>, c: Caches)
    requires Ranked(p, rank) && Sound(p, i, resolving) && Above(p, rank, resolving, i)
    requires GeneratedRight(p, rank, c.generated) && RowsRight(p, rank, b, c.rows)
    ensures Effective(p, b, i, resolving, c).0 == PlainRows(p, rank, b, i)
    ensures (var d := Effective(p, b, i, resolving, c).1; GeneratedRight(p, rank, d.generated) && RowsRight(p, rank, b, d.rows))
    decreases Left(p, resolving), 0, 0
  {
    if i !in c.rows {
      LeftLess(p, resolving, i);
      CorrectedIsPlain(p, rank, b, i, resolving + {i}, c);
    }
  }

  lemma {:induction false} CorrectedIsPlain(p: Plan, rank: seq<nat>, b: Bounds, i: Id, inner: set<Id>, c: Caches)
    requires Ranked(p, rank) && Sound(p, i, inner) && (forall x :: x in inner ==> rank[x] >= rank[i])
    requires GeneratedRight(p, rank, c.generated) && RowsRight(p, rank, b, c.rows)
    ensures Corrected(p, b, i, inner, c).0 == PlainRows(p, rank, b, i)
    ensures (var d := Corrected(p, b, i, inner, c).1; GeneratedRight(p, rank, d.generated) && RowsRight(p, rank, b, d.rows))
    decreases Left(p, inner), 2, 0
  {
    hide Effective, SumOf, HasGenerated, ProducerOf, KidsOf, GeneratedRight, RowsRight, PlainSum, PlainGenerated;
    var n, kids := p.nodes[i], KidsOf(p, i);
    if ProducerOf(p, i).Some? {
      EffectiveIsPlain(p, rank, b, ProducerOf(p, i).value, inner, c);
    }
    if |kids| == 1 {
      EffectiveIsPlain(p, rank, b, kids[0], inner, c);
    }
    SumIsPlain(p, rank, b, i, kids, inner, c);
  }

  lemma {:induction false} SumIsPlain(p: Plan, rank: seq<nat>, b: Bounds, i: Id, kids: seq<Id>, inner: set<Id>, c: Caches)
    requires Ranked(p, rank) && SoundAll(p, kids, inner) && i < |p.nodes|
    requires forall k :: 0 <= k < |kids| ==> rank[kids[k]] < rank[i]
    requires forall x :: x in inner ==> rank[x] >= rank[i]
    requires GeneratedRight(p, rank, c.generated) && RowsRight(p, rank, b, c.rows)
    ensures SumOf(p, b, kids, inner, c).0 == PlainSum(p, rank, b, i, kids)
    ensures (var d := SumOf(p, b, kids, inner, c).1; GeneratedRight(p, rank, d.generated) && RowsRight(p, rank, b, d.rows))
    decreases Left(p, inner), 1, |kids|
  {
    if kids != [] {
      GeneratedIsPlain(p, rank, kids[0], inner, c.generated);
      var g := HasGenerated(p, kids[0], inner, c.generated);
      var d := c.(generated := g.1);
      EffectiveIsPlain(p, rank, b, kids[0], inner, d);
      var first := if g.0 then Effective(p, b, kids[0], inner, d) else (p.nodes[kids[0]].rows, d);
      SumIsPlain(p, rank, b, i, kids[1..], inner, first.1);
    }
  }

  // ---------------------------------------------------------------- the probe

  /** The largest pair of an acyclic plan's nested loops among the first n nodes asked about. */
  ghost function PlainLargest(p: Plan, rank: seq<nat>, b: Bounds, order: seq<Id>): nat
    requires Ranked(p, rank) && forall k :: 0 <= k < |order| ==> order[k] < |p.nodes|
  {
    if order == [] then 0
    else Max(PlainLargest(p, rank, b, order[..|order| - 1]), PlainPair(p, rank, b, order[|order| - 1]))
  }

  ghost function PlainPair(p: Plan, rank: seq<nat>, b: Bounds, i: Id): nat
    requires Ranked(p, rank) && i < |p.nodes|
  {
    var inputs := JoinInputs(p, i);
    if inputs.None? then 0
    else Times(PlainRows(p, rank, b, inputs.value.0), PlainRows(p, rank, b, inputs.value.1))
  }

  /** The two inputs of a nested loop. */
  function JoinInputs(p: Plan, i: Id): (r: Option<(Id, Id)>)
    requires i < |p.nodes|
    ensures WellFormed(p) && r.Some? ==> r.value.0 < |p.nodes| && r.value.1 < |p.nodes|
  {
    var kids := KidsOf(p, i);
    if p.nodes[i].nodeType == "Nested Loop" && |kids| == 2 then Some((kids[0], kids[1])) else None
  }

  class PlanProbe {
    const plan: Plan
    const bounds: Bounds
    var rows: map<Id, nat>
    var generated: map<Id, bool>

    ghost function State(): Caches
      reads this
    {
      Caches(rows, generated)
    }

    constructor (p: Plan, b: Bounds)
      requires WellFormed(p)
      ensures plan == p && bounds == b && State() == Caches(map[], map[])
    {
      plan, bounds := p, b;
      rows, generated := map[], map[];
    }

    method HasGeneratedRows(i: Id, resolving: set<Id>) returns (r: bool)
      requires Sound(plan, i, resolving)
      modifies this`generated
      ensures (r, generated) == HasGenerated(plan, i, resolving, old(generated))
      decreases Left(plan, resolving), 0
    {
      hide AnyGenerated;
      if i in generated {
        return generated[i];
      }
      if i in resolving {
        return false;
      }
      LeftLess(plan, resolving, i);
      r := Generates(plan.nodes[i]);
      var producer := ProducerOf(plan, i);
      if !r && producer.Some? {
        r := HasGeneratedRows(producer.value, resolving + {i});
      }
      if !r {
        r := AnyGeneratedRows(KidsOf(plan, i), resolving + {i});
      }
      generated := generated[i := r];
    }

    /** The first child that has them ends the search. */
    method AnyGeneratedRows(kids: seq<Id>, inner: set<Id>) returns (r: bool)
      requires SoundAll(plan, kids, inner)
      modifies this`generated
      ensures (r, generated) == AnyGenerated(plan, kids, inner, old(generated))
      decreases Left(plan, inner), 1
    {
      hide HasGenerated;
      var k := 0;
      assert kids[0..] == kids;
      while k < |kids|
        invariant 0 <= k <= |kids|
        invariant AnyGenerated(plan, kids, inner, old(generated)) == AnyGenerated(plan, kids[k..], inner, generated)
      {
        assert kids[k..][0] == kids[k] && kids[k..][1..] == kids[k + 1..];
        r := HasGeneratedRows(kids[k], inner);
        if r {
          return;
        }
        k := k + 1;
      }
      assert kids[k..] == [];
      return false;
    }

    method EffectiveRows(i: Id, resolving: set<Id>) returns (r: nat)
      requires Sound(plan, i, resolving)
      modifies this`rows, this`generated
      ensures (r, State()) == Effective(plan, bounds, i, resolving, old(State()))
      decreases Left(plan, resolving), 1
    {
      if i in rows {
        return rows[i];
      }
      if i in resolving {
        return plan.nodes[i].rows;
      }
      LeftLess(plan, resolving, i);
      r := CorrectedRows(i, resolving + {i});
      rows := rows[i := r];
    }

    method CorrectedRows(i: Id, inner: set<Id>) returns (r: nat)
      requires Sound(plan, i, inner)
      modifies this`rows, this`generated
      ensures (r, State()) == Corrected(plan, bounds, i, inner, old(State()))
      decreases Left(plan, inner), 3
    {
      hide Effective, SumOf, HasGenerated;
      var node, kids := plan.nodes[i], KidsOf(plan, i);
      r := node.rows;
      if node.nodeType == "ProjectSet" {
        var input := 1;
        if |kids| == 1 {
          input := EffectiveRows(kids[0], inner);
        }
        r := Max(Max(r, bounds.h3), Times(input, bounds.literal));
      } else if node.nodeType == "Function Scan" {
        r := Max(Max(r, bounds.h3), bounds.literal);
      } else if node.nodeType == "CTE Scan" {
        var producer := ProducerOf(plan, i);
        if producer.Some? {
          var produced := EffectiveRows(producer.value, inner);
          r := Max(r, produced);
        }
      } else if Propagates(node) && |kids| == 1 {
        var below := EffectiveRows(kids[0], inner);
        r := Max(r, below);
      } else if Appends(node) && kids != [] {
        var sum := SumRows(kids, inner);
        r := Max(r, sum);
      }
    }

    method SumRows(kids: seq<Id>, inner: set<Id>) returns (sum: nat)
      requires SoundAll(plan, kids, inner)
      modifies this`rows, this`generated
      ensures (sum, State()) == SumOf(plan, bounds, kids, inner, old(State()))
      decreases Left(plan, inner), 2
    {
      hide Effective, HasGenerated;
      sum := 0;
      var k := 0;
      assert kids[0..] == kids;
      while k < |kids|
        invariant 0 <= k <= |kids|
        invariant (var rest := SumOf(plan, bounds, kids[k..], inner, State());
          (sum + rest.0, rest.1) == SumOf(plan, bounds, kids, inner, old(State())))
      {
        assert kids[k..][0] == kids[k] && kids[k..][1..] == kids[k + 1..];
        var many := HasGeneratedRows(kids[k], inner);
        var below := plan.nodes[kids[k]].rows;
        if many {
          below := EffectiveRows(kids[k], inner);
        }
        sum := sum + below;
        k := k + 1;
      }
      assert kids[k..] == [];
    }

    /** The nested loops, node by node in the order the walk found all nodes; on an acyclic plan
        they are counted, their largest pair of inputs is that of the plain recursion, and the
        query is refused exactly when some node of the plan pairs more rows than the limit. */
    method NestedLoops(order: seq<Id>, ghost rank: seq<nat>) returns (count: nat, largest: nat, refused: bool)
      requires WellFormed(plan) && Ranked(plan, rank) && State() == Caches(map[], map[])
      requires IsOrderOf(order, |plan.nodes|)
      modifies this`rows, this`generated
      ensures count == |LoopIds(plan)|
      ensures forall i :: 0 <= i < |plan.nodes| ==> PlainPair(plan, rank, bounds, i) <= largest
      ensures largest == 0 || exists i :: 0 <= i < |plan.nodes| && PlainPair(plan, rank, bounds, i) == largest
      ensures refused <==>
        exists i :: 0 <= i < |plan.nodes| && PlainPair(plan, rank, bounds, i) > QUERY_PLANNING_MAX_NESTED_LOOP_PAIR_ROWS
    {
      hide Effective, PlainRows, PlainGenerated, HasGenerated, Ranked, JoinInputs, GeneratedRight, RowsRight;
      NothingCached(plan, rank, bounds);
      count, largest := 0, 0;
      ghost var found: set<Id> := {};
      var k := 0;
      while k < |order|
        invariant 0 <= k <= |order|
        invariant count == |found|
        invariant forall i :: i in found <==> i in order[..k] && plan.nodes[i].nodeType == "Nested Loop"
        invariant largest == PlainLargest(plan, rank, bounds, order[..k])
        invariant GeneratedRight(plan, rank, generated) && RowsRight(plan, rank, bounds, rows)
      {
        var i := order[k];
        if plan.nodes[i].nodeType == "Nested Loop" {
          count := count + 1;
          found := found + {i};
        }
        var inputs := JoinInputs(plan, i);
        var pair := 0;
        if inputs.Some? {
          var outer := AskAcyclic(inputs.value.0, rank);
          var inner := AskAcyclic(inputs.value.1, rank);
          pair := Times(outer, inner);
        }
        largest := Max(largest, pair);
        assert order[..k + 1][..k] == order[..k];
        k := k + 1;
      }
      assert order[..k] == order;
      assert found == LoopIds(plan);
      LargestOfAll(plan, rank, bounds, order, QUERY_PLANNING_MAX_NESTED_LOOP_PAIR_ROWS);
      refused := largest > QUERY_PLANNING_MAX_NESTED_LOOP_PAIR_ROWS;
    }

    method AskAcyclic(i: Id, ghost rank: seq<nat>) returns (r: nat)
      requires Ranked(plan, rank) && i < |plan.nodes|
      requires GeneratedRight(plan, rank, generated) && RowsRight(plan, rank, bounds, rows)
      modifies this`rows, this`generated
      ensures r == PlainRows(plan, rank, bounds, i)
      ensures GeneratedRight(plan, rank, generated) && RowsRight(plan, rank, bounds, rows)
    {
      EffectiveIsPlain(plan, rank, bounds, i, {}, State());
      r := EffectiveRows(i, {});
    }
  }

  lemma NothingCached(p: Plan, rank: seq<nat>, b: Bounds)
    requires Ranked(p, rank)
    ensures GeneratedRight(p, rank, map[]) && RowsRight(p, rank, b, map[])
  {
  }

  lemma {:induction false} LargestIsMax(p: Plan, rank: seq<nat>, b: Bounds, order: seq<Id>)
    requires Ranked(p, rank) && forall k :: 0 <= k < |order| ==> order[k] < |p.nodes|
    ensures forall k :: 0 <= k < |order| ==> PlainPair(p, rank, b, order[k]) <= PlainLargest(p, rank, b, order)
    ensures var largest := PlainLargest(p, rank, b, order);
      largest == 0 || exists k :: 0 <= k < |order| && PlainPair(p, rank, b, order[k]) == largest
    decreases |order|
  {
    hide PlainPair, Ranked;
    if order != [] {
      var front := order[..|order| - 1];
      LargestIsMax(p, rank, b, front);
      assert forall k :: 0 <= k < |front| ==> front[k] == order[k];
    }
  }

  /** Every node of the plan, once. */
  ghost predicate IsOrderOf(order: seq<Id>, n: nat) {
    && (forall k :: 0 <= k < |order| ==> order[k] < n)
    && (forall j, k :: 0 <= j < k < |order| ==> order[j] != order[k])
    && (forall i: Id :: i < n ==> i in order)
  }

  ghost function LoopIds(p: Plan): set<Id> {
    set i: Id | i < |p.nodes| && p.nodes[i].nodeType == "Nested Loop"
  }

  lemma LargestOfAll(p: Plan, rank: seq<nat>, b: Bounds, order: seq<Id>, limit: nat)
    requires Ranked(p, rank) && IsOrderOf(order, |p.nodes|)
    ensures var largest := PlainLargest(p, rank, b, order);
      && (forall i: Id :: i < |p.nodes| ==> PlainPair(p, rank, b, i) <= largest)
      && (largest == 0 || exists i: Id :: i < |p.nodes| && PlainPair(p, rank, b, i) == largest)
      && (largest > limit <==> exists i: Id :: i < |p.nodes| && PlainPair(p, rank, b, i) > limit)
  {
    hide PlainPair, PlainLargest, Ranked;
    LargestIsMax(p, rank, b, order);
    forall i: Id | i < |p.nodes|
      ensures PlainPair(p, rank, b, i) <= PlainLargest(p, rank, b, order)
    {
      assert i in order;
    }
  }

  // ---------------------------------------------------------------- cyclic plans

  /** Three nodes in a ring: a CTE Scan, a sort over another CTE Scan, and that scan back to the first. */
  const RING := Plan(
    [Node("CTE Scan", 1, [], Some("a"), "", ""), Node("Sort", 5, [Kid(2, "Outer")], None, "", ""),
     Node("CTE Scan", 3, [], Some("b"), "", "")],
    map["a" := 1, "b" := 0])

  const NO_BOUNDS := Bounds(0, 0)
  const NOTHING := Caches(map[], map[])

  /** A cyclic plan on which the estimate of a node depends on what was asked before it. */
  lemma CyclicPlansDependOnOrder()
    ensures WellFormed(RING)
    ensures Effective(RING, NO_BOUNDS, 2, {}, NOTHING).0 == 5
    ensures Effective(RING, NO_BOUNDS, 2, {}, Effective(RING, NO_BOUNDS, 0, {}, NOTHING).1).0 == 3
  {
    AskedFirst();
    AskedAfter();
  }

  /** Asked first, node 2 goes to 0, to 1, and back to itself. */
  lemma AskedFirst()
    ensures Effective(RING, NO_BOUNDS, 2, {}, NOTHING).0 == 5
  {
    assert KidsOf(RING, 0) == [] && KidsOf(RING, 1) == [2] && KidsOf(RING, 2) == [];
    assert Effective(RING, NO_BOUNDS, 2, {2} + {0} + {1}, NOTHING) == (3, NOTHING);
    assert Corrected(RING, NO_BOUNDS, 1, {2} + {0} + {1}, NOTHING).0 == 5;
    assert Effective(RING, NO_BOUNDS, 1, {2} + {0}, NOTHING).0 == 5;
    assert Effective(RING, NO_BOUNDS, 0, {2}, NOTHING).0 == 5;
    assert {} + {2} == {2};
  }

  /** Asked after node 0, it finds what it was given while 0 was being resolved. */
  lemma AskedAfter()
    ensures (var c := Effective(RING, NO_BOUNDS, 0, {}, NOTHING).1; 2 in c.rows && c.rows[2] == 3)
  {
    assert KidsOf(RING, 0) == [] && KidsOf(RING, 1) == [2] && KidsOf(RING, 2) == [];
    assert Effective(RING, NO_BOUNDS, 0, {0} + {1} + {2}, NOTHING) == (1, NOTHING);
    assert Corrected(RING, NO_BOUNDS, 2, {0} + {1} + {2}, NOTHING) == (3, NOTHING);
    assert Effective(RING, NO_BOUNDS, 2, {0} + {1}, NOTHING) == (3, Caches(map[2 := 3], map[]));
    assert Effective(RING, NO_BOUNDS, 1, {0}, NOTHING).1 == Caches(map[2 := 3, 1 := 5], map[]);
    assert {} + {0} == {0};
  }
}
