/** The query plan probe (config-ui/derived_layers.py): one walk over the plan with an explicit stack
    and running maxima, and the limits that refuse a plan. */
module PlanWalk {
  import opened Wrappers

  const QUERY_PLAN_MAX_TOTAL_COST: real := 50000000.0
  const QUERY_PLAN_MAX_FINAL_ROWS: nat := 10000000
  const QUERY_PLAN_MAX_INTERMEDIATE_ROWS: nat := 100000000
  const QUERY_PLAN_MAX_INTERMEDIATE_BYTES: nat := 17179869184
  const QUERY_PLAN_MAX_JOIN_EXPANSION_RATIO: real := 1000.0
  const QUERY_PLAN_MAX_NODES: nat := 150
  const QUERY_PLAN_MAX_DEPTH: nat := 32
  const QUERY_PLAN_MAX_PLANNED_WORKERS: nat := 8
  const MATERIALIZED_ROW_OVERHEAD_BYTES: nat := 32

  /** A plan node as EXPLAIN prints it; a field is None when it is not what it must be, a string, a
      non-negative integer or a list of objects. Workers Planned is 0 when it is missing. */
  datatype Tree = Tree(nodeType: Option<string>, rows: Option<nat>, width: Option<nat>, workers: Option<nat>,
                       plans: Children)
  datatype Children = Children(list: seq<Tree>) | NotAList

  predicate ValidNode(t: Tree) {
    t.nodeType.Some? && t.nodeType.value != "" && t.rows.Some? && t.width.Some? && t.workers.Some? && t.plans.Children?
  }

  predicate Valid(t: Tree) {
    ValidNode(t) && forall k :: 0 <= k < |t.plans.list| ==> Valid(t.plans.list[k])
  }

  // ---------------------------------------------------------------- what one node says

  function Lower(s: string): string {
    if s == "" then "" else [if 'A' <= s[0] <= 'Z' then s[0] - 'A' + 'a' else s[0]] + Lower(s[1..])
  }

  predicate Contains(s: string, part: string) {
    exists k :: 0 <= k <= |s| && part <= s[k..]
  }

  predicate IsJoin(nodeType: string) {
    Contains(Lower(nodeType), "join") || nodeType == "Nested Loop"
  }

  /** Rows, times width and overhead, times the safety multiplier 1.2, rounded up. */
  function Bytes(rows: nat, width: nat): nat {
    (6 * Area(rows, width + MATERIALIZED_ROW_OVERHEAD_BYTES) + 4) / 5
  }

  function Area(rows: nat, width: nat): nat {
    rows * width
  }

  function MaxNat(a: nat, b: nat): nat {
    if a < b then b else a
  }

  function MaxReal(a: real, b: real): real {
    if a < b then b else a
  }

  /** The rows of the largest input, and no less than one. */
  function LargestInput(plans: seq<Tree>): (r: nat)
    ensures r >= 1
  {
    if plans == [] then 1
    else MaxNat(LargestInput(plans[..|plans| - 1]), if plans[|plans| - 1].rows.Some? then plans[|plans| - 1].rows.value else 0)
  }

  /** How far a join expands its largest input; 1 where there is nothing to expand. */
  function Expansion(t: Tree): real
    requires ValidNode(t)
  {
    if t.plans.list != [] && IsJoin(t.nodeType.value) && forall k :: 0 <= k < |t.plans.list| ==> t.plans.list[k].rows.Some?
    then t.rows.value as real / LargestInput(t.plans.list) as real else 1.0
  }

  predicate IsRecursive(t: Tree) {
    t.nodeType == Some("Recursive Union")
  }

  // ---------------------------------------------------------------- the recursive folds

  function KidsOf(t: Tree): (ts: seq<Tree>)
    ensures forall k :: 0 <= k < |ts| ==> ts[k] < t
  {
    if t.plans.Children? then t.plans.list else []
  }

  function Size(t: Tree): (n: nat)
    ensures n >= 1
    decreases t, 1
  {
    1 + Sizes(KidsOf(t), t)
  }

  /** The sizes of some children of t. */
  function Sizes(ts: seq<Tree>, t: Tree): nat
    requires forall k :: 0 <= k < |ts| ==> ts[k] < t
    decreases t, 0, |ts|
  {
    if ts == [] then 0 else Sizes(ts[..|ts| - 1], t) + Size(ts[|ts| - 1])
  }

  function Height(t: Tree): nat
    requires Valid(t)
  {
    1 + Heights(t.plans.list)
  }

  function Heights(ts: seq<Tree>): nat
    requires forall k :: 0 <= k < |ts| ==> Valid(ts[k])
  {
    if ts == [] then 0 else MaxNat(Heights(ts[..|ts| - 1]), Height(ts[|ts| - 1]))
  }

  function Workers(t: Tree): nat
    requires Valid(t)
  {
    t.workers.value + WorkersAll(t.plans.list)
  }

  function WorkersAll(ts: seq<Tree>): nat
    requires forall k :: 0 <= k < |ts| ==> Valid(ts[k])
  {
    if ts == [] then 0 else WorkersAll(ts[..|ts| - 1]) + Workers(ts[|ts| - 1])
  }

  /** The node n is t or somewhere below it. */
  predicate Within(n: Tree, t: Tree) {
    n == t || (t.plans.Children? && exists k :: 0 <= k < |t.plans.list| && Within(n, t.plans.list[k]))
  }

  // ---------------------------------------------------------------- what the walk accumulates

  datatype Totals = Totals(rows: nat, bytes: nat, expansion: real, count: nat, depth: nat, workers: nat, recursive: bool)

  const NONE := Totals(0, 0, 1.0, 0, 0, 0, false)

  function Merge(a: Totals, b: Totals): Totals {
    Totals(MaxNat(a.rows, b.rows), MaxNat(a.bytes, b.bytes), MaxReal(a.expansion, b.expansion), a.count + b.count,
           MaxNat(a.depth, b.depth), a.workers + b.workers, a.recursive || b.recursive)
  }

  function Own(t: Tree, depth: nat): Totals
    requires ValidNode(t)
  {
    Totals(t.rows.value, Bytes(t.rows.value, t.width.value), MaxReal(1.0, Expansion(t)), 1, depth, t.workers.value,
           IsRecursive(t))
  }

  /** What a whole subtree adds when its root is at this depth. */
  function Fold(t: Tree, depth: nat): Totals
    requires Valid(t)
    decreases t, 0
  {
    Merge(Own(t, depth), FoldAll(t.plans.list, depth + 1))
  }

  function FoldAll(ts: seq<Tree>, depth: nat): Totals
    requires forall k :: 0 <= k < |ts| ==> Valid(ts[k])
    decreases ts, 1
  {
    if ts == [] then NONE else Merge(FoldAll(ts[..|ts| - 1], depth), Fold(ts[|ts| - 1], depth))
  }

  lemma MergeLaws(a: Totals, b: Totals, c: Totals)
    ensures Merge(Merge(a, b), c) == Merge(a, Merge(b, c)) && Merge(a, b) == Merge(b, a)
    ensures a.expansion >= 1.0 ==> Merge(a, NONE) == a
  {
  }

  // ---------------------------------------------------------------- the walk

  datatype Visit = Visit(node: Tree, depth: nat)

  function FoldStack(stack: seq<Visit>): (r: Totals)
    requires forall k :: 0 <= k < |stack| ==> Valid(stack[k].node)
    ensures r.expansion >= 1.0
  {
    if stack == [] then NONE
    else Merge(FoldStack(stack[..|stack| - 1]), Fold(stack[|stack| - 1].node, stack[|stack| - 1].depth))
  }

  function Pushed(ts: seq<Tree>, depth: nat): (r: seq<Visit>)
    ensures |r| == |ts| && forall k :: 0 <= k < |r| ==> r[k] == Visit(ts[k], depth)
  {
    seq(|ts|, k requires 0 <= k < |ts| => Visit(ts[k], depth))
  }

  lemma {:induction false} FoldPushed(stack: seq<Visit>, ts: seq<Tree>, depth: nat)
    requires forall k :: 0 <= k < |stack| ==> Valid(stack[k].node)
    requires forall k :: 0 <= k < |ts| ==> Valid(ts[k])
    ensures FoldStack(stack + Pushed(ts, depth)) == Merge(FoldStack(stack), FoldAll(ts, depth))
    decreases |ts|
  {
    hide Merge, Fold;
    var all := stack + Pushed(ts, depth);
    if ts == [] {
      assert all == stack;
      MergeLaws(FoldStack(stack), NONE, NONE);
    } else {
      var front, last := ts[..|ts| - 1], ts[|ts| - 1];
      FoldPushed(stack, front, depth);
      assert all[..|all| - 1] == stack + Pushed(front, depth);
      assert all[|all| - 1] == Visit(last, depth);
      MergeLaws(FoldStack(stack), FoldAll(front, depth), Fold(last, depth));
    }
  }

  /** Nodes left to visit. */
  function Remaining(stack: seq<Visit>): nat {
    if stack == [] then 0 else Remaining(stack[..|stack| - 1]) + Size(stack[|stack| - 1].node)
  }

  lemma {:induction false} RemainingPushed(stack: seq<Visit>, ts: seq<Tree>, depth: nat, t: Tree)
    requires forall k :: 0 <= k < |ts| ==> ts[k] < t
    ensures Remaining(stack + Pushed(ts, depth)) == Remaining(stack) + Sizes(ts, t)
    decreases |ts|
  {
    hide Size;
    var all := stack + Pushed(ts, depth);
    if ts == [] {
      assert all == stack;
    } else {
      var front := ts[..|ts| - 1];
      assert all[|all| - 1] == Visit(ts[|ts| - 1], depth);
      RemainingPushed(stack, front, depth, t);
      assert all[..|all| - 1] == stack + Pushed(front, depth);
    }
  }

  ghost predicate AllValid(stack: seq<Visit>) {
    forall k :: 0 <= k < |stack| ==> Valid(stack[k].node)
  }

  /** Popping a node and pushing its children leaves the whole sum where it was. */
  lemma VisitOne(sofar: Totals, front: seq<Visit>, t: Tree, depth: nat)
    requires AllValid(front) && Valid(t)
    ensures AllValid(front + Pushed(t.plans.list, depth + 1))
    ensures Merge(Merge(sofar, Own(t, depth)), FoldStack(front + Pushed(t.plans.list, depth + 1)))
         == Merge(sofar, Merge(FoldStack(front), Fold(t, depth)))
  {
    var kids := t.plans.list;
    ValidSplits(front + [Visit(t, depth)], front, t, depth);
    FoldPushed(front, kids, depth + 1);
    hide Merge, Own, FoldStack, FoldAll;
    var f, o, k := FoldStack(front), Own(t, depth), FoldAll(kids, depth + 1);
    MergeLaws(f, o, k);
    MergeLaws(o, f, k);
    MergeLaws(sofar, o, Merge(f, k));
  }

  lemma ValidSplits(stack: seq<Visit>, front: seq<Visit>, t: Tree, depth: nat)
    requires stack == front + [Visit(t, depth)] && ValidNode(t)
    ensures AllValid(stack) <==> AllValid(front + Pushed(t.plans.list, depth + 1))
  {
    var next := front + Pushed(t.plans.list, depth + 1);
    assert stack[|front|] == Visit(t, depth);
    assert forall k :: 0 <= k < |front| ==> stack[k] == front[k] && next[k] == front[k];
    assert forall k :: 0 <= k < |t.plans.list| ==> next[|front| + k] == Visit(t.plans.list[k], depth + 1);
    assert forall k :: |front| <= k < |next| ==> next[k] == Visit(t.plans.list[k - |front|], depth + 1);
  }

  lemma RemainingLess(front: seq<Visit>, t: Tree, depth: nat)
    requires t.plans.Children?
    ensures Remaining(front + Pushed(t.plans.list, depth + 1)) < Remaining(front + [Visit(t, depth)])
  {
    RemainingPushed(front, KidsOf(t), depth + 1, t);
    assert (front + [Visit(t, depth)])[..|front|] == front;
  }

  /** One node's contribution to the running counts, sums and maxima. */
  method Tally(sofar: Totals, t: Tree, depth: nat) returns (r: Totals)
    requires ValidNode(t) && sofar.expansion >= 1.0
    ensures r == Merge(sofar, Own(t, depth)) && r.expansion >= 1.0
  {
    hide Bytes, IsJoin, LargestInput, IsRecursive;
    var kids := t.plans.list;
    r := sofar.(rows := MaxNat(sofar.rows, t.rows.value), bytes := MaxNat(sofar.bytes, Bytes(t.rows.value, t.width.value)),
                count := sofar.count + 1, depth := MaxNat(sofar.depth, depth), workers := sofar.workers + t.workers.value,
                recursive := sofar.recursive || IsRecursive(t));
    if kids != [] && IsJoin(t.nodeType.value) && forall k :: 0 <= k < |kids| ==> kids[k].rows.Some? {
      r := r.(expansion := MaxReal(r.expansion, t.rows.value as real / LargestInput(kids) as real));
    }
  }

  /** The walk: an explicit stack of nodes with their depths, last in first out. It computes exactly
      the recursive fold, and finds a node that is not one exactly when there is one. */
  method Walk(root: Tree) returns (r: Option<Totals>)
    ensures r == if Valid(root) then Some(Fold(root, 1)) else None
  {
    hide Merge, FoldStack, Fold, Own, Remaining;
    var sofar := NONE;
    var stack := [Visit(root, 1)];
    Started(root);
    while stack != []
      invariant Valid(root) <==> AllValid(stack)
      invariant sofar.expansion >= 1.0
      invariant AllValid(stack) ==> Merge(sofar, FoldStack(stack)) == Fold(root, 1)
      decreases Remaining(stack)
    {
      var n := |stack| - 1;
      var node, depth, front := stack[n].node, stack[n].depth, stack[..n];
      assert stack == front + [Visit(node, depth)];
      if !ValidNode(node) {
        assert !Valid(stack[n].node);
        return None;
      }
      ValidSplits(stack, front, node, depth);
      RemainingLess(front, node, depth);
      StackStep(sofar, stack, front, node, depth);
      sofar := Tally(sofar, node, depth);
      stack := front + Pushed(node.plans.list, depth + 1);
    }
    NothingLeft(sofar);
    return Some(sofar);
  }

  lemma StackStep(sofar: Totals, stack: seq<Visit>, front: seq<Visit>, t: Tree, depth: nat)
    requires stack == front + [Visit(t, depth)] && ValidNode(t)
    ensures AllValid(stack) ==>
      AllValid(front + Pushed(t.plans.list, depth + 1))
      && Merge(Merge(sofar, Own(t, depth)), FoldStack(front + Pushed(t.plans.list, depth + 1))) == Merge(sofar, FoldStack(stack))
  {
    if AllValid(stack) {
      assert stack[|front|] == Visit(t, depth) && stack[..|front|] == front;
      assert forall k :: 0 <= k < |front| ==> front[k] == stack[k];
      VisitOne(sofar, front, t, depth);
    }
  }

  lemma NothingLeft(sofar: Totals)
    requires sofar.expansion >= 1.0
    ensures Merge(sofar, FoldStack([])) == sofar
  {
  }

  lemma Started(root: Tree)
    ensures AllValid([Visit(root, 1)]) <==> Valid(root)
    ensures Valid(root) ==> Merge(NONE, FoldStack([Visit(root, 1)])) == Fold(root, 1)
  {
    assert [Visit(root, 1)][0].node == root;
  }

  // ---------------------------------------------------------------- what the totals mean

  /** Questions about single nodes that a running maximum answers. */
  datatype Question = RowsAbove(limit: nat) | BytesAbove(limit: nat) | ExpansionAbove(ratio: real) | Recurses

  predicate Answered(q: Question, total: Totals) {
    match q
    case RowsAbove(limit) => total.rows > limit
    case BytesAbove(limit) => total.bytes > limit
    case ExpansionAbove(ratio) => total.expansion > ratio
    case Recurses => total.recursive
  }

  predicate Says(q: Question, n: Tree) {
    ValidNode(n) &&
    match q
    case RowsAbove(limit) => n.rows.value > limit
    case BytesAbove(limit) => Bytes(n.rows.value, n.width.value) > limit
    case ExpansionAbove(ratio) => Expansion(n) > ratio
    case Recurses => IsRecursive(n)
  }

  /** Some node of the plan says so. */
  ghost predicate SomeNode(q: Question, t: Tree) {
    exists n :: Within(n, t) && Says(q, n)
  }

  predicate Proper(q: Question) {
    q.ExpansionAbove? ==> q.ratio >= 1.0
  }

  lemma MergeAnswers(q: Question, a: Totals, b: Totals)
    ensures Answered(q, Merge(a, b)) <==> Answered(q, a) || Answered(q, b)
  {
  }

  lemma OwnAnswers(q: Question, t: Tree, depth: nat)
    requires Proper(q) && ValidNode(t)
    ensures Answered(q, Own(t, depth)) <==> Says(q, t)
    ensures !Answered(q, NONE)
  {
  }

  lemma {:induction false} FoldAnswers(q: Question, t: Tree, depth: nat)
    requires Proper(q) && Valid(t)
    ensures Answered(q, Fold(t, depth)) <==> SomeNode(q, t)
    decreases t, 0
  {
    hide Answered, Says, Merge, Own;
    MergeAnswers(q, Own(t, depth), FoldAll(t.plans.list, depth + 1));
    OwnAnswers(q, t, depth);
    FoldAllAnswers(q, t.plans.list, depth + 1);
    assert Within(t, t);
    forall k | 0 <= k < |t.plans.list| && SomeNode(q, t.plans.list[k]) ensures SomeNode(q, t) {
      var n :| Within(n, t.plans.list[k]) && Says(q, n);
      assert Within(n, t);
    }
    if SomeNode(q, t) {
      var n :| Within(n, t) && Says(q, n);
      if n != t {
        var k :| 0 <= k < |t.plans.list| && Within(n, t.plans.list[k]);
        assert SomeNode(q, t.plans.list[k]);
      }
    }
  }

  lemma {:induction false} FoldAllAnswers(q: Question, ts: seq<Tree>, depth: nat)
    requires Proper(q) && forall k :: 0 <= k < |ts| ==> Valid(ts[k])
    ensures Answered(q, FoldAll(ts, depth)) <==> exists k :: 0 <= k < |ts| && SomeNode(q, ts[k])
    decreases ts, 1
  {
    hide Answered, Merge, SomeNode, Fold;
    if ts == [] {
      NoneAnswers(q);
    } else {
      var front, last := ts[..|ts| - 1], ts[|ts| - 1];
      FoldAllAnswers(q, front, depth);
      FoldAnswers(q, last, depth);
      MergeAnswers(q, FoldAll(front, depth), Fold(last, depth));
      assert forall k :: 0 <= k < |front| ==> front[k] == ts[k];
    }
  }

  lemma NoneAnswers(q: Question)
    requires Proper(q)
    ensures !Answered(q, NONE)
  {
  }

  /** Nodes are counted, workers added, and the depth is that of the deepest node. */
  lemma {:induction false} FoldCounts(t: Tree, depth: nat)
    requires Valid(t) && depth >= 1
    ensures Fold(t, depth).count == Size(t) && Fold(t, depth).workers == Workers(t)
    ensures Fold(t, depth).depth == depth - 1 + Height(t)
    decreases t, 0
  {
    FoldAllCounts(t.plans.list, depth + 1, t);
  }

  lemma {:induction false} FoldAllCounts(ts: seq<Tree>, depth: nat, t: Tree)
    requires depth >= 1 && forall k :: 0 <= k < |ts| ==> Valid(ts[k]) && ts[k] < t
    ensures FoldAll(ts, depth).count == Sizes(ts, t) && FoldAll(ts, depth).workers == WorkersAll(ts)
    ensures FoldAll(ts, depth).depth == if ts == [] then 0 else depth - 1 + Heights(ts)
    decreases ts, 1
  {
    if ts != [] {
      FoldAllCounts(ts[..|ts| - 1], depth, t);
      FoldCounts(ts[|ts| - 1], depth);
      HeightPositive(ts[..|ts| - 1]);
    }
  }

  lemma HeightPositive(ts: seq<Tree>)
    requires forall k :: 0 <= k < |ts| ==> Valid(ts[k])
    ensures ts != [] ==> Heights(ts) >= 1
  {
  }

  // ---------------------------------------------------------------- the verdict

  datatype Reason = RecursivePlan | TotalCost | FinalRows | IntermediateRows | IntermediateBytes | JoinExpansion
                  | PlanNodes | PlanDepth | PlannedWorkers

  datatype ProbeError = InvalidProbe | TooExpensive(reasons: seq<Reason>)

  /** The plan breaks the limit that the reason is about, said of the plan and not of the walk. */
  ghost predicate Breaks(reason: Reason, t: Tree, cost: real)
    requires Valid(t)
  {
    match reason
    case RecursivePlan => SomeNode(Recurses, t)
    case TotalCost => cost > QUERY_PLAN_MAX_TOTAL_COST
    case FinalRows => t.rows.value > QUERY_PLAN_MAX_FINAL_ROWS
    case IntermediateRows => SomeNode(RowsAbove(QUERY_PLAN_MAX_INTERMEDIATE_ROWS), t)
    case IntermediateBytes => SomeNode(BytesAbove(QUERY_PLAN_MAX_INTERMEDIATE_BYTES), t)
    case JoinExpansion => SomeNode(ExpansionAbove(QUERY_PLAN_MAX_JOIN_EXPANSION_RATIO), t)
    case PlanNodes => Size(t) > QUERY_PLAN_MAX_NODES
    case PlanDepth => Height(t) > QUERY_PLAN_MAX_DEPTH
    case PlannedWorkers => Workers(t) > QUERY_PLAN_MAX_PLANNED_WORKERS
  }

  /** The limits as the probe tests them, on its totals. */
  predicate Exceeds(reason: Reason, total: Totals, finalRows: nat, cost: real) {
    match reason
    case RecursivePlan => total.recursive
    case TotalCost => cost > QUERY_PLAN_MAX_TOTAL_COST
    case FinalRows => finalRows > QUERY_PLAN_MAX_FINAL_ROWS
    case IntermediateRows => total.rows > QUERY_PLAN_MAX_INTERMEDIATE_ROWS
    case IntermediateBytes => total.bytes > QUERY_PLAN_MAX_INTERMEDIATE_BYTES
    case JoinExpansion => total.expansion > QUERY_PLAN_MAX_JOIN_EXPANSION_RATIO
    case PlanNodes => total.count > QUERY_PLAN_MAX_NODES
    case PlanDepth => total.depth > QUERY_PLAN_MAX_DEPTH
    case PlannedWorkers => total.workers > QUERY_PLAN_MAX_PLANNED_WORKERS
  }

  /** The totals of the walk exceed a limit exactly when the plan breaks it. */
  lemma ExceedsIffBreaks(reason: Reason, t: Tree, cost: real)
    requires Valid(t)
    ensures Exceeds(reason, Fold(t, 1), t.rows.value, cost) <==> Breaks(reason, t, cost)
  {
    hide Fold, SomeNode;
    match reason
    case RecursivePlan => FoldAnswers(Recurses, t, 1);
    case IntermediateRows => FoldAnswers(RowsAbove(QUERY_PLAN_MAX_INTERMEDIATE_ROWS), t, 1);
    case IntermediateBytes => FoldAnswers(BytesAbove(QUERY_PLAN_MAX_INTERMEDIATE_BYTES), t, 1);
    case JoinExpansion => FoldAnswers(ExpansionAbove(QUERY_PLAN_MAX_JOIN_EXPANSION_RATIO), t, 1);
    case _ => FoldCounts(t, 1);
  }

  const REASONS: seq<Reason> :=
    [RecursivePlan, TotalCost, FinalRows, IntermediateRows, IntermediateBytes, JoinExpansion, PlanNodes, PlanDepth,
     PlannedWorkers]

  /** _query_plan_probe_result: a plan or a cost that is not one is refused; otherwise the plan is
      refused with exactly the limits it breaks, in their order, and accepted when it breaks none. */
  method ProbeResult(root: Option<Tree>, cost: Option<real>) returns (r: Result<Totals, ProbeError>)
    ensures r == Err(InvalidProbe) <==> root.None? || cost.None? || cost.value < 0.0 || !Valid(root.value)
    ensures r.Ok? ==> r.value == Fold(root.value, 1) && forall reason :: !Breaks(reason, root.value, cost.value)
    ensures r.Err? && r.error.TooExpensive? ==>
      && r.error.reasons != [] && InOrder(r.error.reasons)
      && forall reason :: reason in r.error.reasons <==> Breaks(reason, root.value, cost.value)
  {
    if root.None? || cost.None? || cost.value < 0.0 {
      return Err(InvalidProbe);
    }
    var t := root.value;
    var walked := Walk(t);
    if walked.None? {
      return Err(InvalidProbe);
    }
    var total := walked.value;
    var reasons: seq<Reason> := [];
    var k := 0;
    while k < |REASONS|
      invariant 0 <= k <= |REASONS|
      invariant reasons == Filtered(REASONS[..k], total, t.rows.value, cost.value)
    {
      assert REASONS[..k + 1] == REASONS[..k] + [REASONS[k]];
      if Exceeds(REASONS[k], total, t.rows.value, cost.value) {
        reasons := reasons + [REASONS[k]];
      }
      k := k + 1;
    }
    assert REASONS[..k] == REASONS;
    FilteredOrder(total, t.rows.value, cost.value);
    forall reason ensures reason in reasons <==> Breaks(reason, t, cost.value) {
      ExceedsIffBreaks(reason, t, cost.value);
    }
    if reasons != [] {
      return Err(TooExpensive(reasons));
    }
    return Ok(total);
  }

  function Filtered(all: seq<Reason>, total: Totals, finalRows: nat, cost: real): seq<Reason> {
    if all == [] then []
    else
      var front := Filtered(all[..|all| - 1], total, finalRows, cost);
      if Exceeds(all[|all| - 1], total, finalRows, cost) then front + [all[|all| - 1]] else front
  }

  function Rank(reason: Reason): nat {
    match reason
    case RecursivePlan => 0
    case TotalCost => 1
    case FinalRows => 2
    case IntermediateRows => 3
    case IntermediateBytes => 4
    case JoinExpansion => 5
    case PlanNodes => 6
    case PlanDepth => 7
    case PlannedWorkers => 8
  }

  predicate InOrder(reasons: seq<Reason>) {
    forall i, j :: 0 <= i < j < |reasons| ==> Rank(reasons[i]) < Rank(reasons[j])
  }

  lemma {:induction false} FilteredKeeps(n: nat, total: Totals, finalRows: nat, cost: real)
    requires n <= |REASONS|
    ensures (var f := Filtered(REASONS[..n], total, finalRows, cost);
      InOrder(f) && forall reason :: reason in f <==> Rank(reason) < n && Exceeds(reason, total, finalRows, cost))
  {
    hide Exceeds;
    if n > 0 {
      FilteredKeeps(n - 1, total, finalRows, cost);
      assert REASONS[..n][..n - 1] == REASONS[..n - 1];
      assert Rank(REASONS[n - 1]) == n - 1;
      var front := Filtered(REASONS[..n - 1], total, finalRows, cost);
      assert forall i :: 0 <= i < |front| ==> front[i] in front;
    }
  }

  lemma FilteredOrder(total: Totals, finalRows: nat, cost: real)
    ensures (var f := Filtered(REASONS, total, finalRows, cost);
      InOrder(f) && forall reason :: reason in f <==> Exceeds(reason, total, finalRows, cost))
  {
    assert REASONS[..|REASONS|] == REASONS;
    FilteredKeeps(|REASONS|, total, finalRows, cost);
  }
}
