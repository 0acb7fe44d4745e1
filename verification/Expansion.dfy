/** Bounds on generated rows: literal generate_series ranges (config-ui/derived_query_guard.py) and the
    saturating estimate of H3 expansion (config-ui/derived_layers.py). */
module Expansion {
  import opened Wrappers

  // ---------------------------------------------------------------- generate_series

  /** What generate_series(start, stop, step) emits. */
  function Series(start: int, stop: int, step: int): seq<int>
    requires step != 0
    decreases if step > 0 then stop - start else start - stop
  {
    if (step > 0 && start > stop) || (step < 0 && start < stop) then []
    else [start] + Series(start + step, stop, step)
  }

  function Abs(n: int): nat {
    if n < 0 then -n else n
  }

  /** _series_rows on literal arguments; None where it gives no bound. */
  function SeriesRows(start: int, stop: int, step: int): Option<nat> {
    if step == 0 then None
    else if (step > 0 && start > stop) || (step < 0 && start < stop) then Some(0)
    else Some(Abs(stop - start) / Abs(step) + 1)
  }

  lemma NoLess(x: int, s: int)
    requires x >= 1 && s >= 0
    ensures x * s >= s
  {
    assert (x - 1) * s >= 0;
  }

  lemma SameQuotient(s: int, q: int, r: int, p: int, t: int)
    requires 0 <= r < s && 0 <= t < s && q * s + r == p * s + t
    ensures q == p
  {
    if q > p {
      assert (q - p) * s == q * s - p * s;
      NoLess(q - p, s);
    } else if q < p {
      assert (p - q) * s == p * s - q * s;
      NoLess(p - q, s);
    }
  }

  lemma DivUnique(a: int, s: int, q: int, r: int)
    requires 0 <= r < s && a == q * s + r
    ensures a / s == q
  {
    SameQuotient(s, q, r, a / s, a % s);
  }

  lemma DivStep(a: nat, s: nat)
    requires s > 0
    ensures a >= s ==> (a - s) / s == a / s - 1
    ensures a < s ==> a / s == 0
  {
    if a >= s {
      assert a - s == (a / s - 1) * s + a % s;
      DivUnique(a - s, s, a / s - 1, a % s);
    } else {
      DivUnique(a, s, 0, a);
    }
  }

  /** The count is the length of the sequence that is emitted, for every start, stop and step. */
  lemma {:induction false} SeriesRowsIsLength(start: int, stop: int, step: int)
    requires step != 0
    ensures SeriesRows(start, stop, step) == Some(|Series(start, stop, step)|)
    decreases if step > 0 then stop - start else start - stop
  {
    if !((step > 0 && start > stop) || (step < 0 && start < stop)) {
      SeriesRowsIsLength(start + step, stop, step);
      DivStep(Abs(stop - start), Abs(step));
    }
  }

  /** Every member lies between the bounds, a step from the one before it. */
  lemma {:induction false} SeriesMembers(start: int, stop: int, step: int, k: nat)
    requires step != 0 && k < |Series(start, stop, step)|
    ensures Series(start, stop, step)[k] == start + k * step
    ensures if step > 0 then start + k * step <= stop else start + k * step >= stop
    decreases k
  {
    if k > 0 {
      SeriesMembers(start + step, stop, step, k - 1);
      assert start + step + (k - 1) * step == start + k * step;
    }
  }

  // ---------------------------------------------------------------- a range of series

  const MAX_GENERATED_ROWS: nat := 100000

  datatype Call = Call(start: int, stop: int, step: int)

  function Product(calls: seq<Call>): nat
    requires forall k :: 0 <= k < |calls| ==> calls[k].step != 0
  {
    if calls == [] then 1
    else
      var last := calls[|calls| - 1];
      Times(Product(calls[..|calls| - 1]), |Series(last.start, last.stop, last.step)|)
  }

  function Times(a: nat, b: nat): nat {
    a * b
  }

  /** _literal_series_range_rows: the running product of a range made of literal series. A bound is
      given exactly when no step is zero and the product never exceeds the limit on the way. */
  method RangeRows(calls: seq<Call>) returns (r: Option<nat>)
    ensures r.Some? <==>
      && calls != [] && (forall k :: 0 <= k < |calls| ==> calls[k].step != 0)
      && (forall n :: 0 <= n <= |calls| ==> Product(calls[..n]) <= MAX_GENERATED_ROWS)
    ensures r.Some? ==> r.value == Product(calls)
  {
    if calls == [] {
      return None;
    }
    var total, k := 1, 0;
    assert calls[..0] == [];
    while k < |calls|
      invariant 0 <= k <= |calls| && forall j :: 0 <= j < k ==> calls[j].step != 0
      invariant total == Product(calls[..k])
      invariant forall n :: 0 <= n <= k ==> Product(calls[..n]) <= MAX_GENERATED_ROWS
    {
      var call := calls[k];
      var rows := SeriesRows(call.start, call.stop, call.step);
      if rows.None? {
        return None;
      }
      SeriesRowsIsLength(call.start, call.stop, call.step);
      assert calls[..k + 1][..k] == calls[..k];
      total := Times(total, rows.value);
      k := k + 1;
      if total > MAX_GENERATED_ROWS {
        return None;
      }
    }
    assert calls[..k] == calls;
    return Some(total);
  }

  /** Row k of a range of several series: they run side by side, and a series that has ended
      gives nulls. */
  function RangeRow(calls: seq<Call>, k: nat): seq<Option<int>>
    requires forall j :: 0 <= j < |calls| ==> calls[j].step != 0
  {
    seq(|calls|, j requires 0 <= j < |calls| =>
      var s := Series(calls[j].start, calls[j].stop, calls[j].step);
      if k < |s| then Some(s[k]) else None)
  }

  /** The rows that the range yields: as many as its longest series has members. */
  function RangeLength(calls: seq<Call>): nat
    requires forall j :: 0 <= j < |calls| ==> calls[j].step != 0
  {
    if calls == [] then 0
    else
      var last := calls[|calls| - 1];
      var before, rows := RangeLength(calls[..|calls| - 1]), |Series(last.start, last.stop, last.step)|;
      if rows > before then rows else before
  }

  /** The range ends exactly where every series has ended. */
  lemma {:induction false} RangeEnds(calls: seq<Call>, k: nat)
    requires forall j :: 0 <= j < |calls| ==> calls[j].step != 0
    ensures k < RangeLength(calls) <==> exists j :: 0 <= j < |calls| && RangeRow(calls, k)[j].Some?
  {
    if calls != [] {
      var n := |calls| - 1;
      RangeEnds(calls[..n], k);
      assert forall j :: 0 <= j < n ==> RangeRow(calls, k)[j] == RangeRow(calls[..n], k)[j];
      if k < RangeLength(calls) && !(k < RangeLength(calls[..n])) {
        assert RangeRow(calls, k)[n].Some?;
      }
    }
  }

  predicate EmptyCall(c: Call)
    requires c.step != 0
  {
    Series(c.start, c.stop, c.step) == []
  }

  lemma {:induction false} ProductZeroIff(calls: seq<Call>)
    requires forall j :: 0 <= j < |calls| ==> calls[j].step != 0
    ensures Product(calls) == 0 <==> exists j :: 0 <= j < |calls| && EmptyCall(calls[j])
    ensures Product(calls) > 0 ==> RangeLength(calls) <= Product(calls)
  {
    if calls != [] {
      var n := |calls| - 1;
      ProductZeroIff(calls[..n]);
      var rows := |Series(calls[n].start, calls[n].stop, calls[n].step)|;
      TimesZero(Product(calls[..n]), rows);
      assert EmptyCall(calls[n]) <==> rows == 0;
      if j :| 0 <= j < n && EmptyCall(calls[..n][j]) {
        assert EmptyCall(calls[j]);
      }
      if j :| 0 <= j < n && EmptyCall(calls[j]) {
        assert EmptyCall(calls[..n][j]);
      }
    }
  }

  lemma TimesZero(a: nat, b: nat)
    ensures Times(a, b) == 0 <==> a == 0 || b == 0
    ensures a > 0 && b > 0 ==> Times(a, b) >= a && Times(a, b) >= b
  {
    if a > 0 && b > 0 {
      AtLeast(a, b);
      AtLeast(b, a);
      TimesOrder(a, b, 1);
    }
  }

  lemma {:induction false} LengthZeroIff(calls: seq<Call>)
    requires forall j :: 0 <= j < |calls| ==> calls[j].step != 0
    ensures RangeLength(calls) == 0 <==> forall j :: 0 <= j < |calls| ==> EmptyCall(calls[j])
  {
    if calls != [] {
      var n := |calls| - 1;
      LengthZeroIff(calls[..n]);
      assert RangeLength(calls) == 0 ==> forall j :: 0 <= j < n ==> EmptyCall(calls[..n][j]);
      assert forall j :: 0 <= j < n ==> calls[..n][j] == calls[j];
    }
  }

  /** The product bounds the rows of the range exactly when none of its series is empty, or all
      of them are. */
  lemma ProductBoundsIff(calls: seq<Call>)
    requires calls != [] && forall j :: 0 <= j < |calls| ==> calls[j].step != 0
    ensures RangeLength(calls) <= Product(calls) <==>
      (|| (forall j :: 0 <= j < |calls| ==> !EmptyCall(calls[j]))
       || (forall j :: 0 <= j < |calls| ==> EmptyCall(calls[j])))
  {
    ProductZeroIff(calls);
    LengthZeroIff(calls);
  }

  /** An empty series beside a long one: no product on the way exceeds the limit, so the range
      is bounded, at nought, and it yields twice the limit. */
  lemma EmptySeriesHidesLong(calls: seq<Call>)
    requires calls == [Call(1, 0, 1), Call(1, 200000, 1)]
    ensures forall n :: 0 <= n <= 2 ==> Product(calls[..n]) <= MAX_GENERATED_ROWS
    ensures Product(calls) == 0 && RangeLength(calls) == 200000
  {
    SeriesRowsIsLength(1, 200000, 1);
    SeriesRowsIsLength(1, 0, 1);
    assert calls[..2] == calls && calls[..1] == [Call(1, 0, 1)] && calls[..0] == [];
    assert calls[..1][..0] == [];
    assert Product(calls[..1]) == 0 && RangeLength(calls[..1]) == 0;
  }

  /** With the limit on each call besides, no range passes that yields more rows than the limit. */
  lemma {:induction false} CallLimitsBound(calls: seq<Call>)
    requires forall j :: 0 <= j < |calls| ==> calls[j].step != 0
    ensures RangeLength(calls) <= MAX_GENERATED_ROWS <==>
      forall j :: 0 <= j < |calls| ==> |Series(calls[j].start, calls[j].stop, calls[j].step)| <= MAX_GENERATED_ROWS
  {
    if calls != [] {
      var n := |calls| - 1;
      CallLimitsBound(calls[..n]);
      assert forall j :: 0 <= j < n ==> calls[..n][j] == calls[j];
    }
  }

  // ---------------------------------------------------------------- H3 expansion

  const H3_SCOPE_MAX_ESTIMATED_CELLS: nat := 2000000
  const H3_SCOPE_MAX_ESTIMATED_EXPANDED_CELLS: nat := 10000000

  function Min(a: nat, b: nat): nat {
    if a < b then a else b
  }

  /** A grid call, by its distance: a ring of that radius or the whole disk. */
  datatype Grid = Ring(distance: nat) | Disk(distance: nat)

  function Cells(g: Grid): (n: nat)
    ensures n >= 1
  {
    match g
    case Ring(d) => if d == 0 then 1 else 6 * d
    case Disk(d) => 3 * Times(d, d + 1) + 1
  }

  /** Every cell has seven children. */
  function Powers(children: nat): (n: nat)
    ensures n >= 1
  {
    if children == 0 then 1 else 7 * Powers(children - 1)
  }

  function GridProduct(grids: seq<Grid>): (n: nat)
    ensures n >= 1
  {
    if grids == [] then 1
    else
      PositiveProduct(GridProduct(grids[..|grids| - 1]), Cells(grids[|grids| - 1]));
      Times(GridProduct(grids[..|grids| - 1]), Cells(grids[|grids| - 1]))
  }

  lemma PositiveProduct(a: nat, b: nat)
    requires a >= 1 && b >= 1
    ensures Times(a, b) >= 1
  {
  }

  function ScopeCells(scopes: seq<nat>): nat {
    if scopes == [] then 0 else ScopeCells(scopes[..|scopes| - 1]) + scopes[|scopes| - 1]
  }

  /** The unbounded product that is being estimated. */
  function Expanded(scopes: seq<nat>, grids: seq<Grid>, children: nat): nat {
    Times(ScopeCells(scopes), Times(GridProduct(grids), Powers(children)))
  }

  /** Saturation commutes with multiplying by something positive. */
  lemma Saturates(x: nat, m: nat, top: nat)
    requires m >= 1
    ensures Min(Times(Min(x, top), m), top) == Min(Times(x, m), top)
  {
    if x >= top {
      AtLeast(x, m);
      AtLeast(top, m);
    }
  }

  lemma AtLeast(x: nat, m: nat)
    requires m >= 1
    ensures Times(x, m) >= x
  {
  }

  lemma TimesOrder(x: nat, y: nat, z: nat)
    ensures Times(Times(x, y), z) == Times(x, Times(y, z)) && Times(x, y) == Times(y, x)
  {
    assert (x * y) * z == x * (y * z);
  }

  datatype Estimate = Estimate(scopeCells: nat, multiplier: nat, expandedCells: nat, scopeTooLarge: bool, tooLarge: bool)

  /** _h3_expansion_guard: the running estimate never goes past one more than its limit, and yet it is
      refused exactly when the unbounded product of cells and multipliers exceeds the limit. */
  method ExpansionGuard(scopes: seq<nat>, grids: seq<Grid>, children: nat) returns (r: Estimate)
    ensures r.scopeCells == ScopeCells(scopes) && (r.scopeTooLarge <==> ScopeCells(scopes) > H3_SCOPE_MAX_ESTIMATED_CELLS)
    ensures r.tooLarge <==> Expanded(scopes, grids, children) > H3_SCOPE_MAX_ESTIMATED_EXPANDED_CELLS
    ensures r.expandedCells == Min(Expanded(scopes, grids, children), H3_SCOPE_MAX_ESTIMATED_EXPANDED_CELLS + 1)
    ensures r.multiplier <= H3_SCOPE_MAX_ESTIMATED_EXPANDED_CELLS + 1
  {
    var top := H3_SCOPE_MAX_ESTIMATED_EXPANDED_CELLS + 1;
    var scopeCells, k := 0, 0;
    while k < |scopes|
      invariant 0 <= k <= |scopes| && scopeCells == ScopeCells(scopes[..k])
    {
      assert scopes[..k + 1][..k] == scopes[..k];
      scopeCells := scopeCells + scopes[k];
      k := k + 1;
    }
    assert scopes[..k] == scopes;
    var multiplier, g := 1, 0;
    while g < |grids|
      invariant 0 <= g <= |grids| && multiplier == Min(GridProduct(grids[..g]), top)
    {
      assert grids[..g + 1][..g] == grids[..g];
      Saturates(GridProduct(grids[..g]), Cells(grids[g]), top);
      multiplier := Min(Times(multiplier, Cells(grids[g])), top);
      g := g + 1;
    }
    assert grids[..g] == grids;
    var c := 0;
    TimesOrder(GridProduct(grids), 1, 1);
    while c < children
      invariant 0 <= c <= children && multiplier == Min(Times(GridProduct(grids), Powers(c)), top)
    {
      Saturates(Times(GridProduct(grids), Powers(c)), 7, top);
      TimesOrder(GridProduct(grids), Powers(c), 7);
      multiplier := Min(Times(multiplier, 7), top);
      c := c + 1;
    }
    var all := Times(GridProduct(grids), Powers(children));
    var expandedCells := 0;
    if scopeCells > 0 {
      Saturates(all, scopeCells, top);
      TimesOrder(multiplier, scopeCells, 1);
      TimesOrder(all, scopeCells, 1);
      expandedCells := Min(Times(scopeCells, multiplier), top);
    }
    r := Estimate(scopeCells, multiplier, expandedCells, scopeCells > H3_SCOPE_MAX_ESTIMATED_CELLS,
                  expandedCells > H3_SCOPE_MAX_ESTIMATED_EXPANDED_CELLS);
  }

  // ---------------------------------------------------------------- the size of a disk

  /** The cells within a distance of the origin, in axial coordinates: the row q has one cell for each
      r with |r| and |q + r| no larger than k. */
  function Row(k: int, q: int): set<(int, int)> {
    set r | -k <= r <= k && -k <= q + r <= k :: (q, r)
  }

  function Product2(a: int, b: int): int {
    a * b
  }

  /** The rows from -k up to, but not including, q. */
  function Rows(k: int, q: int): set<(int, int)>
    requires -k <= q <= k + 1
    decreases q + k
  {
    if q == -k then {} else Rows(k, q - 1) + Row(k, q - 1)
  }

  lemma {:induction false} Interval(q: int, lo: int, hi: int)
    requires lo <= hi
    ensures |set r | lo <= r < hi :: (q, r)| == hi - lo
    decreases hi - lo
  {
    var s := set r | lo <= r < hi :: (q, r);
    if lo == hi {
      assert s == {};
    } else {
      Interval(q, lo, hi - 1);
      assert s == (set r | lo <= r < hi - 1 :: (q, r)) + {(q, hi - 1)};
    }
  }

  lemma RowSize(k: int, q: int)
    requires -k <= q <= k
    ensures |Row(k, q)| == 2 * k + 1 - Abs(q)
  {
    var lo, hi := if q < 0 then -k - q else -k, if q < 0 then k + 1 else k - q + 1;
    Interval(q, lo, hi);
    assert Row(k, q) == set r | lo <= r < hi :: (q, r);
  }

  /** Twice the cells of the rows so far: every row is one longer until the middle one, and one
      shorter after it. */
  lemma {:induction false} RowsSize(k: int, q: int)
    requires -k <= q <= k + 1
    ensures q <= 1 ==> 2 * |Rows(k, q)| == Product2(q + k, 3 * k + 1 + q)
    ensures q >= 1 ==> 2 * |Rows(k, q)| == Product2(k + 1, 3 * k + 2) + Product2(q - 1, 4 * k + 2 - q)
    ensures forall c :: c in Rows(k, q) ==> c.0 < q
    decreases q + k
  {
    if q > -k {
      RowsSize(k, q - 1);
      RowSize(k, q - 1);
      assert Rows(k, q - 1) !! Row(k, q - 1);
      assert |Rows(k, q)| == |Rows(k, q - 1)| + |Row(k, q - 1)|;
      if q <= 1 {
        GrowRows(k, q);
      } else {
        ShrinkRows(k, q);
      }
    }
  }

  lemma GrowRows(k: int, q: int)
    requires -k < q <= 1
    ensures Product2(q - 1 + k, 3 * k + q) + 2 * (2 * k + 1 - Abs(q - 1)) == Product2(q + k, 3 * k + 1 + q)
  {
    var a := q + k;
    assert (a - 1) * (a + 2 * k) + 2 * (k + a) == a * (a + 2 * k + 1);
  }

  lemma ShrinkRows(k: int, q: int)
    requires 1 < q <= k + 1
    ensures Product2(q - 2, 4 * k + 3 - q) + 2 * (2 * k + 1 - (q - 1)) == Product2(q - 1, 4 * k + 2 - q)
  {
    assert (q - 2) * (4 * k + 3 - q) + 2 * (2 * k + 2 - q) == (q - 1) * (4 * k + 2 - q);
  }

  predicate InDisk(k: int, c: (int, int)) {
    -k <= c.0 <= k && -k <= c.1 <= k && -k <= c.0 + c.1 <= k
  }

  lemma {:induction false} RowsAre(k: int, q: int)
    requires -k <= q <= k + 1
    ensures forall c :: c in Rows(k, q) <==> InDisk(k, c) && c.0 < q
    decreases q + k
  {
    if q > -k {
      RowsAre(k, q - 1);
    }
  }

  /** A hexagonal disk of radius k has 3k(k + 1) + 1 cells: the multiplier of a disk call. */
  lemma WithinDisk(k: nat)
    ensures forall c :: InDisk(k, c) ==> c.0 < k + 1
  {
  }

  lemma DiskSize(k: nat)
    ensures |Rows(k, k + 1)| == Cells(Disk(k))
    ensures forall c :: c in Rows(k, k + 1) <==> InDisk(k, c)
  {
    hide Rows, InDisk;
    RowsAre(k, k + 1);
    RowsSize(k, k + 1);
    DiskArithmetic(k);
    WithinDisk(k);
  }

  lemma DiskArithmetic(k: int)
    ensures Product2(k + 1, 3 * k + 2) + Product2(k, 3 * k + 1) == 2 * (3 * Product2(k, k + 1) + 1)
  {
    var s := k * k;
    assert (k + 1) * (3 * k + 2) == 3 * s + 5 * k + 2;
    assert k * (3 * k + 1) == 3 * s + k;
    assert k * (k + 1) == s + k;
  }
}
