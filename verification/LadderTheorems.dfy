/** What the ladder promises, over every sequence of migrations, rollbacks and writes: the ledger names a prefix
    of the migrations and the structure is what they build; stepping down always works; stepping up works unless
    single-use tokens outlived their binding. */
module LadderTheorems {
  import opened LadderModel
  import opened LadderRows
  import opened LadderStages
  import opened SchemaModel
  import opened SchemaTheorems
  import opened Wrappers

  /** A database after k migrations. */
  ghost predicate Ladder(k: nat, db: Db) {
    && k <= TOP && db.rows.Keys == db.catalog.tables.Keys
    && db.catalog == Fold(k) && Conforms(db.catalog, db.rows)
    && (db.ledger == Some(Versions(k)) || (k == 0 && db.ledger == None))
  }

  // ---------------------------------------------------------------- one rung

  lemma RungUp(k: nat, db: Db, now: int)
    requires 1 <= k <= TOP && db.catalog == Fold(k - 1) && Conforms(db.catalog, db.rows)
    ensures var r := Execute(db, Migration(k), now);
      (r.Ok? <==> !(k == 3 && HoldsSingleUse(db.rows)))
      && (r.Err? ==> r.error == Refused(RESERVE))
      && (r.Ok? ==> r.value.catalog == Fold(k) && Conforms(r.value.catalog, r.value.rows)
                    && r.value.ledger == db.ledger)
      && (r.Ok? && k == 2 ==> !HoldsSingleUse(r.value.rows))
  {
    hide Fold, Stage, TableConforms, Execute, Migration, AllLegal, Effects, RESERVE, HoldsSingleUse;
    var r := Execute(db, Migration(k), now);
    if k in {1, 2, 6, 7, 9} {
      CreatedRuns(k, db, now);
    } else if k in {4, 8, 10} {
      OthersRun(k, db, now);
    } else if k == 5 {
      EpochRuns(db, now);
    } else if k == 3 {
      BindingRunsIff(db, now);
    } else {
      ReplacingRuns(db, now);
    }
    if r.Ok? {
      FoldStage(k - 1);
      StageClosed(k - 1, db.catalog);
      RollbackIsInverse(k);
      ExecuteKeeps(db, Migration(k), now);
      if k == 2 { NewTokens(r.value.rows); }
    }
  }

  lemma NewTokens(rows: Rows)
    requires forall t <- rows | t in NewIn(2) :: rows[t] == map[]
    ensures !HoldsSingleUse(rows)
  {
    assert TableVersion(OauthTokens) == 2;
  }

  lemma RungDown(k: nat, db: Db, now: int)
    requires 1 <= k <= TOP && db.catalog == Fold(k) && Conforms(db.catalog, db.rows)
    ensures var r := Execute(db, Rollback(k), now);
      r.Ok? && r.value.catalog == Fold(k - 1) && Conforms(r.value.catalog, r.value.rows)
      && r.value.ledger == db.ledger
      && (k >= 3 ==> HoldsSingleUse(r.value.rows) == HoldsSingleUse(db.rows))
  {
    hide Fold, Stage, Conforms, Execute, Rollback, AllLegal, Effects, HoldsSingleUse, UnboundRows, Unflagged;
    if k == 11 {
      UnbindingRuns(db, now);
    } else {
      RollbackRuns(k, db, now);
    }
    FoldStage(k);
    StageClosed(k, db.catalog);
    RollbackIsInverse(k);
    ExecuteKeeps(db, Rollback(k), now);
    if k >= 3 { RollbackSpares(k, db, now); }
  }

  // ---------------------------------------------------------------- migrate

  function From(v: nat): seq<nat>
    requires 1 <= v <= TOP + 1
    decreases TOP + 1 - v
  {
    if v > TOP then [] else [v] + From(v + 1)
  }

  function Above(k: nat): set<nat> {
    Versions(TOP) - Versions(k)
  }

  lemma LeastAbove(k: nat)
    requires k < TOP
    ensures Above(k) != {} && Lowest(Above(k)) == k + 1 && Above(k) - {k + 1} == Above(k + 1)
  {
    assert k + 1 in Above(k);
  }

  /** From any height the ladder is climbed to its top, or stops at the third migration. */
  lemma {:induction false} Climbs(db: Db, k: nat, now: int)
    requires Ladder(k, db) && db.ledger == Some(Versions(k))
    ensures var r := Ascend(db, Above(k), now);
      (r.Ok? <==> !(k == 2 && HoldsSingleUse(db.rows))) && (r.Err? ==> r.error == Refused(RESERVE))
      && (r.Ok? ==> r.value.versions == From(k + 1) && Ladder(TOP, r.value.db))
    decreases TOP - k
  {
    hide Fold, TableConforms, Execute, Migration, RESERVE, HoldsSingleUse, Above;
    if k < TOP {
      LeastAbove(k);
      RungUp(k + 1, db, now);
      var run := Execute(db, Migration(k + 1), now);
      if run.Ok? {
        var next := run.value.(ledger := Some(Ledger(run.value) + {k + 1}));
        assert next.ledger == Some(Versions(k + 1));
        Climbs(next, k + 1, now);
      }
    } else {
      assert Above(k) == {} by { NothingAbove(); }
    }
  }

  lemma NothingAbove()
    ensures Above(TOP) == {}
  {
  }

  /** `migrate` brings every database of the ladder to its top, applying exactly the missing versions in order,
      if and only if it does not stand at version 2 with a single-use token in it. Otherwise it is refused, and
      always by the same statement of migration 3. */
  lemma MigrateSucceedsIff(k: nat, db: Db, now: int)
    requires Ladder(k, db)
    ensures var r := Migrated(db, now);
      (r.Ok? <==> !(k == 2 && HoldsSingleUse(db.rows))) && (r.Err? ==> r.error == Refused(RESERVE))
      && (r.Ok? ==> r.value.versions == From(k + 1) && Ladder(TOP, r.value.db))
  {
    hide Fold, Conforms, Ascend, RESERVE, HoldsSingleUse;
    var start := db.(ledger := Some(Ledger(db)));
    assert Versions(0) == {};
    assert Ladder(k, start) && start.ledger == Some(Versions(k));
    Climbs(start, k, now);
  }

  // ---------------------------------------------------------------- rollback

  function Lower(k: nat, to: int): nat
    requires to >= 0
  {
    if to < k then to else k
  }

  /** k, k - 1, ... down to the version above the target. */
  function Downward(k: nat, to: nat): seq<nat> {
    if k <= to then [] else [k] + Downward(k - 1, to)
  }

  lemma GreatestVersion(k: nat)
    requires k > 0
    ensures Versions(k) != {} && Greatest(Versions(k)) == k && Versions(k) - {k} == Versions(k - 1)
  {
    assert k in Versions(k);
  }

  lemma {:induction false} Falls(k: nat, db: Db, to: nat, now: int)
    requires Ladder(k, db) && db.ledger == Some(Versions(k))
    ensures var r := Descend(db, Versions(k), to, true, now);
      r.Ok? && r.value.versions == Downward(k, to)
      && Ladder(Lower(k, to), r.value.db) && r.value.db.ledger == Some(Versions(Lower(k, to)))
      && (to >= 2 ==> HoldsSingleUse(r.value.db.rows) == HoldsSingleUse(db.rows))
    decreases k
  {
    hide Fold, TableConforms, Execute, Rollback, HoldsSingleUse;
    if k == 0 {
      assert Versions(0) == {};
    } else {
      GreatestVersion(k);
      if k > to {
        RungDown(k, db, now);
        var run := Execute(db, Rollback(k), now).value;
        var next := run.(ledger := Some(Ledger(run) - {k}));
        assert next.ledger == Some(Versions(k - 1));
        Falls(k - 1, next, to, now);
      }
    }
  }

  /** `rollback` with leave to lose data always reaches its target, undoing exactly the versions above it,
      newest first; no row of any table can stop it. A target above the height changes nothing. */
  lemma RollbackReaches(k: nat, db: Db, to: nat, now: int)
    requires Ladder(k, db) && db.ledger.Some?
    ensures var r := RolledBack(db, to, true, now);
      r.Ok? && r.value.versions == Downward(k, to) && Ladder(Lower(k, to), r.value.db)
      && r.value.db.ledger.Some?
      && (to >= 2 ==> HoldsSingleUse(r.value.db.rows) == HoldsSingleUse(db.rows))
  {
    hide Fold, Conforms, Descend, HoldsSingleUse;
    Falls(k, db, to, now);
  }

  /** Without leave it does nothing, and says which version would lose data exactly when one is above the
      target; it is also refused below zero and before the first migration. */
  lemma RollbackRefusals(k: nat, db: Db, to: int, now: int)
    requires Ladder(k, db)
    ensures var r := RolledBack(db, to, false, now);
      r == if to < 0 then Err(NegativeTarget)
           else if db.ledger.None? then Err(NoLedger)
           else if to < k then Err(DataLoss(k))
           else Ok(Outcome(db, []))
    ensures RolledBack(db, to, true, now).Err? <==> to < 0 || db.ledger.None?
  {
    hide Fold, Conforms, Execute, Rollback;
    if k > 0 { GreatestVersion(k); } else { assert Versions(0) == {}; }
    if to >= 0 && db.ledger.Some? { Falls(k, db, to, now); }
  }

  // ---------------------------------------------------------------- every run

  lemma StepKeepsLadder(k: nat, db: Db, step: Step) returns (next: nat)
    requires Ladder(k, db)
    ensures Ladder(next, Apply(db, step))
  {
    hide Fold, TableConforms, Migrated, RolledBack, HoldsSingleUse, RESERVE;
    next := k;
    match step
    case Up(now) =>
      MigrateSucceedsIff(k, db, now);
      if Migrated(db, now).Ok? { next := TOP; }
    case Down(to, accept, now) =>
      RollbackRefusals(k, db, to, now);
      if to >= 0 && db.ledger.Some? && accept {
        RollbackReaches(k, db, to, now);
        next := Lower(k, to);
      }
    case Write(rows) =>
  }

  lemma {:induction false} RunKeepsLadder(k: nat, db: Db, steps: seq<Step>) returns (last: nat)
    requires Ladder(k, db)
    ensures Ladder(last, Run(db, steps))
    decreases |steps|
  {
    hide Fold, TableConforms, Versions, Apply;
    if steps == [] {
      last := k;
    } else {
      var next := StepKeepsLadder(k, db, steps[0]);
      last := RunKeepsLadder(next, Apply(db, steps[0]), steps[1..]);
    }
  }

  lemma EmptyLadder()
    ensures EMPTY_DB.rows.Keys == EMPTY_DB.catalog.tables.Keys && Ladder(0, EMPTY_DB)
  {
  }

  /** After every sequence of migrations, rollbacks and writes, failed ones included, the ledger is {1..k} for
      some k, the structure is exactly what migrations 1 to k build, and every row satisfies it. */
  lemma LedgerAndStructureAgree(steps: seq<Step>)
    ensures EMPTY_DB.rows.Keys == EMPTY_DB.catalog.tables.Keys
    ensures exists k: nat :: Ladder(k, Run(EMPTY_DB, steps))
  {
    hide Ladder, EMPTY_DB;
    EmptyLadder();
    var k := RunKeepsLadder(0, EMPTY_DB, steps);
  }

  // ---------------------------------------------------------------- down and up again

  /** Rolling a full ladder down to any version and migrating up again restores the ledger and the whole
      structure, if and only if the target is not version 2 with a single-use token in the database. */
  lemma DownAndUpIff(db: Db, to: nat, now: int, later: int)
    requires Ladder(TOP, db)
    ensures var down := RolledBack(db, to, true, now);
      down.Ok?
      && var up := Migrated(down.value.db, later);
        (up.Ok? <==> !(to == 2 && HoldsSingleUse(db.rows)))
        && (up.Ok? ==> up.value.db.catalog == db.catalog && up.value.db.ledger == db.ledger
                       && up.value.versions == From(Lower(TOP, to) + 1))
  {
    hide Fold, Conforms, RolledBack, Migrated, HoldsSingleUse, RESERVE, Versions;
    RollbackReaches(TOP, db, to, now);
    MigrateSucceedsIff(Lower(TOP, to), RolledBack(db, to, true, now).value.db, later);
  }

  /** Rows of a full database: a client, and a token of it for one operation. */
  function OneToken(cat: Catalog): Rows {
    map t | t in cat.tables :: if t == OauthClients then map[Word("c") := ClientRow("c")]
                               else if t == OauthTokens then map[Word("c") := TokenRow("c")] else map[]
  }

  lemma OneTokenConforms(cat: Catalog)
    requires Stage(TOP, cat)
    ensures Conforms(cat, OneToken(cat)) && HoldsSingleUse(OneToken(cat))
  {
    hide Original, Closed, Wide, TablesAt, IndexesAt, Tame, Preserved, AlteredBy, Revocable, RowConforms, ClientRow,
      TokenRow;
    var rows := OneToken(cat);
    forall t | t in rows ensures TableConforms(cat.tables[t], rows[t]) {
      assert TableStage(TOP, t, cat.tables[t]);
      forall id | id in rows[t] ensures RowConforms(cat.tables[t], id, rows[t][id]) {
        assert id == Word("c");
      }
    }
    Member(OauthTokens, TOP);
    assert rows[OauthTokens] == map[Word("c") := TokenRow("c")];
    SingleUseToken("c");
    assert Word("c") in rows[OauthTokens];
  }

  lemma SingleUseToken(w: string)
    ensures At(TokenRow(w), SingleUse) == Flag(true)
  {
  }

  /** A run after which `migrate` fails: the ladder is climbed, a client is given a token for one operation, and
      the ladder is rolled back to version 2 by leave. */
  lemma RollbackStrands(now: int)
    ensures EMPTY_DB.rows.Keys == EMPTY_DB.catalog.tables.Keys
    ensures exists steps: seq<Step> :: Migrated(Run(EMPTY_DB, steps), now) == Err(Refused(RESERVE))
  {
    hide Fold, Conforms, Migrated, RolledBack, HoldsSingleUse, RESERVE, Stage, OneToken, EMPTY_DB, Versions;
    EmptyLadder();
    MigrateSucceedsIff(0, EMPTY_DB, 0);
    var full := Migrated(EMPTY_DB, 0).value.db;
    FoldStage(TOP);
    OneTokenConforms(full.catalog);
    var minted := full.(rows := OneToken(full.catalog));
    FullLedger(full);
    MintedKeys(full.catalog);
    RollbackReaches(TOP, minted, 2, 0);
    var low := RolledBack(minted, 2, true, 0).value.db;
    MigrateSucceedsIff(2, low, now);
    var steps := [Up(0), Write(OneToken(full.catalog)), Down(2, true, 0)];
    RunThree(EMPTY_DB, steps);
    assert Run(EMPTY_DB, steps) == low;
  }

  lemma FullLedger(db: Db)
    requires Ladder(TOP, db)
    ensures db.ledger.Some?
  {
    hide Fold, Conforms, Versions;
  }

  lemma MintedKeys(cat: Catalog)
    ensures OneToken(cat).Keys == cat.tables.Keys
  {
  }

  lemma RunThree(db: Db, steps: seq<Step>)
    requires db.rows.Keys == db.catalog.tables.Keys && |steps| == 3
    ensures Run(db, steps) == Apply(Apply(Apply(db, steps[0]), steps[1]), steps[2])
  {
    hide Apply;
    assert steps[1..][1..] == [steps[2]];
    assert steps[1..][0] == steps[1];
    var next := Apply(Apply(db, steps[0]), steps[1]);
    assert Run(next, [steps[2]]) == Apply(next, steps[2]);
  }

  // ---------------------------------------------------------------- what the last migration revokes

  /** After migration 11 no window is live and none is bound to a client, and a receipt that a window decided is
      spent, declined or revoked; everything else of an approval is as it was. */
  lemma ReplacementRevokes(db: Db, now: int)
    requires Ladder(10, db)
    ensures var r := Execute(db, Migration(11), now);
      r.Ok? && Approvals in db.rows && ApprovalWindows in r.value.rows && Approvals in r.value.rows
      && (forall id <- r.value.rows[ApprovalWindows] ::
            var row := r.value.rows[ApprovalWindows][id];
            At(row, RevokedAt) != Null && At(row, ClientBound) == Flag(false))
      && r.value.rows[Approvals].Keys == db.rows[Approvals].Keys
      && forall id <- db.rows[Approvals] ::
           var was, row := db.rows[Approvals][id], r.value.rows[Approvals][id];
           if At(was, DecidedByWindow) != Null && Spendable(was) then
             !Spendable(row) && At(row, DecidedByWindow) == At(was, DecidedByWindow)
           else row == was
  {
    hide Fold, TableConforms, Migration, Execute;
    ReplacingRuns(db, now);
  }

  /** What the last rollback makes of one approval. */
  ghost predicate Unbound(rows: Rows, was: Row, row: Row) {
    if IsClientWindow(rows, At(was, DecidedByWindow)) then
      At(row, DecidedByWindow) == Null && !Spendable(row) && At(row, Status) == At(was, Status)
    else forall c: Column :: At(row, c) == At(was, c)
  }

  /** After its rollback an approval that a client's window decided names no window and can no longer be spent,
      and every other approval is as it was. */
  lemma RollbackRevokes(db: Db, now: int)
    requires Ladder(11, db)
    ensures var r := Execute(db, Rollback(11), now);
      r.Ok? && Approvals in db.rows && Approvals in r.value.rows
      && r.value.rows[Approvals].Keys == db.rows[Approvals].Keys
      && forall id <- db.rows[Approvals] :: Unbound(db.rows, db.rows[Approvals][id], r.value.rows[Approvals][id])
  {
    hide Fold, TableConforms, Rollback, Execute, UnboundRows, Unbound, Versions, NamesWindow, Tame;
    UnboundApprovals(db, now);
    NamedAt11(db.catalog);
    ReceiptsUnbound(db.catalog, db.rows, now);
  }

  lemma UnboundApprovals(db: Db, now: int)
    requires Ladder(11, db)
    ensures Approvals in db.rows && ApprovalWindows in db.rows
    ensures var r := Execute(db, Rollback(11), now);
      r.Ok? && Approvals in r.value.rows
      && r.value.rows[Approvals] == UnboundRows(db.catalog, db.rows, now)[Approvals]
  {
    hide Fold, TableConforms, Rollback, Execute, Unflagged, UnboundRows, Versions;
    UnbindingRuns(db, now);
  }

  lemma ReceiptsUnbound(cat: Catalog, rows: Rows, now: int)
    requires rows.Keys == cat.tables.Keys && ApprovalWindows in rows && Approvals in rows
    requires NamesWindow(cat.tables[Approvals]) && Tame(cat.tables[Approvals])
    ensures UnboundRows(cat, rows, now)[Approvals].Keys == rows[Approvals].Keys
    ensures forall id <- rows[Approvals] ::
      Unbound(rows, rows[Approvals][id], UnboundRows(cat, rows, now)[Approvals][id])
  {
    hide UnboundRows, Unbound, NamesWindow, Tame;
    SameReceipts(cat, rows, now);
    forall id | id in rows[Approvals]
      ensures Unbound(rows, rows[Approvals][id], UnboundRows(cat, rows, now)[Approvals][id])
    {
      ReceiptUnbound(cat, rows, id, now);
    }
  }

  lemma NamedAt11(cat: Catalog)
    requires cat == Fold(11)
    ensures Approvals in cat.tables && NamesWindow(cat.tables[Approvals]) && Tame(cat.tables[Approvals])
  {
    hide Fold, Original, Closed, Wide, TablesAt, IndexesAt, AlteredBy, Preserved, Tame, Admits, Revocable, NamesWindow;
    FoldStage(11);
    Member(Approvals, 11);
    assert TableStage(11, Approvals, cat.tables[Approvals]);
  }

  lemma SameReceipts(cat: Catalog, rows: Rows, now: int)
    requires rows.Keys == cat.tables.Keys && ApprovalWindows in rows && Approvals in rows
    ensures UnboundRows(cat, rows, now)[Approvals].Keys == rows[Approvals].Keys
  {
    hide RevokedRow, ReleasedRow, Selected;
  }

  /** The approval after the revocation, and the windows that are deleted. */
  function AfterRevocation(rows: Rows, was: Row, now: int): Row {
    if Selected(ClientDecided, rows, was) then RevokedRow(was, now, ROLLED_BACK) else was
  }

  function ClientWindows(rows: Rows): set<Cell>
    requires ApprovalWindows in rows
  {
    set id | id in rows[ApprovalWindows] && IsClientWindow(rows, id)
  }

  lemma ReceiptIs(cat: Catalog, rows: Rows, id: Cell, now: int)
    requires rows.Keys == cat.tables.Keys && ApprovalWindows in rows && Approvals in rows && id in rows[Approvals]
    requires id in UnboundRows(cat, rows, now)[Approvals]
    ensures UnboundRows(cat, rows, now)[Approvals][id]
      == ReleasedRow(cat.tables[Approvals], AfterRevocation(rows, rows[Approvals][id], now), ApprovalWindows,
                     ClientWindows(rows))
  {
    hide RevokedRow, ReleasedRow;
    var one := rows[Approvals := RevokedRows(rows, Approvals, ClientDecided, now, ROLLED_BACK)];
    assert one[ApprovalWindows] == rows[ApprovalWindows];
    assert one[ApprovalWindows].Keys - Kept(one, ApprovalWindows, BoundToClient).Keys == ClientWindows(rows);
  }

  lemma ReceiptUnbound(cat: Catalog, rows: Rows, id: Cell, now: int)
    requires rows.Keys == cat.tables.Keys && ApprovalWindows in rows && Approvals in rows && id in rows[Approvals]
    requires NamesWindow(cat.tables[Approvals]) && Tame(cat.tables[Approvals])
    requires id in UnboundRows(cat, rows, now)[Approvals]
    ensures Unbound(rows, rows[Approvals][id], UnboundRows(cat, rows, now)[Approvals][id])
  {
    hide UnboundRows, ReleasedRow, NamesWindow, Tame, Unbound, AfterRevocation, ClientWindows, ReleasedCell;
    var was, row := rows[Approvals][id], UnboundRows(cat, rows, now)[Approvals][id];
    ReceiptIs(cat, rows, id, now);
    ReleasedCells(cat.tables[Approvals], AfterRevocation(rows, was, now), ClientWindows(rows));
    RowUnbound(rows, was, row, now);
  }

  lemma RowUnbound(rows: Rows, was: Row, row: Row, now: int)
    requires ApprovalWindows in rows
    requires forall c: Column :: At(row, c) == ReleasedCell(AfterRevocation(rows, was, now), c, ClientWindows(rows))
    ensures Unbound(rows, was, row)
  {
    hide Spendable, AfterRevocation, IsClientWindow;
    var mid := AfterRevocation(rows, was, now);
    AfterRevocationIs(rows, was, now);
    assert At(row, RevokedAt) == At(mid, RevokedAt) && At(row, Status) == At(mid, Status);
    SameSpendable(mid, row);
    assert IsClientWindow(rows, At(was, DecidedByWindow)) ==> At(was, DecidedByWindow) in ClientWindows(rows) by {
      WindowIsThere(rows, At(was, DecidedByWindow));
    }
  }

  lemma WindowIsThere(rows: Rows, id: Cell)
    requires ApprovalWindows in rows
    ensures IsClientWindow(rows, id) ==> id in ClientWindows(rows)
  {
  }

  lemma AfterRevocationIs(rows: Rows, was: Row, now: int)
    ensures var mid := AfterRevocation(rows, was, now);
      if IsClientWindow(rows, At(was, DecidedByWindow)) then
        At(mid, DecidedByWindow) == At(was, DecidedByWindow) && At(mid, Status) == At(was, Status) && !Spendable(mid)
      else mid == was
  {
    hide Spendable, IsClientWindow;
    NotSpendable(was, now);
  }

  lemma NotSpendable(was: Row, now: int)
    ensures !Spendable(RevokedRow(was, now, ROLLED_BACK))
  {
  }

  lemma SameSpendable(a: Row, b: Row)
    requires At(a, RevokedAt) == At(b, RevokedAt) && At(a, Status) == At(b, Status)
    ensures Spendable(a) == Spendable(b)
  {
  }

  lemma ReleasedCells(table: Table, row: Row, ids: set<Cell>)
    requires NamesWindow(table) && Tame(table)
    ensures forall c: Column :: At(ReleasedRow(table, row, ApprovalWindows, ids), c) == ReleasedCell(row, c, ids)
  {
  }

  function ReleasedCell(row: Row, c: Column, ids: set<Cell>): Cell {
    if c == DecidedByWindow && c in row && row[c] in ids then Null else At(row, c)
  }
}
