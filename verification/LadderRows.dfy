/** What the rows of a database can stop on the ladder: of the eleven migrations only the third, and none of
    the rollbacks. */
module LadderRows {
  import opened LadderModel
  import opened LadderStages
  import opened SchemaModel
  import opened SchemaTheorems
  import opened Wrappers

  lemma EmptyStage()
    ensures Stage(0, EMPTY_CATALOG)
  {
    assert forall t: TableName :: TableVersion(t) > 0;
    assert forall i: IndexName :: IndexVersion(i) > 0;
    assert TablesAt(0) == {} && IndexesAt(0) == {};
  }

  lemma StepsUp(k: nat, cat: Catalog)
    requires 1 <= k <= TOP && Stage(k - 1, cat)
    ensures StepsTo(k, cat)
  {
    hide Stage, StepsTo;
    match k
    case 1 => Step1(cat);
    case 2 => Step2(cat);
    case 3 => Step3(cat);
    case 4 => Step4(cat);
    case 5 => Step5(cat);
    case 6 => Step6(cat);
    case 7 => Step7(cat);
    case 8 => Step8(cat);
    case 9 => Step9(cat);
    case 10 => Step10(cat);
    case 11 => Step11(cat);
  }

  lemma {:induction false} FoldStage(k: nat)
    requires k <= TOP
    ensures Stage(k, Fold(k))
  {
    hide Stage, Migration, Rollback, AllLegal, Effects;
    if k == 0 {
      EmptyStage();
    } else {
      FoldStage(k - 1);
      StepsUp(k, Fold(k - 1));
    }
  }

  /** Each migration is legal on the structure of the ones before it, and its rollback is legal on what it
      builds and restores that structure: the same tables, columns, types, defaults, checks and indexes. */
  lemma RollbackIsInverse(k: nat)
    requires 1 <= k <= TOP
    ensures AllLegal(Fold(k - 1), Migration(k)) && Effects(Fold(k - 1), Migration(k)) == Fold(k)
    ensures AllLegal(Fold(k), Rollback(k)) && Effects(Fold(k), Rollback(k)) == Fold(k - 1)
  {
    hide Stage, Migration, Rollback, AllLegal, Effects;
    FoldStage(k - 1);
    StepsUp(k, Fold(k - 1));
  }

  // ---------------------------------------------------------------- migrations that no row can stop

  lemma NoneYet(k: nat, cat: Catalog)
    requires k > 0 && Stage(k - 1, cat)
    ensures cat.tables.Keys !! NewIn(k)
  {
    Names(k);
    hide TablesAt, IndexesAt, NewIn, IndexedIn, Closed, Wide, TableStage;
  }

  /** A new table is empty, so nothing can stop its indexes. */
  lemma CreatedRuns(k: nat, db: Db, now: int)
    requires k in {1, 2, 6, 7, 9} && db.catalog == Fold(k - 1) && Conforms(db.catalog, db.rows)
    ensures var r := Execute(db, Migration(k), now);
      r.Ok? && forall t <- r.value.rows | t in NewIn(k) :: r.value.rows[t] == map[]
  {
    hide Migration, Fold, Execute, AllLegal, Effects, NewIn, CreatesIn, TableConforms, Stage;
    RollbackIsInverse(k);
    FoldStage(k - 1);
    NoneYet(k, db.catalog);
    CreatesOnly(k);
    CreationsRun(db, Migration(k), NewIn(k), now);
  }

  lemma CreatesOnly(k: nat)
    requires k in {1, 2, 6, 7, 9}
    ensures forall s <- Migration(k) :: CreatesIn(s, NewIn(k))
  {
    hide Migration1, Migration2, Migration6, Migration7, Migration9, CreatesIn, NewIn;
    forall s | s in Migration(k) ensures CreatesIn(s, NewIn(k)) {
      var i: nat :| i < |Migration(k)| && Migration(k)[i] == s;
      match k
      case 1 => Columns1(i);
      case 2 => Columns2(i);
      case 6 => Columns6(i);
      case 7 => Columns7(i);
      case 9 => Columns9(i);
    }
  }

  lemma Always4(i: nat, now: int)
    requires i < |Migration4()|
    ensures Always(Migration4()[i], now)
  {
  }

  lemma Always8(i: nat, now: int)
    requires i < |Migration8()|
    ensures Always(Migration8()[i], now)
  {
  }

  lemma Always10(i: nat, now: int)
    requires i < |Migration10()|
    ensures Always(Migration10()[i], now)
  {
  }

  lemma OthersRun(k: nat, db: Db, now: int)
    requires k in {4, 8, 10} && db.catalog == Fold(k - 1) && Conforms(db.catalog, db.rows)
    ensures Execute(db, Migration(k), now).Ok?
  {
    hide Migration4, Migration8, Migration10, Fold, Execute, AllLegal, Always, TableConforms;
    RollbackIsInverse(k);
    forall s | s in Migration(k) ensures Always(s, now) {
      var i: nat :| i < |Migration(k)| && Migration(k)[i] == s;
      match k
      case 4 => Always4(i, now);
      case 8 => Always8(i, now);
      case 10 => Always10(i, now);
    }
    AlwaysRuns(db, Migration(k), now);
  }

  lemma FirstEpoch(table: Table)
    requires table == Original(Metadata)
    ensures RowConforms(table, EPOCH_KEY, map[ValueText := Word("0")])
  {
    hide Passes, Fits;
    assert Fits(Text, Word("0")) by { WordFits("0"); }
    assert EPOCH_KEY != Null;
    hide EPOCH_KEY;
    MetadataColumns();
    hide MetadataTable;
  }

  lemma WordFits(w: string)
    ensures Fits(Text, Word(w))
  {
  }

  lemma MetadataColumns()
    ensures var t := MetadataTable();
      t.columns.Keys == {Key, ValueText} && t.checks == {} && t.key == Key && t.columns[ValueText] == Needed(Text)
  {
  }

  lemma Always5(i: nat, now: int)
    requires i < |Migration5()|
    ensures i > 0 ==> Always(Migration5()[i], now)
    ensures Migration5()[0] == InsertIfAbsent(Metadata, EPOCH_KEY, map[ValueText := Word("0")])
  {
  }

  /** A script whose first statement is let through and whose others no row can stop. */
  lemma RestRuns(db: Db, m: seq<Statement>, now: int)
    requires db.rows.Keys == db.catalog.tables.Keys && AllLegal(db.catalog, m)
    requires m != [] && RowsAdmit(db.catalog, db.rows, m[0], now)
    requires forall i | 1 <= i < |m| :: Always(m[i], now)
    ensures Execute(db, m, now).Ok?
  {
    hide Always, RowsAdmit;
    forall s | s in m[1..] ensures Always(s, now) {
      var i: nat :| i < |m[1..]| && m[1..][i] == s;
      assert s == m[i + 1];
    }
    AlwaysRuns(Exec(db, m[0], now).value, m[1..], now);
  }

  lemma FirstAdmitted(db: Db, s: Statement, now: int)
    requires db.catalog == Fold(4) && Conforms(db.catalog, db.rows) && Legal(db.catalog, s)
    requires s == InsertIfAbsent(Metadata, EPOCH_KEY, map[ValueText := Word("0")])
    ensures RowsAdmit(db.catalog, db.rows, s, now)
  {
    hide Fold, TableConforms, Stage, AlteredBy, RowConforms, Original, EPOCH_KEY;
    FoldStage(4);
    Unaltered(4);
    OriginalAt(4, db.catalog, Metadata);
    FirstEpoch(db.catalog.tables[Metadata]);
  }

  lemma EpochRuns(db: Db, now: int)
    requires db.catalog == Fold(4) && Conforms(db.catalog, db.rows)
    ensures Execute(db, Migration(5), now).Ok?
  {
    hide Fold, Execute, Migration5, Always, TableConforms, Effects, Legal, RowsAdmit, EPOCH_KEY;
    RollbackIsInverse(5);
    var m := Migration(5);
    assert m != [] by { NotEmpty5(); }
    Always5(0, now);
    forall i | 1 <= i < |m| ensures Always(m[i], now) { Always5(i, now); }
    FirstAdmitted(db, m[0], now);
    RestRuns(db, m, now);
  }

  lemma NotEmpty5()
    ensures Migration5() != []
  {
  }

  // ---------------------------------------------------------------- the one that rows can stop

  /** These columns are null in every row, and the others as they were. */
  predicate Nulled(was: map<Cell, Row>, now: map<Cell, Row>, cs: set<Column>) {
    && now.Keys == was.Keys
    && forall id <- was, c: Column :: At(now[id], c) == if c in cs then Null else At(was[id], c)
  }

  lemma NullAdded(db: Db, t: TableName, c: Column, was: map<Cell, Row>, cs: set<Column>, now: int)
    requires db.rows.Keys == db.catalog.tables.Keys && t in db.rows && Nulled(was, db.rows[t], cs)
    requires Legal(db.catalog, AlterTable(t, AddColumn(c, Optional(Text), None)))
    ensures var r := Exec(db, AlterTable(t, AddColumn(c, Optional(Text), None)), now);
      r.Ok? && r.value.catalog == Effect(db.catalog, AlterTable(t, AddColumn(c, Optional(Text), None)))
      && t in r.value.rows && Nulled(was, r.value.rows[t], cs + {c})
  {
    hide Legal, Effect;
  }

  /** One column of migration 3: the script goes on, with one more column of nulls. */
  lemma Adding(db: Db, m: seq<Statement>, i: nat, c: Column, was: map<Cell, Row>, cs: set<Column>, now: int)
    returns (next: Db)
    requires i < |m| && m[i] == AlterTable(OauthTokens, AddColumn(c, Optional(Text), None))
    requires db.rows.Keys == db.catalog.tables.Keys && AllLegal(db.catalog, m[i..])
    requires OauthTokens in db.rows && Nulled(was, db.rows[OauthTokens], cs)
    ensures next.rows.Keys == next.catalog.tables.Keys && AllLegal(next.catalog, m[i + 1..])
    ensures OauthTokens in next.rows && Nulled(was, next.rows[OauthTokens], cs + {c})
    ensures Execute(db, m[i..], now) == Execute(next, m[i + 1..], now)
  {
    hide AllLegal, Legal, Effect, Execute, Exec, Nulled;
    Following(db.catalog, m, i);
    NullAdded(db, OauthTokens, c, was, cs, now);
    Next(db, m, i, now);
    next := Exec(db, m[i], now).value;
  }

  /** Some token is single use. */
  ghost predicate HoldsSingleUse(rows: Rows) {
    OauthTokens in rows && exists id <- rows[OauthTokens] :: At(rows[OauthTokens][id], SingleUse) == Flag(true)
  }

  const ADDED: set<Column> := {OperationId, RequestDigest, ActorClientId, BrokerClientId}

  lemma FourAdded(db: Db, m: seq<Statement>, now: int) returns (next: Db)
    requires Lines3(m) && db.rows.Keys == db.catalog.tables.Keys && AllLegal(db.catalog, m)
    requires OauthTokens in db.rows
    ensures next.rows.Keys == next.catalog.tables.Keys && AllLegal(next.catalog, m[4..])
    ensures OauthTokens in next.rows && Nulled(db.rows[OauthTokens], next.rows[OauthTokens], ADDED)
    ensures Execute(db, m, now) == Execute(next, m[4..], now)
  {
    hide Execute, AllLegal, Nulled;
    var was := db.rows[OauthTokens];
    assert m[0..] == m;
    NothingNulled(was);
    var d1 := Adding(db, m, 0, OperationId, was, {}, now);
    var d2 := Adding(d1, m, 1, RequestDigest, was, {} + {OperationId}, now);
    var d3 := Adding(d2, m, 2, ActorClientId, was, {} + {OperationId} + {RequestDigest}, now);
    next := Adding(d3, m, 3, BrokerClientId, was, {} + {OperationId} + {RequestDigest} + {ActorClientId}, now);
    assert {} + {OperationId} + {RequestDigest} + {ActorClientId} + {BrokerClientId} == ADDED;
  }

  /** The two checks of migration 3, on rows whose new columns are null: the first holds, and the second
      holds of the rows that are not single use. */
  lemma BindAdmitted(db: Db, was: map<Cell, Row>, now: int)
    requires db.rows.Keys == db.catalog.tables.Keys && Legal(db.catalog, BIND)
    requires OauthTokens in db.rows && Nulled(was, db.rows[OauthTokens], ADDED)
    ensures Exec(db, BIND, now) == Ok(db.(catalog := Effect(db.catalog, BIND)))
  {
    hide Legal, Effect;
    var rows := db.rows[OauthTokens];
    assert forall id <- rows :: At(rows[id], OperationId) == Null && At(rows[id], RequestDigest) == Null;
  }

  lemma ReserveAdmittedIff(db: Db, was: map<Cell, Row>, now: int)
    requires db.rows.Keys == db.catalog.tables.Keys && Legal(db.catalog, RESERVE)
    requires OauthTokens in db.rows && Nulled(was, db.rows[OauthTokens], ADDED)
    ensures Exec(db, RESERVE, now)
      == if exists id <- was :: At(was[id], SingleUse) == Flag(true) then Err(Refused(RESERVE))
         else Ok(db.(catalog := Effect(db.catalog, RESERVE)))
  {
    hide Legal, Effect;
    var rows := db.rows[OauthTokens];
    forall id | id in rows
      ensures Passes(TokenSingleUseIsBound, id, rows[id]) <==> At(was[id], SingleUse) != Flag(true)
    {
      assert OperationId in ADDED && SingleUse !in ADDED;
      assert At(rows[id], OperationId) == Null && At(rows[id], SingleUse) == At(was[id], SingleUse);
    }
  }

  lemma Checking(db: Db, m: seq<Statement>, was: map<Cell, Row>, now: int)
    requires |m| == 6 && m[4] == BIND && m[5] == RESERVE
    requires db.rows.Keys == db.catalog.tables.Keys && AllLegal(db.catalog, m[4..])
    requires OauthTokens in db.rows && Nulled(was, db.rows[OauthTokens], ADDED)
    ensures var r := Execute(db, m[4..], now);
      if exists id <- was :: At(was[id], SingleUse) == Flag(true) then r == Err(Refused(RESERVE)) else r.Ok?
  {
    hide Legal, Effect, Exec, Nulled, AllLegal;
    Following(db.catalog, m, 4);
    Next(db, m, 4, now);
    BindAdmitted(db, was, now);
    var mid := Exec(db, BIND, now).value;
    Following(mid.catalog, m, 5);
    Next(mid, m, 5, now);
    ReserveAdmittedIff(mid, was, now);
    assert m[6..] == [];
  }

  lemma TokensAt2(db: Db)
    requires db.catalog == Fold(2) && Conforms(db.catalog, db.rows)
    ensures OauthTokens in db.rows
  {
    hide Fold, TableConforms, Stage, Original;
    FoldStage(2);
    Unaltered(2);
    OriginalAt(2, db.catalog, OauthTokens);
  }

  /** Migration 3 goes through if and only if no token is single use: the column that would say what such a
      token is for is new, and null in every row. */
  lemma BindingRunsIff(db: Db, now: int)
    requires db.catalog == Fold(2) && Conforms(db.catalog, db.rows)
    ensures Execute(db, Migration(3), now).Ok? <==> !HoldsSingleUse(db.rows)
    ensures Execute(db, Migration(3), now).Err? ==> Execute(db, Migration(3), now).error == Refused(RESERVE)
  {
    hide Fold, Execute, Migration3, TableConforms, AllLegal, Effects, Rollback3, Binding, Original, RESERVE, BIND;
    RollbackIsInverse(3);
    Read3();
    TokensAt2(db);
    BindingRuns(db, Migration(3), now);
  }

  lemma BindingRuns(db: Db, m: seq<Statement>, now: int)
    requires db.rows.Keys == db.catalog.tables.Keys && Lines3(m) && AllLegal(db.catalog, m) && OauthTokens in db.rows
    ensures var r := Execute(db, m, now);
      (r.Ok? <==> !HoldsSingleUse(db.rows)) && (r.Err? ==> r.error == Refused(RESERVE))
  {
    hide Execute, AllLegal, Nulled;
    var d := FourAdded(db, m, now);
    Checking(d, m, db.rows[OauthTokens], now);
  }

  lemma NothingNulled(was: map<Cell, Row>)
    ensures Nulled(was, was, {})
  {
  }

  // ---------------------------------------------------------------- the last migration and its rollback

  /** A window of migration 10: what a grant-bound window must say is said, and its count is an integer. */
  predicate GrantWindow(row: Row) {
    (forall c <- BOUNDS :: At(row, c) != Null) && Fits(Int, At(row, Consumed))
  }

  lemma ConformingWindow(t: Table, id: Cell, row: Row)
    requires RowConforms(t, id, row) && Limited(t) && t.key !in LIMITS
    ensures GrantWindow(row)
  {
    hide Passes, Fits;
    forall c | c in BOUNDS ensures At(row, c) != Null {
      assert c in LIMITS;
      assert CellConforms(t.columns[c], At(row, c));
    }
    assert CellConforms(t.columns[Consumed], At(row, Consumed));
  }

  lemma ApprovalsRevocable(k: nat, cat: Catalog)
    requires k >= 10 && Stage(k, cat)
    ensures ApprovalWindows in cat.tables && Approvals in cat.tables && Wide(cat)
    ensures Revocable(cat.tables[Approvals]) && Revocable(cat.tables[ApprovalWindows])
  {
    hide ApprovalsTable, ApprovalWindowsTable, Revocable, Closed, Wide, TablesAt, IndexesAt, Tame, Preserved, AlteredBy;
    Member(ApprovalWindows, k);
    Member(Approvals, k);
    WindowTraits();
    ReceiptsRevocable();
    assert TableStage(k, Approvals, cat.tables[Approvals]);
    assert TableStage(k, ApprovalWindows, cat.tables[ApprovalWindows]);
  }

  lemma ReceiptsRevocable()
    ensures Revocable(ApprovalsTable())
  {
  }

  /** The rows that migration 11 leaves: every window off, every receipt that a window decided and that could
      still be spent revoked, and every window bound to its grant. */
  function ReplacedRows(rows: Rows, now: int): Rows
    requires ApprovalWindows in rows && Approvals in rows
  {
    var off := rows[ApprovalWindows := RevokedRows(rows, ApprovalWindows, Live, now, REPLACED)];
    off[Approvals := RevokedRows(off, Approvals, WindowDecided, now, REPLACED)]
  }

  function Flagged(rows: map<Cell, Row>): map<Cell, Row> {
    map id | id in rows :: rows[id][ClientBound := Flag(false)]
  }

  lemma Revoking(db: Db, now: int)
    requires db.catalog == Fold(10) && Conforms(db.catalog, db.rows)
    ensures Approvals in db.rows && ApprovalWindows in db.rows
    ensures var windows := RevokedRows(db.rows, ApprovalWindows, Live, now, REPLACED);
      var off := db.(rows := db.rows[ApprovalWindows := windows]);
      Exec(db, REPLACE_WINDOWS, now) == Ok(off) && off.rows.Keys == off.catalog.tables.Keys
      && Exec(off, REPLACE_RECEIPTS, now) == Ok(db.(rows := ReplacedRows(db.rows, now)))
    ensures Conforms(db.catalog, ReplacedRows(db.rows, now))
  {
    hide Fold, TableConforms, Stage, Wide, Closed, Legal, Revocable, RevokedRows, Exec;
    FoldStage(10);
    ApprovalsRevocable(10, db.catalog);
    DataLegal(db.catalog);
    At10(db.catalog);
    RevokeRuns(db, ApprovalWindows, Live, REPLACED, now);
    ExecConforms(db, REPLACE_WINDOWS, now);
    var off := Exec(db, REPLACE_WINDOWS, now).value;
    RevokeRuns(off, Approvals, WindowDecided, REPLACED, now);
    ExecConforms(off, REPLACE_RECEIPTS, now);
  }

  lemma FlaggedWindow(id: Cell, row: Row)
    requires GrantWindow(row)
    ensures var f := row[ClientBound := Flag(false)];
      Passes(WindowScopeShape, id, f) && Fits(Bigint, At(f, Consumed)) && !Covers(ClientBoundLive, f)
  {
    var f := row[ClientBound := Flag(false)];
    assert ClientBound !in BOUNDS && Consumed != ClientBound;
    assert forall c <- BOUNDS :: At(f, c) == At(row, c);
  }

  /** No row stands in the way of what migration 11 asks of the windows. */
  lemma FlaggedQuiet(rows: Rows, was: map<Cell, Row>, m: seq<Statement>, i: nat)
    requires Lines11(m) && 3 <= i < 10
    requires ApprovalWindows in rows && rows[ApprovalWindows] == Flagged(was)
    requires forall id <- was :: GrantWindow(was[id])
    ensures Quiet(rows, m[i])
  {
    hide Passes, Fits, Covers, GrantWindow;
    forall id | id in was
      ensures Passes(WindowScopeShape, id, rows[ApprovalWindows][id])
        && Fits(Bigint, At(rows[ApprovalWindows][id], Consumed)) && !Covers(ClientBoundLive, rows[ApprovalWindows][id])
    {
      FlaggedWindow(id, was[id]);
    }
  }

  const ADD_FLAG := AlterTable(ApprovalWindows, AddColumn(ClientBound, Defaulted(Boolean, False), None))

  lemma Flagging(db: Db, now: int)
    requires db.rows.Keys == db.catalog.tables.Keys && Legal(db.catalog, ADD_FLAG)
    ensures ApprovalWindows in db.rows
    ensures Exec(db, ADD_FLAG, now)
      == Ok(db.(catalog := Effect(db.catalog, ADD_FLAG),
                rows := db.rows[ApprovalWindows := Flagged(db.rows[ApprovalWindows])]))
  {
    hide Effect, LegalAction;
  }

  lemma GrantWindows(db: Db)
    requires db.catalog == Fold(10) && Conforms(db.catalog, db.rows)
    ensures ApprovalWindows in db.rows
    ensures forall id <- db.rows[ApprovalWindows] :: GrantWindow(db.rows[ApprovalWindows][id])
  {
    hide Fold, Stage, RowConforms, GrantWindow, ApprovalWindowsTable, Limited, Closed, Wide;
    FoldStage(10);
    At10(db.catalog);
    WindowTraits();
    WindowColumns();
    assert TableConforms(db.catalog.tables[ApprovalWindows], db.rows[ApprovalWindows]);
    forall id | id in db.rows[ApprovalWindows] ensures GrantWindow(db.rows[ApprovalWindows][id]) {
      ConformingWindow(ApprovalWindowsTable(), id, db.rows[ApprovalWindows][id]);
    }
  }

  /** After its two revocations, migration 11 goes through on the rows they leave. */
  lemma Loosens(db: Db, m: seq<Statement>, now: int)
    requires Lines11(m) && db.catalog == Fold(10) && Conforms(db.catalog, db.rows) && AllLegal(db.catalog, m[2..])
    ensures ApprovalWindows in db.rows
    ensures Execute(db, m[2..], now)
      == Ok(db.(catalog := Effects(db.catalog, m[2..]),
                rows := db.rows[ApprovalWindows := Flagged(db.rows[ApprovalWindows])]))
  {
    hide Fold, Stage, TableConforms, AllLegal, Effects, Execute, Exec, Legal, Effect, Flagged, Quiet, GrantWindow;
    Following(db.catalog, m, 2);
    Next(db, m, 2, now);
    Flagging(db, now);
    GrantWindows(db);
    var next := Exec(db, m[2], now).value;
    forall s | s in m[3..] ensures Quiet(next.rows, s) {
      var i: nat :| i < |m[3..]| && m[3..][i] == s;
      FlaggedQuiet(next.rows, db.rows[ApprovalWindows], m, i + 3);
    }
    QuietRuns(next, m[3..], now);
  }

  lemma ReplacingRuns(db: Db, now: int)
    requires db.catalog == Fold(10) && Conforms(db.catalog, db.rows)
    ensures Approvals in db.rows && ApprovalWindows in db.rows
    ensures var rows := ReplacedRows(db.rows, now);
      Execute(db, Migration(11), now)
      == Ok(db.(catalog := Fold(11), rows := rows[ApprovalWindows := Flagged(rows[ApprovalWindows])]))
  {
    hide Fold, Stage, AllLegal, Effects, Execute, Exec, Legal, Effect, Flagged, Migration11, Rollback11, RevokedRows,
      Lines11, Conforms, ReplacedRows;
    RollbackIsInverse(11);
    FirstTwo();
    var m := Migration(11);
    Finished(db.catalog, m);
    TwoRevocations(db, m, now);
    Loosens(db.(rows := ReplacedRows(db.rows, now)), m, now);
  }

  /** The data statements at the head of migration 11. */
  lemma TwoRevocations(db: Db, m: seq<Statement>, now: int)
    requires db.catalog == Fold(10) && Conforms(db.catalog, db.rows) && AllLegal(db.catalog, m)
    requires |m| == 10 && m[0] == REPLACE_WINDOWS && m[1] == REPLACE_RECEIPTS
    ensures Approvals in db.rows && ApprovalWindows in db.rows
    ensures var rows := ReplacedRows(db.rows, now);
      Conforms(db.catalog, rows) && AllLegal(db.catalog, m[2..]) && Effects(db.catalog, m) == Effects(db.catalog, m[2..])
      && Execute(db, m, now) == Execute(db.(rows := rows), m[2..], now)
  {
    hide Fold, Stage, AllLegal, Effects, Execute, Exec, Legal, Effect, RevokedRows, ReplacedRows, TableConforms;
    Revoking(db, now);
    Unmoved(db.catalog);
    Finished(db.catalog, m);
    Following(db.catalog, m, 0);
    Next(db, m, 0, now);
    var off := Exec(db, m[0], now).value;
    Following(off.catalog, m, 1);
    Next(off, m, 1, now);
  }

  lemma FirstTwo()
    ensures var m := Migration11(); Lines11(m) && |m| == 10 && m[0] == REPLACE_WINDOWS && m[1] == REPLACE_RECEIPTS
  {
    Read11();
    hide Migration11;
  }

  lemma Unmoved(cat: Catalog)
    ensures Effect(cat, REPLACE_WINDOWS) == cat && Effect(cat, REPLACE_RECEIPTS) == cat
  {
  }

  lemma NoCheckOnDecider(k: Check)
    ensures DecidedByWindow !in Mentions(k)
  {
  }

  lemma ReleasedConforms(t: Table, id: Cell, row: Row, ids: set<Cell>)
    requires RowConforms(t, id, row) && Tame(t)
    ensures RowConforms(t, id, ReleasedRow(t, row, ApprovalWindows, ids))
  {
    hide Passes, Mentions;
    var now := ReleasedRow(t, row, ApprovalWindows, ids);
    forall c | c in t.columns && c != t.key ensures CellConforms(t.columns[c], At(now, c)) {
      assert CellConforms(t.columns[c], At(row, c));
      if At(now, c) != At(row, c) { assert c == DecidedByWindow && At(now, c) == Null; }
    }
    forall k | k in t.checks ensures Passes(k, id, now) {
      NoCheckOnDecider(k);
      CheckDependsOnItsColumns(k, id, row, now);
    }
  }

  const DROP_CLIENT_WINDOWS := Delete(ApprovalWindows, BoundToClient)
  const REVOKE_CLIENT_RECEIPTS := Revoke(Approvals, ClientDecided, ROLLED_BACK)

  /** Deleting windows is never refused: the approvals they decided let them go. */
  lemma DeleteRuns(db: Db, now: int)
    requires db.catalog == Fold(11) && Conforms(db.catalog, db.rows) && Legal(db.catalog, DROP_CLIENT_WINDOWS)
    ensures Exec(db, DROP_CLIENT_WINDOWS, now)
      == Ok(db.(rows := RowsAfter(db.catalog, db.rows, DROP_CLIENT_WINDOWS, now)))
  {
    hide Fold, RowConforms, Closed, Wide, TablesAt, IndexesAt, AlteredBy, Preserved, Tame, Revocable, ReleasedRow,
      Selected, Legal;
    FoldStage(11);
    ApprovalsRevocable(11, db.catalog);
    var after := RowsAfter(db.catalog, db.rows, DROP_CLIENT_WINDOWS, now);
    forall u | u in after ensures TableConforms(db.catalog.tables[u], after[u]) {
      assert TableConforms(db.catalog.tables[u], db.rows[u]);
      assert TableStage(11, u, db.catalog.tables[u]);
      if u != ApprovalWindows {
        var ids := db.rows[ApprovalWindows].Keys - Kept(db.rows, ApprovalWindows, BoundToClient).Keys;
        forall id | id in after[u] ensures RowConforms(db.catalog.tables[u], id, after[u][id]) {
          ReleasedConforms(db.catalog.tables[u], id, db.rows[u][id], ids);
        }
      }
    }
  }

  lemma ShapedColumns()
    ensures var t := ShapedWindows();
      t.key == Id && {ClientBound, Consumed, MaxConsumptions} <= t.columns.Keys
      && t.columns[ClientBound] == Defaulted(Boolean, False)
      && t.columns[Consumed] == Defaulted(Bigint, Zero) && t.columns[MaxConsumptions].kind == Int
      && WindowScopeShape in t.checks && WindowConsumedWithinItsBound in t.checks
  {
    hide ApprovalWindowsTable, Loosened;
    WindowTraits();
    WindowColumns();
    LoosenedOutline(ApprovalWindowsTable());
    WindowCounts();
    LoosenedCounts(ApprovalWindowsTable());
  }

  lemma WindowCounts()
    ensures var t := ApprovalWindowsTable();
      {Consumed, MaxConsumptions} <= t.columns.Keys && t.columns[Consumed] == Defaulted(Int, Zero)
      && t.columns[MaxConsumptions].kind == Int && WindowConsumedWithinItsBound in t.checks
  {
  }

  lemma LoosenedCounts(t: Table)
    requires HasLimits(t)
    ensures var l := Loosened(t);
      HasLimits(l) && l.columns[Consumed] == t.columns[Consumed].(kind := Bigint)
      && l.columns[MaxConsumptions].kind == t.columns[MaxConsumptions].kind
  {
  }

  /** A window that is not bound to a client says everything the older structure asks for. */
  lemma RemainingWindow(id: Cell, row: Row)
    requires RowConforms(ShapedWindows(), id, row) && At(row, ClientBound) != Flag(true)
    ensures GrantWindow(row)
  {
    hide ShapedWindows;
    ShapedColumns();
    var t := ShapedWindows();
    assert CellConforms(t.columns[ClientBound], At(row, ClientBound));
    assert CellConforms(t.columns[Consumed], At(row, Consumed));
    assert CellConforms(t.columns[MaxConsumptions], At(row, MaxConsumptions));
    assert Passes(WindowScopeShape, id, row) && Passes(WindowConsumedWithinItsBound, id, row);
  }

  lemma ShapedAt11()
    ensures ApprovalWindows in Fold(11).tables && Fold(11).tables[ApprovalWindows] == ShapedWindows()
  {
    hide AllLegal, Effects, ShapedWindows, Legal, Closed, Stage, Wide, Original, Migration11, Lines11;
    Read11();
    FoldStage(10);
    At10(Fold(10));
    Forward11(Fold(10), Migration11(), With(Fold(10), ApprovalWindows, ShapedWindows()));
  }

  function Unflagged(rows: map<Cell, Row>): map<Cell, Row> {
    map id | id in rows :: rows[id] - {ClientBound}
  }

  /** The rows after the two data statements of the last rollback: the receipts that a client's window decided
      and that could still be spent are revoked, the windows are gone, and no approval names one of them. */
  function UnboundRows(cat: Catalog, rows: Rows, now: int): (r: Rows)
    requires rows.Keys == cat.tables.Keys && ApprovalWindows in rows && Approvals in rows
    ensures r.Keys == rows.Keys
  {
    var revoked := rows[Approvals := RevokedRows(rows, Approvals, ClientDecided, now, ROLLED_BACK)];
    var kept := Kept(revoked, ApprovalWindows, BoundToClient);
    map u | u in revoked :: if u == ApprovalWindows then kept
                            else Released(cat.tables[u], revoked[u], ApprovalWindows,
                                          revoked[ApprovalWindows].Keys - kept.Keys)
  }

  lemma Unbinding(db: Db, now: int)
    requires db.catalog == Fold(11) && Conforms(db.catalog, db.rows)
    ensures Approvals in db.rows && ApprovalWindows in db.rows
    ensures var receipts := RevokedRows(db.rows, Approvals, ClientDecided, now, ROLLED_BACK);
      var one := db.(rows := db.rows[Approvals := receipts]);
      Exec(db, REVOKE_CLIENT_RECEIPTS, now) == Ok(one) && one.rows.Keys == one.catalog.tables.Keys
      && Exec(one, DROP_CLIENT_WINDOWS, now) == Ok(db.(rows := UnboundRows(db.catalog, db.rows, now)))
    ensures Conforms(db.catalog, UnboundRows(db.catalog, db.rows, now))
  {
    hide Fold, TableConforms, Stage, Wide, Closed, Revocable, RevokedRows, Exec, Legal, UnboundRows, RowsAfter, Effect;
    FoldStage(11);
    ApprovalsRevocable(11, db.catalog);
    DataLegal(db.catalog);
    DeleteLegal(db.catalog);
    StageClosed(11, db.catalog);
    RevokeRuns(db, Approvals, ClientDecided, ROLLED_BACK, now);
    ExecConforms(db, REVOKE_CLIENT_RECEIPTS, now);
    var one := Exec(db, REVOKE_CLIENT_RECEIPTS, now).value;
    DeleteRuns(one, now);
    ExecConforms(one, DROP_CLIENT_WINDOWS, now);
    UnboundAre(db.catalog, db.rows, now);
  }

  lemma UnboundAre(cat: Catalog, rows: Rows, now: int)
    requires rows.Keys == cat.tables.Keys && ApprovalWindows in rows && Approvals in rows
    requires Legal(cat, DROP_CLIENT_WINDOWS)
    ensures var one := rows[Approvals := RevokedRows(rows, Approvals, ClientDecided, now, ROLLED_BACK)];
      one.Keys == cat.tables.Keys && RowsAfter(cat, one, DROP_CLIENT_WINDOWS, now) == UnboundRows(cat, rows, now)
  {
    hide RevokedRows, Kept, Released, Legal, Effect;
  }

  lemma StageClosed(k: nat, cat: Catalog)
    requires Stage(k, cat)
    ensures Closed(cat)
  {
  }

  /** The windows that are left satisfy what the older structure demands. */
  lemma UnboundWindows(db: Db, now: int)
    requires db.catalog == Fold(11) && db.rows.Keys == db.catalog.tables.Keys
    requires ApprovalWindows in db.rows && Approvals in db.rows
    requires Conforms(db.catalog, UnboundRows(db.catalog, db.rows, now))
    ensures var w := UnboundRows(db.catalog, db.rows, now)[ApprovalWindows]; forall id <- w :: GrantWindow(w[id])
  {
    hide Fold, RowConforms, RevokedRows, Released, ShapedWindows, GrantWindow;
    ShapedAt11();
    var rows := UnboundRows(db.catalog, db.rows, now);
    assert TableConforms(db.catalog.tables[ApprovalWindows], rows[ApprovalWindows]);
    forall id | id in rows[ApprovalWindows] ensures GrantWindow(rows[ApprovalWindows][id]) {
      RemainingWindow(id, rows[ApprovalWindows][id]);
    }
  }

  lemma UnflaggedQuiet(rows: Rows, was: map<Cell, Row>, r: seq<Statement>, i: nat)
    requires BackLines11(r) && 5 <= i < 10
    requires ApprovalWindows in rows && rows[ApprovalWindows] == Unflagged(was)
    requires forall id <- was :: GrantWindow(was[id])
    ensures Quiet(rows, r[i])
  {
    hide Fits, GrantWindow;
    forall id | id in was
      ensures (forall c <- BOUNDS :: At(rows[ApprovalWindows][id], c) != Null)
        && Fits(Int, At(rows[ApprovalWindows][id], Consumed))
    {
      UnflaggedWindow(was[id]);
    }
  }

  lemma UnflaggedWindow(row: Row)
    requires GrantWindow(row)
    ensures (forall c <- BOUNDS :: At(row - {ClientBound}, c) != Null) && Fits(Int, At(row - {ClientBound}, Consumed))
  {
    hide Fits;
    assert ClientBound !in BOUNDS;
  }

  lemma Unflagging(db: Db, now: int)
    requires db.rows.Keys == db.catalog.tables.Keys
    requires Legal(db.catalog, AlterTable(ApprovalWindows, DropColumn(ClientBound, false)))
    ensures ApprovalWindows in db.rows
    ensures Exec(db, AlterTable(ApprovalWindows, DropColumn(ClientBound, false)), now)
      == Ok(db.(catalog := Effect(db.catalog, AlterTable(ApprovalWindows, DropColumn(ClientBound, false))),
                rows := db.rows[ApprovalWindows := Unflagged(db.rows[ApprovalWindows])]))
  {
    hide Effect, LegalAction;
  }

  /** The last six statements of the last rollback. */
  lemma Narrows(db: Db, r: seq<Statement>, now: int)
    requires BackLines11(r) && db.rows.Keys == db.catalog.tables.Keys && AllLegal(db.catalog, r[4..])
    requires ApprovalWindows in db.rows
    requires forall id <- db.rows[ApprovalWindows] :: GrantWindow(db.rows[ApprovalWindows][id])
    ensures Execute(db, r[4..], now)
      == Ok(db.(catalog := Effects(db.catalog, r[4..]),
                rows := db.rows[ApprovalWindows := Unflagged(db.rows[ApprovalWindows])]))
  {
    hide AllLegal, Effects, Execute, Exec, Legal, Effect, Unflagged, Quiet, GrantWindow;
    Following(db.catalog, r, 4);
    Next(db, r, 4, now);
    Unflagging(db, now);
    var next := Exec(db, r[4], now).value;
    forall s | s in r[5..] ensures Quiet(next.rows, s) {
      var i: nat :| i < |r[5..]| && r[5..][i] == s;
      UnflaggedQuiet(next.rows, db.rows[ApprovalWindows], r, i + 5);
    }
    QuietRuns(next, r[5..], now);
  }

  /** The eight statements of the last rollback that are about the structure. */
  lemma Tightens(db: Db, r: seq<Statement>, now: int)
    requires BackLines11(r) && db.rows.Keys == db.catalog.tables.Keys && AllLegal(db.catalog, r[2..])
    requires ApprovalWindows in db.rows
    requires forall id <- db.rows[ApprovalWindows] :: GrantWindow(db.rows[ApprovalWindows][id])
    ensures Execute(db, r[2..], now)
      == Ok(db.(catalog := Effects(db.catalog, r[2..]),
                rows := db.rows[ApprovalWindows := Unflagged(db.rows[ApprovalWindows])]))
  {
    hide AllLegal, Effects, Execute, Exec, Legal, Effect, Unflagged, GrantWindow;
    Following(db.catalog, r, 2);
    Next(db, r, 2, now);
    DropsQuietly(db, r[2], now);
    var one := db.(catalog := Effect(db.catalog, r[2]));
    Following(one.catalog, r, 3);
    Next(one, r, 3, now);
    DropsQuietly(one, r[3], now);
    Narrows(one.(catalog := Effect(one.catalog, r[3])), r, now);
  }

  lemma DropsQuietly(db: Db, s: Statement, now: int)
    requires db.rows.Keys == db.catalog.tables.Keys && Legal(db.catalog, s)
    requires s.DropIndex? || (s.AlterTable? && s.action.DropCheck?)
    ensures Exec(db, s, now) == Ok(db.(catalog := Effect(db.catalog, s)))
    ensures Effect(db.catalog, s).tables.Keys == db.catalog.tables.Keys
  {
    hide Legal;
  }

  lemma UnbindingRuns(db: Db, now: int)
    requires db.catalog == Fold(11) && Conforms(db.catalog, db.rows)
    ensures Approvals in db.rows && ApprovalWindows in db.rows
    ensures var rows := UnboundRows(db.catalog, db.rows, now);
      Execute(db, Rollback(11), now)
      == Ok(db.(catalog := Fold(10), rows := rows[ApprovalWindows := Unflagged(rows[ApprovalWindows])]))
  {
    hide Fold, Stage, AllLegal, Effects, Execute, Exec, Legal, Effect, Unflagged, Migration11, Rollback11, RevokedRows,
      BackLines11, TableConforms, UnboundRows, GrantWindow;
    RollbackIsInverse(11);
    FirstTwoBack();
    var r := Rollback(11);
    Finished(db.catalog, r);
    Unbinding(db, now);
    Following(db.catalog, r, 0);
    Next(db, r, 0, now);
    var one := Exec(db, r[0], now).value;
    Following(one.catalog, r, 1);
    Next(one, r, 1, now);
    UnmovedBack(db.catalog);
    UnboundWindows(db, now);
    Tightens(db.(rows := UnboundRows(db.catalog, db.rows, now)), r, now);
  }

  lemma UnmovedBack(cat: Catalog)
    ensures Effect(cat, REVOKE_CLIENT_RECEIPTS) == cat && Effect(cat, DROP_CLIENT_WINDOWS) == cat
  {
  }

  lemma FirstTwoBack()
    ensures var r := Rollback11();
      BackLines11(r) && |r| == 10 && r[0] == REVOKE_CLIENT_RECEIPTS && r[1] == DROP_CLIENT_WINDOWS
  {
    Read11();
    hide Rollback11;
  }

  // ---------------------------------------------------------------- the other rollbacks

  /** A statement that leaves every token in place, with the flag that says whether it is single use. */
  predicate Spares(s: Statement) {
    match s
    case DropTables(ts) => OauthTokens !in ts
    case AlterTable(t, DropColumn(c, _)) => t != OauthTokens || c != SingleUse
    case AlterTable(_, a) => a.DropCheck? || a.SetDefault?
    case DropIndex(_, _) => true
    case DropEpochFunction => true
    case DeleteRow(t, _) => t != OauthTokens
    case _ => false
  }

  lemma BackLines(k: nat, i: nat, now: int)
    requires 1 <= k <= 10 && i < |Rollback(k)|
    ensures Always(Rollback(k)[i], now) && (k >= 3 ==> Spares(Rollback(k)[i]))
  {
    match k
    case 5 => EpochBackLines(i, now);
    case _ => hide EpochDefaults, EPOCH_TABLES, EPOCH_KEY;
  }

  lemma EpochBackLines(i: nat, now: int)
    requires i < |Rollback5()|
    ensures Always(Rollback5()[i], now) && Spares(Rollback5()[i])
  {
  }

  lemma RollbackRuns(k: nat, db: Db, now: int)
    requires 1 <= k <= 10 && db.catalog == Fold(k) && Conforms(db.catalog, db.rows)
    ensures Execute(db, Rollback(k), now).Ok?
  {
    hide Rollback, Fold, Execute, AllLegal, Effects, Always, TableConforms, Spares;
    RollbackIsInverse(k);
    forall s | s in Rollback(k) ensures Always(s, now) {
      var i: nat :| i < |Rollback(k)| && Rollback(k)[i] == s;
      BackLines(k, i, now);
    }
    AlwaysRuns(db, Rollback(k), now);
  }

  lemma StatementSpares(db: Db, s: Statement, now: int)
    requires db.rows.Keys == db.catalog.tables.Keys && Exec(db, s, now).Ok? && Spares(s)
    ensures HoldsSingleUse(Exec(db, s, now).value.rows) == HoldsSingleUse(db.rows)
  {
    var next := Exec(db, s, now).value.rows;
    if OauthTokens in db.rows {
      assert OauthTokens in next && next[OauthTokens].Keys == db.rows[OauthTokens].Keys;
      assert forall id <- db.rows[OauthTokens] ::
        At(next[OauthTokens][id], SingleUse) == At(db.rows[OauthTokens][id], SingleUse);
    }
  }

  lemma {:induction false} ScriptSpares(db: Db, script: seq<Statement>, now: int)
    requires db.rows.Keys == db.catalog.tables.Keys && Execute(db, script, now).Ok?
    requires forall s <- script :: Spares(s)
    ensures HoldsSingleUse(Execute(db, script, now).value.rows) == HoldsSingleUse(db.rows)
    decreases |script|
  {
    hide Spares, HoldsSingleUse, Exec;
    if script != [] {
      assert Spares(script[0]);
      assert forall s <- script[1..] :: s in script;
      StatementSpares(db, script[0], now);
      ScriptSpares(Exec(db, script[0], now).value, script[1..], now);
    }
  }

  lemma UnboundSpares(db: Db, now: int)
    requires db.catalog == Fold(11) && Conforms(db.catalog, db.rows)
    requires ApprovalWindows in db.rows && Approvals in db.rows
    ensures var rows := UnboundRows(db.catalog, db.rows, now);
      HoldsSingleUse(rows[ApprovalWindows := Unflagged(rows[ApprovalWindows])]) == HoldsSingleUse(db.rows)
  {
    hide Fold, TableConforms, RevokedRows, Kept, Unflagged, Closed, Wide, TablesAt, IndexesAt, AlteredBy, Preserved,
      Admits, Revocable, NamesWindow;
    FoldStage(11);
    Member(OauthTokens, 11);
    var table := db.catalog.tables[OauthTokens];
    assert TableStage(11, OauthTokens, table);
    var rows := UnboundRows(db.catalog, db.rows, now);
    forall id | id in db.rows[OauthTokens]
      ensures At(rows[OauthTokens][id], SingleUse) == At(db.rows[OauthTokens][id], SingleUse)
    {
      assert SingleUse in table.references ==> table.references[SingleUse].target != ApprovalWindows;
    }
    assert rows[OauthTokens].Keys == db.rows[OauthTokens].Keys;
    SameTokens(db.rows, rows[ApprovalWindows := Unflagged(rows[ApprovalWindows])]);
  }

  lemma SameTokens(was: Rows, now: Rows)
    requires OauthTokens in was && OauthTokens in now && now[OauthTokens].Keys == was[OauthTokens].Keys
    requires forall id <- was[OauthTokens] ::
      At(now[OauthTokens][id], SingleUse) == At(was[OauthTokens][id], SingleUse)
    ensures HoldsSingleUse(now) == HoldsSingleUse(was)
  {
    if HoldsSingleUse(was) {
      var id :| id in was[OauthTokens] && At(was[OauthTokens][id], SingleUse) == Flag(true);
      assert id in now[OauthTokens];
    }
  }

  /** Down to version 2 no rollback loses a token, or changes whether it is single use. */
  lemma RollbackSpares(k: nat, db: Db, now: int)
    requires 3 <= k <= TOP && db.catalog == Fold(k) && Conforms(db.catalog, db.rows)
    requires Execute(db, Rollback(k), now).Ok?
    ensures HoldsSingleUse(Execute(db, Rollback(k), now).value.rows) == HoldsSingleUse(db.rows)
  {
    hide Rollback, Fold, Execute, Always, TableConforms, Spares, HoldsSingleUse, UnboundRows, Unflagged;
    if k == 11 {
      UnbindingRuns(db, now);
      UnboundSpares(db, now);
    } else {
      forall s | s in Rollback(k) ensures Spares(s) {
        var i: nat :| i < |Rollback(k)| && Rollback(k)[i] == s;
        BackLines(k, i, now);
      }
      ScriptSpares(db, Rollback(k), now);
    }
  }
}
