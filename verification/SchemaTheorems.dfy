/** What every statement of SchemaModel keeps, and which statements undo which. */
module SchemaTheorems {
  import opened SchemaModel
  import opened Wrappers

  // ---------------------------------------------------------------- rows

  /** A check depends on the columns it is said to mention and on no others. */
  lemma CheckDependsOnItsColumns(k: Check, id: Cell, a: Row, b: Row)
    requires forall c <- Mentions(k) :: At(a, c) == At(b, c)
    ensures Passes(k, id, a) == Passes(k, id, b)
  {
    if k == WindowScopeShape {
      assert forall c <- BOUNDS :: c in Mentions(k);
      assert ClientBound in Mentions(k);
    } else {
      hide BOUNDS;
    }
  }

  lemma AddedColumnConforms(table: Table, c: Column, def: ColumnDef, ref: Option<Reference>, id: Cell, row: Row,
                            cell: Cell)
    requires RowConforms(table, id, row)
    requires forall k <- table.checks :: Mentions(k) <= table.columns.Keys
    requires c !in table.columns && CellConforms(def, cell)
    ensures RowConforms(Altered(table, AddColumn(c, def, ref)), id, row[c := cell])
  {
    forall k | k in table.checks ensures Passes(k, id, row[c := cell]) {
      CheckDependsOnItsColumns(k, id, row, row[c := cell]);
    }
  }

  lemma DroppedColumnConforms(table: Table, c: Column, ifExists: bool, id: Cell, row: Row)
    requires RowConforms(table, id, row)
    ensures RowConforms(Altered(table, DropColumn(c, ifExists)), id, row - {c})
  {
    forall k | k in Altered(table, DropColumn(c, ifExists)).checks ensures Passes(k, id, row - {c}) {
      CheckDependsOnItsColumns(k, id, row, row - {c});
    }
  }

  // ---------------------------------------------------------------- the catalogue stays closed

  predicate TableClosed(cat: Catalog, t: Table) {
    && t.key in t.columns && t.uniques <= t.columns.Keys && t.references.Keys <= t.columns.Keys
    && (forall k <- t.checks :: Mentions(k) <= t.columns.Keys)
    && (forall c <- t.references :: t.references[c].target in cat.tables)
    && forall c <- t.columns :: EpochAvailable(cat, t.columns[c].default)
  }

  predicate IndexClosed(cat: Catalog, i: Index) {
    i.table in cat.tables && IndexColumns(i) <= cat.tables[i.table].columns.Keys
  }

  /** Checks, references, indexes and defaults name only what there is. */
  predicate Closed(cat: Catalog) {
    && (forall t <- cat.tables :: TableClosed(cat, cat.tables[t]))
    && forall i <- cat.indexes :: IndexClosed(cat, cat.indexes[i])
  }

  lemma AlteredStaysClosed(cat: Catalog, t: Table, a: Action)
    requires TableClosed(cat, t) && LegalAction(cat, t, a)
    ensures TableClosed(cat, Altered(t, a))
    ensures Altered(t, a).columns.Keys == match a case AddColumn(c, _, _) => t.columns.Keys + {c}
                                                  case DropColumn(c, _) => t.columns.Keys - {c}
                                                  case _ => t.columns.Keys
  {
  }

  lemma TableStaysClosed(cat: Catalog, next: Catalog, t: Table)
    requires TableClosed(cat, t)
    requires forall c <- t.references :: t.references[c].target in next.tables
    requires cat.epochFunction ==> next.epochFunction
    ensures TableClosed(next, t)
  {
    hide Mentions;
  }

  lemma CreatedStaysClosed(cat: Catalog, t: TableName, def: Table, next: Catalog)
    requires Closed(cat) && next == cat.(tables := cat.tables[t := def]) && t !in cat.tables
    requires TableClosed(next, def)
    ensures Closed(next)
  {
    hide Mentions, IndexColumns;
    forall u | u in next.tables ensures TableClosed(next, next.tables[u]) {
      if u != t {
        assert TableClosed(cat, cat.tables[u]);
        TableStaysClosed(cat, next, cat.tables[u]);
      }
    }
    forall i | i in next.indexes ensures IndexClosed(next, next.indexes[i]) {
      assert IndexClosed(cat, cat.indexes[i]);
    }
  }

  lemma DroppedStaysClosed(cat: Catalog, ts: set<TableName>, next: Catalog)
    requires Closed(cat) && next.tables == cat.tables - ts && next.epochFunction == cat.epochFunction
    requires forall u <- next.tables :: References(cat.tables[u]) !! ts
    requires forall i <- next.indexes ::
      i in cat.indexes && next.indexes[i] == cat.indexes[i] && next.indexes[i].table !in ts
    ensures Closed(next)
  {
    hide Mentions, IndexColumns;
    forall u | u in next.tables ensures TableClosed(next, next.tables[u]) {
      var table := cat.tables[u];
      assert TableClosed(cat, table);
      assert forall c <- table.references :: table.references[c].target in References(table);
      TableStaysClosed(cat, next, table);
    }
    forall i | i in next.indexes ensures IndexClosed(next, next.indexes[i]) {
      assert IndexClosed(cat, cat.indexes[i]);
    }
  }

  lemma AlterationStaysClosed(cat: Catalog, t: TableName, a: Action, next: Catalog)
    requires Closed(cat) && t in cat.tables && LegalAction(cat, cat.tables[t], a)
    requires next == cat.(tables := cat.tables[t := Altered(cat.tables[t], a)], indexes := next.indexes)
    requires next.indexes == if a.DropColumn? then WithoutColumn(cat.indexes, t, a.dropped) else cat.indexes
    ensures Closed(next)
  {
    hide Mentions, IndexColumns, LegalAction, Altered, EpochAvailable;
    assert forall i <- cat.indexes :: IndexClosed(cat, cat.indexes[i]);
    hide IndexClosed;
    assert TableClosed(cat, cat.tables[t]);
    AlteredStaysClosed(cat, cat.tables[t], a);
    forall u | u in next.tables ensures TableClosed(next, next.tables[u]) {
      if u != t { assert TableClosed(cat, cat.tables[u]); }
      TableStaysClosed(cat, next, next.tables[u]);
    }
    forall i | i in next.indexes ensures IndexClosed(next, next.indexes[i]) {
      IndexStaysClosed(cat, t, a, next, i);
    }
  }

  lemma IndexStaysClosed(cat: Catalog, t: TableName, a: Action, next: Catalog, i: IndexName)
    requires t in cat.tables && next.tables == cat.tables[t := Altered(cat.tables[t], a)]
    requires i in next.indexes && i in cat.indexes && next.indexes[i] == cat.indexes[i]
    requires IndexClosed(cat, cat.indexes[i])
    requires a.DropColumn? ==> cat.indexes[i].table != t || a.dropped !in IndexColumns(cat.indexes[i])
    ensures IndexClosed(next, next.indexes[i])
  {
    hide Mentions, IndexColumns;
  }

  lemma WithoutFunctionStaysClosed(cat: Catalog, next: Catalog)
    requires Closed(cat) && next.indexes == cat.indexes
    requires next.tables == map t | t in cat.tables :: Stripped(cat.tables[t])
    ensures Closed(next)
  {
    hide Mentions, IndexColumns;
    forall u | u in next.tables ensures TableClosed(next, next.tables[u]) {
      assert TableClosed(cat, cat.tables[u]);
    }
    forall i | i in next.indexes ensures IndexClosed(next, next.indexes[i]) {
      assert IndexClosed(cat, cat.indexes[i]);
    }
  }

  lemma LegalKeepsClosed(cat: Catalog, s: Statement)
    requires Closed(cat) && Legal(cat, s)
    ensures Closed(Effect(cat, s))
  {
    hide Mentions, IndexColumns, LegalAction, Altered, Stripped;
    var next := Effect(cat, s);
    match s
    case CreateTable(t, def) => CreatedStaysClosed(cat, t, def, next);
    case DropTables(ts) => DroppedStaysClosed(cat, ts, next);
    case AlterTable(t, a) => AlterationStaysClosed(cat, t, a, next);
    case DropEpochFunction => WithoutFunctionStaysClosed(cat, next);
    case CreateEpochFunction => MoreStaysClosed(cat, next);
    case CreateIndex(_, _) => MoreStaysClosed(cat, next);
    case DropIndex(_, _) => MoreStaysClosed(cat, next);
    case _ =>
  }

  lemma MoreStaysClosed(cat: Catalog, next: Catalog)
    requires Closed(cat) && next.tables == cat.tables && (cat.epochFunction ==> next.epochFunction)
    requires forall i <- next.indexes ::
      (i in cat.indexes && next.indexes[i] == cat.indexes[i]) || IndexClosed(cat, next.indexes[i])
    ensures Closed(next)
  {
    hide Mentions, IndexColumns;
    forall u | u in next.tables ensures TableClosed(next, next.tables[u]) {
      assert TableClosed(cat, cat.tables[u]);
      TableStaysClosed(cat, next, cat.tables[u]);
    }
    forall i | i in next.indexes ensures IndexClosed(next, next.indexes[i]) {
      if i in cat.indexes { assert IndexClosed(cat, cat.indexes[i]); }
    }
  }

  // ---------------------------------------------------------------- the rows keep conforming

  /** One row under one action: what the action adds is what it tests. */
  lemma ActionConforms(table: Table, a: Action, id: Cell, row: Row, next: Row, now: int)
    requires RowConforms(table, id, row)
    requires forall k <- table.checks :: Mentions(k) <= table.columns.Keys
    requires match a
             case AddColumn(c, def, _) =>
               c !in table.columns && CellConforms(def, Initial(def.default, now))
               && next == row[c := Initial(def.default, now)]
             case DropColumn(c, _) => next == row - {c}
             case AddCheck(k) => next == row && Passes(k, id, row)
             case SetRequired(c, required) => next == row && (required ==> At(row, c) != Null)
             case SetKind(c, kind) => next == row && Fits(kind, At(row, c))
             case _ => next == row
    ensures RowConforms(Altered(table, a), id, next)
  {
    hide Passes, Fits, Mentions, Initial;
    match a
    case AddColumn(c, def, ref) => AddedColumnConforms(table, c, def, ref, id, row, Initial(def.default, now));
    case DropColumn(c, ifExists) => DroppedColumnConforms(table, c, ifExists, id, row);
    case _ =>
  }

  lemma AlteredConforms(cat: Catalog, rows: Rows, t: TableName, a: Action, now: int)
    requires Closed(cat) && Conforms(cat, rows)
    requires Legal(cat, AlterTable(t, a)) && RowsAdmit(cat, rows, AlterTable(t, a), now)
    ensures TableConforms(Altered(cat.tables[t], a), RowsAfter(cat, rows, AlterTable(t, a), now)[t])
  {
    hide Passes, Fits, Mentions, Initial, Altered, RowConforms, Selected, Effect, EpochAvailable;
    var table := cat.tables[t];
    assert TableClosed(cat, table);
    assert TableConforms(table, rows[t]);
    var after := RowsAfter(cat, rows, AlterTable(t, a), now)[t];
    forall id | id in after ensures RowConforms(Altered(table, a), id, after[id]) {
      assert RowConforms(table, id, rows[t][id]);
      ActionConforms(table, a, id, rows[t][id], after[id], now);
    }
  }

  lemma StrippedConforms(t: Table, rows: map<Cell, Row>)
    requires TableConforms(t, rows)
    ensures TableConforms(Stripped(t), rows)
  {
    hide Passes, Fits;
    forall id | id in rows ensures RowConforms(Stripped(t), id, rows[id]) {
      assert RowConforms(t, id, rows[id]);
    }
  }

  /** Whatever a statement does, a row that stays keeps satisfying everything its table demands. */
  lemma ExecConforms(db: Db, s: Statement, now: int)
    requires Closed(db.catalog) && Conforms(db.catalog, db.rows)
    requires Exec(db, s, now).Ok?
    ensures var next := Exec(db, s, now).value; Closed(next.catalog) && Conforms(next.catalog, next.rows)
  {
    LegalKeepsClosed(db.catalog, s);
    RowsConform(db.catalog, db.rows, s, now);
  }

  lemma RowsConform(cat: Catalog, rows: Rows, s: Statement, now: int)
    requires Closed(cat) && Conforms(cat, rows)
    requires Legal(cat, s) && RowsAdmit(cat, rows, s, now)
    ensures Conforms(Effect(cat, s), RowsAfter(cat, rows, s, now))
  {
    hide RowConforms, Closed, Altered, LegalAction, Kept, Released, RevokedRows;
    var next, after := Effect(cat, s), RowsAfter(cat, rows, s, now);
    match s
    case AlterTable(t, a) =>
      AlteredConforms(cat, rows, t, a, now);
      forall u | u in after ensures TableConforms(next.tables[u], after[u]) {
        if u != t { assert TableConforms(cat.tables[u], rows[u]); }
      }
    case DropEpochFunction =>
      forall u | u in after ensures TableConforms(next.tables[u], after[u]) {
        StrippedConforms(cat.tables[u], rows[u]);
      }
    case CreateTable(_, _) =>
    case DropTables(_) =>
    case InsertIfAbsent(t, _, _) => assert TableConforms(cat.tables[t], rows[t]);
    case DeleteRow(t, _) => assert TableConforms(cat.tables[t], rows[t]);
    case _ =>
  }

  // ---------------------------------------------------------------- scripts

  /** A script that runs had only legal statements, and what it makes of the catalogue is not up to the rows;
      afterwards the rows still satisfy everything. */
  lemma {:induction false} ExecuteKeeps(db: Db, script: seq<Statement>, now: int)
    requires Closed(db.catalog) && Conforms(db.catalog, db.rows)
    requires Execute(db, script, now).Ok?
    ensures AllLegal(db.catalog, script)
    ensures var next := Execute(db, script, now).value;
      next.catalog == Effects(db.catalog, script) && next.ledger == db.ledger
      && Closed(next.catalog) && Conforms(next.catalog, next.rows)
    decreases |script|
  {
    hide Closed, TableConforms, Effect, Legal, RowsAdmit, RowsAfter;
    if script != [] {
      ExecConforms(db, script[0], now);
      ExecuteKeeps(Exec(db, script[0], now).value, script[1..], now);
    }
  }

  lemma {:induction false} EffectsStayClosed(cat: Catalog, script: seq<Statement>)
    requires Closed(cat) && AllLegal(cat, script)
    ensures Closed(Effects(cat, script))
    decreases |script|
  {
    hide Closed, Effect, Legal;
    if script != [] {
      LegalKeepsClosed(cat, script[0]);
      EffectsStayClosed(Effect(cat, script[0]), script[1..]);
    }
  }

  lemma {:induction false} ScriptsCompose(cat: Catalog, a: seq<Statement>, b: seq<Statement>)
    ensures Effects(cat, a + b) == Effects(Effects(cat, a), b)
    ensures AllLegal(cat, a + b) == (AllLegal(cat, a) && AllLegal(Effects(cat, a), b))
    decreases |a|
  {
    hide Effect, Legal;
    if a == [] {
      assert a + b == b;
    } else {
      assert (a + b)[1..] == a[1..] + b;
      ScriptsCompose(Effect(cat, a[0]), a[1..], b);
    }
  }

  lemma {:induction false} ExecutionsCompose(db: Db, a: seq<Statement>, b: seq<Statement>, now: int)
    requires db.rows.Keys == db.catalog.tables.Keys
    ensures Execute(db, a + b, now)
      == if Execute(db, a, now).Err? then Execute(db, a, now) else Execute(Execute(db, a, now).value, b, now)
    decreases |a|
  {
    hide Exec;
    if a == [] {
      assert a + b == b;
    } else {
      assert (a + b)[1..] == a[1..] + b;
      var first := Exec(db, a[0], now);
      if first.Ok? { ExecutionsCompose(first.value, a[1..], b, now); }
    }
  }

  /** A statement that creates one of these tables or an index on one of them. */
  predicate CreatesIn(s: Statement, ts: set<TableName>) {
    (s.CreateTable? && s.name in ts) || (s.CreateIndex? && s.on.table in ts)
  }

  lemma CreationUndone(cat: Catalog, s: Statement, ts: set<TableName>)
    requires Legal(cat, s) && CreatesIn(s, ts)
    ensures Effect(Effect(cat, s), DropTables(ts)) == Effect(cat, DropTables(ts))
  {
    var was, now := Effect(cat, DropTables(ts)), Effect(Effect(cat, s), DropTables(ts));
    match s
    case CreateTable(_, _) => assert now.tables == was.tables;
    case CreateIndex(_, _) => assert now.indexes == was.indexes;
  }

  /** Dropping the tables that a script created undoes the script. */
  lemma {:induction false} CreationsUndone(cat: Catalog, script: seq<Statement>, ts: set<TableName>)
    requires AllLegal(cat, script) && forall s <- script :: CreatesIn(s, ts)
    ensures Effect(Effects(cat, script), DropTables(ts)) == Effect(cat, DropTables(ts))
    decreases |script|
  {
    hide Effect, Legal;
    if script != [] {
      assert forall s <- script[1..] :: s in script;
      CreationUndone(cat, script[0], ts);
      CreationsUndone(Effect(cat, script[0]), script[1..], ts);
    }
  }

  lemma NothingToDrop(cat: Catalog, ts: set<TableName>)
    requires Closed(cat) && ts !! cat.tables.Keys
    ensures Effect(cat, DropTables(ts)) == cat
  {
    var next := Effect(cat, DropTables(ts));
    assert next.tables == cat.tables;
    forall i | i in cat.indexes ensures i in next.indexes && next.indexes[i] == cat.indexes[i] {
      assert IndexClosed(cat, cat.indexes[i]);
    }
    assert next.indexes == cat.indexes;
  }

  /** Tables can be dropped when what remains refers to none of them. */
  lemma DropIsLegal(cat: Catalog, ts: set<TableName>)
    requires Closed(Effect(cat, DropTables(ts)))
    ensures Legal(cat, DropTables(ts))
  {
    var rest := Effect(cat, DropTables(ts));
    forall u | u in cat.tables && u !in ts ensures References(cat.tables[u]) !! ts {
      assert TableClosed(rest, rest.tables[u]);
      forall t | t in References(cat.tables[u]) ensures t !in ts {
        var c :| c in cat.tables[u].references && cat.tables[u].references[c].target == t;
        assert rest.tables[u].references[c].target in rest.tables;
      }
    }
  }

  /** A script of creations in new tables, and the one statement that takes it back. */
  lemma CreatedAndDropped(cat: Catalog, script: seq<Statement>, ts: set<TableName>)
    requires Closed(cat) && ts !! cat.tables.Keys
    requires AllLegal(cat, script) && forall s <- script :: CreatesIn(s, ts)
    ensures Legal(Effects(cat, script), DropTables(ts))
    ensures Effect(Effects(cat, script), DropTables(ts)) == cat
  {
    hide Effect, Legal, Closed;
    CreationsUndone(cat, script, ts);
    NothingToDrop(cat, ts);
    DropIsLegal(Effects(cat, script), ts);
  }

  /** Such a script is never refused because of rows: the new tables are empty, and no other row changes. */
  lemma {:induction false} CreationsRun(db: Db, script: seq<Statement>, ts: set<TableName>, now: int)
    requires db.rows.Keys == db.catalog.tables.Keys
    requires AllLegal(db.catalog, script) && forall s <- script :: CreatesIn(s, ts)
    requires forall t <- db.rows | t in ts :: db.rows[t] == map[]
    ensures var r := Execute(db, script, now);
      r.Ok? && (forall t <- r.value.rows :: if t in ts then r.value.rows[t] == map[]
                                            else t in db.rows && r.value.rows[t] == db.rows[t])
      && db.rows.Keys <= r.value.rows.Keys
    decreases |script|
  {
    if script != [] {
      assert forall s <- script[1..] :: s in script;
      var s := script[0];
      assert CreatesIn(s, ts);
      assert RowsAdmit(db.catalog, db.rows, s, now);
      var next := Exec(db, s, now).value;
      CreationsRun(next, script[1..], ts, now);
    }
  }

  /** A statement that no row can stop. */
  predicate Always(s: Statement, now: int) {
    match s
    case AlterTable(_, AddColumn(_, def, _)) => CellConforms(def, Initial(def.default, now))
    case AlterTable(_, AddCheck(_)) => false
    case AlterTable(_, SetRequired(_, required)) => !required
    case AlterTable(_, SetKind(_, _)) => false
    case CreateIndex(_, def) => !def.unique
    case Revoke(_, _, _) => false
    case Delete(_, _) => false
    case InsertIfAbsent(_, _, _) => false
    case _ => true
  }

  lemma {:induction false} AlwaysRuns(db: Db, script: seq<Statement>, now: int)
    requires db.rows.Keys == db.catalog.tables.Keys
    requires AllLegal(db.catalog, script) && forall s <- script :: Always(s, now)
    ensures Execute(db, script, now).Ok?
    decreases |script|
  {
    if script != [] {
      assert forall s <- script[1..] :: s in script;
      assert Always(script[0], now);
      AlwaysRuns(Exec(db, script[0], now).value, script[1..], now);
    }
  }

  // ---------------------------------------------------------------- columns added and dropped

  function WiderTable(table: Table, more: map<Column, ColumnDef>, refs: map<Column, Reference>): Table {
    table.(columns := table.columns + more, references := table.references + refs)
  }

  /** The catalogue in which one table has more columns. */
  function Wider(cat: Catalog, t: TableName, more: map<Column, ColumnDef>, refs: map<Column, Reference>): Catalog
    requires t in cat.tables
  {
    With(cat, t, WiderTable(cat.tables[t], more, refs))
  }

  function With(cat: Catalog, t: TableName, table: Table): Catalog {
    cat.(tables := cat.tables[t := table])
  }

  lemma WithTwice(cat: Catalog, t: TableName, a: Table, b: Table)
    ensures With(With(cat, t, a), t, b) == With(cat, t, b)
    ensures t in cat.tables ==> With(cat, t, cat.tables[t]) == cat
  {
    assert cat.tables[t := a][t := b] == cat.tables[t := b];
    if t in cat.tables { assert cat.tables[t := cat.tables[t]] == cat.tables; }
  }

  lemma AlteredWith(cat: Catalog, t: TableName, table: Table, a: Action)
    requires !a.DropColumn?
    ensures Effect(With(cat, t, table), AlterTable(t, a)) == With(cat, t, Altered(table, a))
  {
    hide Altered;
    WithTwice(cat, t, table, Altered(table, a));
  }

  lemma WidenedTable(table: Table, more: map<Column, ColumnDef>, refs: map<Column, Reference>,
                     c: Column, def: ColumnDef, ref: Option<Reference>)
    ensures Altered(WiderTable(table, more, refs), AddColumn(c, def, ref))
      == WiderTable(table, more[c := def], if ref.Some? then refs[c := ref.value] else refs)
  {
    assert (table.columns + more)[c := def] == table.columns + more[c := def];
    if ref.Some? { assert (table.references + refs)[c := ref.value] == table.references + refs[c := ref.value]; }
  }

  lemma AddWidens(cat: Catalog, t: TableName, more: map<Column, ColumnDef>, refs: map<Column, Reference>,
                  c: Column, def: ColumnDef, ref: Option<Reference>)
    requires t in cat.tables
    ensures Effect(Wider(cat, t, more, refs), AlterTable(t, AddColumn(c, def, ref)))
      == Wider(cat, t, more[c := def], if ref.Some? then refs[c := ref.value] else refs)
  {
    hide WiderTable, Altered, Effect, With;
    WidenedTable(cat.tables[t], more, refs, c, def, ref);
    AlteredWith(cat, t, WiderTable(cat.tables[t], more, refs), AddColumn(c, def, ref));
  }

  lemma NothingWider(cat: Catalog, t: TableName)
    requires t in cat.tables
    ensures Wider(cat, t, map[], map[]) == cat
  {
    var table := cat.tables[t];
    assert table.columns + map[] == table.columns && table.references + map[] == table.references;
    WithTwice(cat, t, table, table);
  }

  lemma NarrowedTable(cat: Catalog, table: Table, more: map<Column, ColumnDef>, refs: map<Column, Reference>,
                      c: Column, ifExists: bool)
    requires TableClosed(cat, table) && more.Keys !! table.columns.Keys && c in more
    ensures Altered(WiderTable(table, more, refs), DropColumn(c, ifExists))
      == WiderTable(table, more - {c}, refs - {c})
  {
    hide Mentions;
    var narrow := Altered(WiderTable(table, more, refs), DropColumn(c, ifExists));
    assert narrow.columns == table.columns + (more - {c});
    assert narrow.references == table.references + (refs - {c});
    assert narrow.uniques == table.uniques;
    assert narrow.checks == table.checks;
  }

  lemma IndexesStay(cat: Catalog, t: TableName, c: Column)
    requires Closed(cat) && t in cat.tables && c !in cat.tables[t].columns
    ensures WithoutColumn(cat.indexes, t, c) == cat.indexes
  {
    hide IndexColumns;
    forall i | i in cat.indexes && cat.indexes[i].table == t ensures c !in IndexColumns(cat.indexes[i]) {
      assert IndexClosed(cat, cat.indexes[i]);
    }
  }

  /** No check, reference, index or uniqueness of a closed catalogue is about a column its table has not. */
  lemma DropNarrows(cat: Catalog, t: TableName, more: map<Column, ColumnDef>, refs: map<Column, Reference>,
                    c: Column, ifExists: bool)
    requires Closed(cat) && t in cat.tables
    requires more.Keys !! cat.tables[t].columns.Keys && c in more
    ensures Legal(Wider(cat, t, more, refs), AlterTable(t, DropColumn(c, ifExists)))
    ensures Effect(Wider(cat, t, more, refs), AlterTable(t, DropColumn(c, ifExists)))
      == Wider(cat, t, more - {c}, refs - {c})
  {
    hide Closed, TableClosed, Altered, WithoutColumn, Effect, WiderTable;
    var table := cat.tables[t];
    ClosedTable(cat, t);
    NarrowedTable(cat, table, more, refs, c, ifExists);
    IndexesStay(cat, t, c);
    DroppedWith(cat, t, WiderTable(table, more, refs), c, ifExists);
    WiderHas(table, more, refs, c);
  }

  lemma ClosedTable(cat: Catalog, t: TableName)
    requires Closed(cat) && t in cat.tables
    ensures TableClosed(cat, cat.tables[t]) && cat.tables[t].key in cat.tables[t].columns
  {
    hide Mentions, IndexClosed;
  }

  lemma WiderHas(table: Table, more: map<Column, ColumnDef>, refs: map<Column, Reference>, c: Column)
    requires c in more
    ensures c in WiderTable(table, more, refs).columns && WiderTable(table, more, refs).key == table.key
  {
  }

  lemma DroppedWith(cat: Catalog, t: TableName, table: Table, c: Column, ifExists: bool)
    requires WithoutColumn(cat.indexes, t, c) == cat.indexes
    ensures Effect(With(cat, t, table), AlterTable(t, DropColumn(c, ifExists)))
      == With(cat, t, Altered(table, DropColumn(c, ifExists)))
  {
    hide Altered, WithoutColumn;
    WithTwice(cat, t, table, Altered(table, DropColumn(c, ifExists)));
  }

  lemma CheckUndone(cat: Catalog, t: TableName, k: Check, ifExists: bool)
    requires Legal(cat, AlterTable(t, AddCheck(k)))
    ensures var next := Effect(cat, AlterTable(t, AddCheck(k)));
      Legal(next, AlterTable(t, DropCheck(k, ifExists)))
      && Effect(next, AlterTable(t, DropCheck(k, ifExists))) == cat
  {
    var table := cat.tables[t];
    var checked := table.(checks := table.checks + {k});
    assert Altered(table, AddCheck(k)) == checked && k !in table.checks;
    assert Altered(checked, DropCheck(k, ifExists)) == table by {
      assert table.checks + {k} - {k} == table.checks;
    }
    hide Altered;
    AlteredWith(cat, t, table, AddCheck(k));
    AlteredWith(cat, t, checked, DropCheck(k, ifExists));
    WithTwice(cat, t, table, table);
  }

  lemma IndexUndone(cat: Catalog, i: IndexName, def: Index, ifExists: bool)
    requires i !in cat.indexes
    ensures var next := Effect(cat, CreateIndex(i, def));
      Legal(next, DropIndex(i, ifExists)) && Effect(next, DropIndex(i, ifExists)) == cat
  {
    assert cat.indexes[i := def] - {i} == cat.indexes;
  }

  lemma Following(cat: Catalog, script: seq<Statement>, i: nat)
    requires i < |script|
    ensures AllLegal(cat, script[i..])
      == (Legal(cat, script[i]) && AllLegal(Effect(cat, script[i]), script[i + 1..]))
    ensures Effects(cat, script[i..]) == Effects(Effect(cat, script[i]), script[i + 1..])
  {
    hide Legal, Effect;
    assert script[i..][1..] == script[i + 1..];
  }

  lemma Finished(cat: Catalog, m: seq<Statement>)
    ensures m[0..] == m && AllLegal(cat, m[|m|..]) && Effects(cat, m[|m|..]) == cat
  {
  }

  lemma Single(cat: Catalog, s: Statement)
    ensures AllLegal(cat, [s]) == Legal(cat, s) && Effects(cat, [s]) == Effect(cat, s)
  {
    hide Legal, Effect;
    Following(cat, [s], 0);
    Finished(Effect(cat, s), [s]);
    Finished(cat, [s]);
  }

  /** A script adds a column to a table that already has some more. */
  lemma Widening(cat: Catalog, t: TableName, more: map<Column, ColumnDef>, refs: map<Column, Reference>,
                 script: seq<Statement>, i: nat, c: Column, def: ColumnDef, ref: Option<Reference>)
    requires t in cat.tables && i < |script| && script[i] == AlterTable(t, AddColumn(c, def, ref))
    requires c !in cat.tables[t].columns && c !in more && def.default != CurrentEpoch
    requires ref.Some? ==> ref.value.target in cat.tables
    ensures var was := Wider(cat, t, more, refs);
      var now := Wider(cat, t, more[c := def], if ref.Some? then refs[c := ref.value] else refs);
      AllLegal(was, script[i..]) == AllLegal(now, script[i + 1..])
      && Effects(was, script[i..]) == Effects(now, script[i + 1..])
  {
    hide AllLegal, Effects, Effect, Altered;
    AddWidens(cat, t, more, refs, c, def, ref);
    Following(Wider(cat, t, more, refs), script, i);
  }

  /** A script drops one of the columns a table has more. */
  lemma Narrowing(cat: Catalog, t: TableName, more: map<Column, ColumnDef>, refs: map<Column, Reference>,
                  script: seq<Statement>, i: nat, c: Column, ifExists: bool)
    requires Closed(cat) && t in cat.tables && i < |script| && script[i] == AlterTable(t, DropColumn(c, ifExists))
    requires more.Keys !! cat.tables[t].columns.Keys && c in more
    ensures var was, now := Wider(cat, t, more, refs), Wider(cat, t, more - {c}, refs - {c});
      AllLegal(was, script[i..]) == AllLegal(now, script[i + 1..])
      && Effects(was, script[i..]) == Effects(now, script[i + 1..])
  {
    hide AllLegal, Effects, Effect, Altered, Closed, Legal, Wider;
    DropNarrows(cat, t, more, refs, c, ifExists);
    Following(Wider(cat, t, more, refs), script, i);
  }

  // ---------------------------------------------------------------- scripts and rows

  /** A script goes on with its next statement. */
  lemma Next(db: Db, script: seq<Statement>, i: nat, now: int)
    requires i < |script| && db.rows.Keys == db.catalog.tables.Keys
    ensures Execute(db, script[i..], now)
      == var r := Exec(db, script[i], now);
         if r.Err? then Err(r.error) else Execute(r.value, script[i + 1..], now)
  {
    hide Exec;
    assert script[i..][1..] == script[i + 1..];
  }

  /** Given these rows, a statement that changes none of them and is not refused. */
  predicate Quiet(rows: Rows, s: Statement) {
    match s
    case AlterTable(t, AddCheck(k)) => t in rows && forall id <- rows[t] :: Passes(k, id, rows[t][id])
    case AlterTable(t, SetRequired(c, required)) =>
      t in rows && (required ==> forall id <- rows[t] :: At(rows[t][id], c) != Null)
    case AlterTable(t, SetKind(c, kind)) => t in rows && forall id <- rows[t] :: Fits(kind, At(rows[t][id], c))
    case AlterTable(t, DropCheck(_, _)) => true
    case AlterTable(t, SetDefault(_, _)) => true
    case CreateIndex(_, def) => def.table in rows && (def.unique ==> Distinct(def, rows[def.table]))
    case DropIndex(_, _) => true
    case _ => false
  }

  lemma {:induction false} QuietRuns(db: Db, script: seq<Statement>, now: int)
    requires db.rows.Keys == db.catalog.tables.Keys && AllLegal(db.catalog, script)
    requires forall s <- script :: Quiet(db.rows, s)
    ensures Execute(db, script, now) == Ok(db.(catalog := Effects(db.catalog, script)))
    decreases |script|
  {
    if script == [] {
    } else {
      assert Quiet(db.rows, script[0]);
      assert forall s <- script[1..] :: s in script;
      QuietRuns(Exec(db, script[0], now).value, script[1..], now);
    }
  }

  /** What a revocation writes passes every check that the row passed. */
  lemma RevocationPasses(k: Check, id: Cell, row: Row, now: int, reason: string)
    requires Passes(k, id, row)
    ensures Passes(k, id, RevokedRow(row, now, reason))
  {
    if RevokedAt !in Mentions(k) && RevokedReason !in Mentions(k) {
      CheckDependsOnItsColumns(k, id, row, RevokedRow(row, now, reason));
    }
  }

  predicate Revocable(t: Table) {
    && RevokedAt in t.columns && t.columns[RevokedAt].kind == Timestamptz
    && RevokedReason in t.columns && t.columns[RevokedReason].kind == Text
  }

  lemma RevokedConforms(t: Table, id: Cell, row: Row, now: int, reason: string)
    requires RowConforms(t, id, row) && Revocable(t)
    ensures RowConforms(t, id, RevokedRow(row, now, reason))
  {
    forall k | k in t.checks ensures Passes(k, id, RevokedRow(row, now, reason)) {
      RevocationPasses(k, id, row, now, reason);
    }
    hide Passes;
  }

  /** A revocation is never refused. */
  lemma RevokeRuns(db: Db, t: TableName, where: Condition, reason: string, now: int)
    requires Conforms(db.catalog, db.rows) && Legal(db.catalog, Revoke(t, where, reason))
    requires Revocable(db.catalog.tables[t])
    ensures Exec(db, Revoke(t, where, reason), now)
      == Ok(db.(rows := db.rows[t := RevokedRows(db.rows, t, where, now, reason)]))
  {
    hide RowConforms, Selected, RevokedRow, Revocable;
    var rows := db.rows[t := RevokedRows(db.rows, t, where, now, reason)];
    forall u | u in rows ensures TableConforms(db.catalog.tables[u], rows[u]) {
      assert TableConforms(db.catalog.tables[u], db.rows[u]);
      if u == t {
        forall id | id in rows[t] ensures RowConforms(db.catalog.tables[t], id, rows[t][id]) {
          RevokedConforms(db.catalog.tables[t], id, db.rows[t][id], now, reason);
        }
      }
    }
  }
}
