/** The part of PostgreSQL's data definition language that the migration ladder of
    config-ui/control_schema.py uses: a catalogue of tables, checks, references and indexes, rows, and
    statements that are refused as the server refuses them. */
module SchemaModel {
  import opened Wrappers

  datatype TableName =
    | Metadata | AdminCredential | Sessions | Tokens | DeviceAuthorizations
    | OauthClients | OauthAuthorizationCodes | OauthTokens | OauthPendingAuthorizations | OauthSessions
    | OauthGrants | OauthRefreshFamilies | OauthRefreshTokens | AuditEvent | Approvals | ApprovalWindows

  datatype Column =
    | AbsoluteExpiresAt | ActionClass | Actor | ActorClientId | ApprovedAt | Audience | AuthTime
    | BrokerClientId | Capabilities | ClientBound | ClientId | ClientSecretHash | CodeChallenge
    | CodeChallengeMethod | CodeHash | Consumed | ConsumedAt | ConsumedBy | CreatedAt | CreatedBy
    | CreatorAuthTime | Csrf | CsrfHash | DecidedAt | DecidedBy | DecidedByWindow | Detail | DeviceName
    | DisabledAt | Encoded | Event | EventId | ExpiresAt | FamilyId | GrantId | GrantTypes | Id | IdHash
    | IdleExpiresAt | Instance | IssuedAt | Key | LastUsedAt | MaxConsumptions | Name | NameKey | OperationId
    | Packet | Query | ReceiptHash | RecordedAt | RecoveryEpoch | RedirectUri | RedirectUris | Remote
    | ReplacedBy | RequestDigest | RequestId | RevokedAt | RevokedReason | Risk | Scope | Scopes
    | SessionHash | SingleUse | Source | Status | Subject | TokenEndpointAuthMethod | TokenHash | TokenId
    | Tool | UpdatedAt | UserCode | ValueText

  datatype Kind = Text | TextArray | Jsonb | Boolean | Smallint | Int | Bigint | Timestamptz

  datatype Default =
    | NoDefault | Zero | One | False | EmptyText | EmptyArray | EmptyObject | S256 | Now | ClockNow | CurrentEpoch

  datatype ColumnDef = ColumnDef(kind: Kind, required: bool, default: Default)

  datatype OnDelete = NoAction | Cascade | SetNull
  datatype Reference = Reference(target: TableName, onDelete: OnDelete)

  /** The CHECK constraints, by the names they have in the schema; an unnamed one has its column's. */
  datatype Check =
    | AdminCredentialId | DeviceStatus | DeviceConsumedAtMatchesStatus | CodeMethodIsS256
    | CodeConsumedByRequiresConsumedAt | TokenConsumedRequiresSingleUse | TokenOperationBindingIsComplete
    | TokenSingleUseIsBound | GrantReasonRequiresRevocation | RefreshFamilyReasonRequiresRevocation
    | RefreshFamilyAbsoluteAfterCreation | RefreshTokenReplacementRequiresConsumption | ApprovalStatus
    | ApprovalDecidedAtMatchesStatus | ApprovalConsumedAtMatchesStatus | ApprovalReceiptRequiresADecision
    | ApprovalConsumedImpliesReceipt | WindowConsumptionsArePositive | WindowConsumedWithinItsBound
    | WindowExpiresAfterItIsCreated | WindowRevokedReasonNeedsARevocation | WindowScopeShape

  /** Every key of the schema is one column; its values index the rows. */
  datatype Table = Table(key: Column, columns: map<Column, ColumnDef>, uniques: set<Column>,
                         checks: set<Check>, references: map<Column, Reference>)

  datatype IndexName =
    | TokensLiveName | TokensNameKey | DeviceUserCode | OauthCodesExpiry | OauthTokensExpiry
    | OauthPendingSource | OauthPendingExpiry | OauthSessionsExpiry | OauthGrantsLive | OauthTokensSubject
    | OauthRefreshTokensFamily | OauthRefreshTokensExpiry | OauthRefreshFamiliesGrant | AuditEventRecorded
    | AuditEventGrant | ApprovalReceipt | ApprovalGrant | ApprovalWindowMatch | ApprovalWindowGrant
    | ApprovalWindowClientLive

  /** The rows a partial index covers. */
  datatype Filter = AllRows | NotRevoked | NotConsumed | StatusPending | GrantKnown | ReceiptKnown | ClientBoundLive

  datatype Index = Index(table: TableName, columns: seq<Column>, descending: set<Column>, unique: bool,
                         filter: Filter)

  /** `epochFunction` is whether control.current_recovery_epoch() exists. */
  datatype Catalog = Catalog(tables: map<TableName, Table>, indexes: map<IndexName, Index>, epochFunction: bool)

  const EMPTY_CATALOG := Catalog(map[], map[], false)

  // ---------------------------------------------------------------- rows

  datatype Cell = Null | Number(n: int) | Flag(b: bool) | Word(w: string) | Words(ws: set<string>)

  /** A row without its key; a column that is not written is null. */
  type Row = map<Column, Cell>
  type Rows = map<TableName, map<Cell, Row>>

  /** `ledger` is the table schema_migrations, which only `migrate` creates. */
  datatype Db = Db(catalog: Catalog, rows: Rows, ledger: Option<set<nat>>)

  function At(row: Row, c: Column): Cell {
    if c in row then row[c] else Null
  }

  predicate Fits(kind: Kind, cell: Cell) {
    match cell
    case Null => true
    case Number(n) =>
      (match kind
       case Smallint => -0x8000 <= n < 0x8000
       case Int => -0x8000_0000 <= n < 0x8000_0000
       case Bigint => -0x8000_0000_0000_0000 <= n < 0x8000_0000_0000_0000
       case Timestamptz => true
       case _ => false)
    case Flag(_) => kind.Boolean?
    case Word(_) => kind.Text? || kind.Jsonb?
    case Words(_) => kind.TextArray?
  }

  /** `a > b`, which is unknown of a null. */
  predicate Exceeds(a: Cell, b: Cell) {
    a.Number? && b.Number? && a.n > b.n
  }

  predicate AtMost(a: Cell, b: Cell) {
    a.Number? && b.Number? && a.n <= b.n
  }

  predicate Decided(status: Cell) {
    status in {Word("approved"), Word("declined"), Word("consumed")}
  }

  /** What a check says of a row: a check that is unknown because of a null passes. */
  predicate Passes(k: Check, id: Cell, row: Row) {
    match k
    case AdminCredentialId => id == Number(1)
    case DeviceStatus =>
      At(row, Status) in {Null, Word("pending"), Word("approved"), Word("consumed"), Word("revoked")}
    case DeviceConsumedAtMatchesStatus =>
      At(row, Status) == Null || ((At(row, Status) == Word("consumed")) == (At(row, ConsumedAt) != Null))
    case CodeMethodIsS256 => At(row, CodeChallengeMethod) in {Null, Word("S256")}
    case CodeConsumedByRequiresConsumedAt => At(row, ConsumedBy) == Null || At(row, ConsumedAt) != Null
    case TokenConsumedRequiresSingleUse => At(row, ConsumedAt) == Null || At(row, SingleUse) != Flag(false)
    case TokenOperationBindingIsComplete => (At(row, OperationId) == Null) == (At(row, RequestDigest) == Null)
    case TokenSingleUseIsBound => At(row, SingleUse) != Flag(true) || At(row, OperationId) != Null
    case GrantReasonRequiresRevocation => At(row, RevokedReason) == Null || At(row, RevokedAt) != Null
    case RefreshFamilyReasonRequiresRevocation => At(row, RevokedReason) == Null || At(row, RevokedAt) != Null
    case RefreshFamilyAbsoluteAfterCreation => !AtMost(At(row, AbsoluteExpiresAt), At(row, CreatedAt))
    case RefreshTokenReplacementRequiresConsumption => At(row, ReplacedBy) == Null || At(row, ConsumedAt) != Null
    case ApprovalStatus =>
      At(row, Status) in {Null, Word("pending"), Word("approved"), Word("declined"), Word("consumed")}
    case ApprovalDecidedAtMatchesStatus =>
      At(row, Status) == Null || (Decided(At(row, Status)) == (At(row, DecidedAt) != Null))
    case ApprovalConsumedAtMatchesStatus =>
      At(row, Status) == Null || ((At(row, Status) == Word("consumed")) == (At(row, ConsumedAt) != Null))
    case ApprovalReceiptRequiresADecision =>
      At(row, ReceiptHash) == Null || At(row, Status) in {Null, Word("approved"), Word("consumed")}
    case ApprovalConsumedImpliesReceipt => At(row, Status) != Word("consumed") || At(row, ReceiptHash) != Null
    case WindowConsumptionsArePositive => !AtMost(At(row, MaxConsumptions), Number(0))
    case WindowConsumedWithinItsBound =>
      !Exceeds(Number(0), At(row, Consumed)) && !Exceeds(At(row, Consumed), At(row, MaxConsumptions))
    case WindowExpiresAfterItIsCreated => !AtMost(At(row, ExpiresAt), At(row, CreatedAt))
    case WindowRevokedReasonNeedsARevocation => At(row, RevokedReason) == Null || At(row, RevokedAt) != Null
    case WindowScopeShape =>
      (At(row, ClientBound) != Flag(false) && forall c | c in BOUNDS :: At(row, c) == Null)
      || (At(row, ClientBound) != Flag(true) && forall c | c in BOUNDS :: At(row, c) != Null)
  }

  /** The columns in which a window bound to a grant says what it covers. */
  const BOUNDS: set<Column> := {GrantId, ActionClass, ExpiresAt, MaxConsumptions}

  /** The columns a check is about; it goes with any of them. */
  function Mentions(k: Check): set<Column> {
    match k
    case AdminCredentialId => {Id}
    case DeviceStatus => {Status}
    case DeviceConsumedAtMatchesStatus => {Status, ConsumedAt}
    case CodeMethodIsS256 => {CodeChallengeMethod}
    case CodeConsumedByRequiresConsumedAt => {ConsumedBy, ConsumedAt}
    case TokenConsumedRequiresSingleUse => {ConsumedAt, SingleUse}
    case TokenOperationBindingIsComplete => {OperationId, RequestDigest}
    case TokenSingleUseIsBound => {SingleUse, OperationId}
    case GrantReasonRequiresRevocation => {RevokedReason, RevokedAt}
    case RefreshFamilyReasonRequiresRevocation => {RevokedReason, RevokedAt}
    case RefreshFamilyAbsoluteAfterCreation => {AbsoluteExpiresAt, CreatedAt}
    case RefreshTokenReplacementRequiresConsumption => {ReplacedBy, ConsumedAt}
    case ApprovalStatus => {Status}
    case ApprovalDecidedAtMatchesStatus => {Status, DecidedAt}
    case ApprovalConsumedAtMatchesStatus => {Status, ConsumedAt}
    case ApprovalReceiptRequiresADecision => {ReceiptHash, Status}
    case ApprovalConsumedImpliesReceipt => {ReceiptHash, Status}
    case WindowConsumptionsArePositive => {MaxConsumptions}
    case WindowConsumedWithinItsBound => {Consumed, MaxConsumptions}
    case WindowExpiresAfterItIsCreated => {ExpiresAt, CreatedAt}
    case WindowRevokedReasonNeedsARevocation => {RevokedReason, RevokedAt}
    case WindowScopeShape => {ClientBound} + BOUNDS
  }

  predicate CellConforms(def: ColumnDef, cell: Cell) {
    Fits(def.kind, cell) && (def.required ==> cell != Null)
  }

  predicate RowConforms(table: Table, id: Cell, row: Row) {
    id != Null && (forall c <- table.columns | c != table.key :: CellConforms(table.columns[c], At(row, c)))
    && forall k <- table.checks :: Passes(k, id, row)
  }

  predicate TableConforms(table: Table, rows: map<Cell, Row>) {
    forall id <- rows :: RowConforms(table, id, rows[id])
  }

  /** The rows are rows of the tables there are, and satisfy what their tables demand of one row. */
  predicate Conforms(catalog: Catalog, rows: Rows) {
    rows.Keys == catalog.tables.Keys && forall t <- rows :: TableConforms(catalog.tables[t], rows[t])
  }

  predicate Covers(f: Filter, row: Row) {
    match f
    case AllRows => true
    case NotRevoked => At(row, RevokedAt) == Null
    case NotConsumed => At(row, ConsumedAt) == Null
    case StatusPending => At(row, Status) == Word("pending")
    case GrantKnown => At(row, GrantId) != Null
    case ReceiptKnown => At(row, ReceiptHash) != Null
    case ClientBoundLive => At(row, ClientBound) == Flag(true) && At(row, RevokedAt) == Null
  }

  function FilterColumns(f: Filter): set<Column> {
    match f
    case AllRows => {}
    case NotRevoked => {RevokedAt}
    case NotConsumed => {ConsumedAt}
    case StatusPending => {Status}
    case GrantKnown => {GrantId}
    case ReceiptKnown => {ReceiptHash}
    case ClientBoundLive => {ClientBound, RevokedAt}
  }

  function IndexColumns(i: Index): set<Column> {
    (set c | c in i.columns) + FilterColumns(i.filter)
  }

  /** Two rows clash in a unique index when it covers both and their values are equal and none is null. */
  predicate Clash(i: Index, a: Row, b: Row) {
    Covers(i.filter, a) && Covers(i.filter, b)
    && forall c <- i.columns :: At(a, c) != Null && At(a, c) == At(b, c)
  }

  predicate Distinct(i: Index, rows: map<Cell, Row>) {
    forall x <- rows, y <- rows | x != y :: !Clash(i, rows[x], rows[y])
  }

  // ---------------------------------------------------------------- statements

  datatype Action =
    | AddColumn(column: Column, def: ColumnDef, reference: Option<Reference>)
    | DropColumn(dropped: Column, ifExists: bool)
    | AddCheck(check: Check)
    | DropCheck(gone: Check, ifExists: bool)
    | SetDefault(of: Column, default: Default)
    | SetRequired(at: Column, required: bool)
    | SetKind(typed: Column, kind: Kind)

  /** The rows a data statement of the ladder is about. */
  datatype Condition = Live | WindowDecided | ClientDecided | BoundToClient

  datatype Statement =
    | CreateTable(name: TableName, def: Table)
    | DropTables(names: set<TableName>)
    | AlterTable(altered: TableName, action: Action)
    | CreateIndex(index: IndexName, on: Index)
    | DropIndex(index: IndexName, ifExists: bool)
    | CreateEpochFunction
    | DropEpochFunction
    | Revoke(revoked: TableName, where: Condition, reason: string)
    | Delete(from: TableName, where: Condition)
    | InsertIfAbsent(into: TableName, id: Cell, row: Row)
    | DeleteRow(from: TableName, id: Cell)

  function Altered(t: Table, a: Action): Table {
    match a
    case AddColumn(c, def, ref) =>
      t.(columns := t.columns[c := def],
         references := if ref.Some? then t.references[c := ref.value] else t.references)
    case DropColumn(c, _) =>
      t.(columns := t.columns - {c}, uniques := t.uniques - {c}, references := t.references - {c},
         checks := set k | k in t.checks && c !in Mentions(k))
    case AddCheck(k) => t.(checks := t.checks + {k})
    case DropCheck(k, _) => t.(checks := t.checks - {k})
    case SetDefault(c, d) =>
      if c in t.columns then t.(columns := t.columns[c := t.columns[c].(default := d)]) else t
    case SetRequired(c, r) =>
      if c in t.columns then t.(columns := t.columns[c := t.columns[c].(required := r)]) else t
    case SetKind(c, k) =>
      if c in t.columns then t.(columns := t.columns[c := t.columns[c].(kind := k)]) else t
  }

  /** A table whose defaults no longer call the epoch function. */
  function Stripped(t: Table): Table {
    t.(columns := map c | c in t.columns ::
      if t.columns[c].default == CurrentEpoch then t.columns[c].(default := NoDefault) else t.columns[c])
  }

  /** What a statement makes of the catalogue. A dropped table takes its indexes with it, a dropped column
      the checks, references and indexes that name it, the dropped function the defaults that call it. */
  function Effect(cat: Catalog, s: Statement): Catalog {
    match s
    case CreateTable(t, def) => cat.(tables := cat.tables[t := def])
    case DropTables(ts) =>
      cat.(tables := cat.tables - ts,
           indexes := map i | i in cat.indexes && cat.indexes[i].table !in ts :: cat.indexes[i])
    case AlterTable(t, a) =>
      if t !in cat.tables then cat
      else cat.(tables := cat.tables[t := Altered(cat.tables[t], a)],
                indexes := if a.DropColumn? then WithoutColumn(cat.indexes, t, a.dropped) else cat.indexes)
    case CreateIndex(i, def) => cat.(indexes := cat.indexes[i := def])
    case DropIndex(i, _) => cat.(indexes := cat.indexes - {i})
    case CreateEpochFunction => cat.(epochFunction := true)
    case DropEpochFunction =>
      Catalog(map t | t in cat.tables :: Stripped(cat.tables[t]), cat.indexes, false)
    case _ => cat
  }

  function WithoutColumn(indexes: map<IndexName, Index>, t: TableName, c: Column): map<IndexName, Index> {
    map i | i in indexes && !(indexes[i].table == t && c in IndexColumns(indexes[i])) :: indexes[i]
  }

  predicate EpochAvailable(cat: Catalog, d: Default) {
    d == CurrentEpoch ==> cat.epochFunction
  }

  /** The statement finds the objects it names, and none that stands in its way. */
  predicate Legal(cat: Catalog, s: Statement) {
    match s
    case CreateTable(t, def) =>
      && t !in cat.tables && def.key in def.columns
      && def.uniques <= def.columns.Keys && def.references.Keys <= def.columns.Keys
      && (forall c <- def.columns :: EpochAvailable(cat, def.columns[c].default))
      && (forall c <- def.references :: def.references[c].target in cat.tables.Keys + {t})
      && forall k <- def.checks :: Mentions(k) <= def.columns.Keys
    case DropTables(ts) => forall u <- cat.tables | u !in ts :: References(cat.tables[u]) !! ts
    case AlterTable(t, a) => t in cat.tables && LegalAction(cat, cat.tables[t], a)
    case CreateIndex(i, def) =>
      i !in cat.indexes && def.table in cat.tables && IndexColumns(def) <= cat.tables[def.table].columns.Keys
    case DropIndex(i, ifExists) => ifExists || i in cat.indexes
    case CreateEpochFunction => Metadata in cat.tables
    case DropEpochFunction => true
    case Revoke(t, where, _) =>
      t in cat.tables && {RevokedAt, RevokedReason} <= cat.tables[t].columns.Keys
      && (where == ClientDecided ==> ApprovalWindows in cat.tables)
    case Delete(t, _) => t in cat.tables && forall u <- cat.tables :: LetsGo(cat.tables[u], t)
    case InsertIfAbsent(t, _, _) => t in cat.tables
    case DeleteRow(t, _) => t in cat.tables && forall u <- cat.tables :: t !in References(cat.tables[u])
  }

  predicate LegalAction(cat: Catalog, t: Table, a: Action) {
    match a
    case AddColumn(c, def, ref) =>
      c !in t.columns && EpochAvailable(cat, def.default) && (ref.Some? ==> ref.value.target in cat.tables)
    case DropColumn(c, ifExists) => (ifExists || c in t.columns) && c != t.key
    case AddCheck(k) => k !in t.checks && Mentions(k) <= t.columns.Keys
    case DropCheck(k, ifExists) => ifExists || k in t.checks
    case SetDefault(c, d) => c in t.columns && EpochAvailable(cat, d)
    case SetRequired(c, _) => c in t.columns
    case SetKind(c, _) => c in t.columns
  }

  function References(t: Table): set<TableName> {
    set c | c in t.references :: t.references[c].target
  }

  /** Rows of `gone` can be deleted under this table's references: each of them is set to null. */
  predicate LetsGo(t: Table, gone: TableName) {
    forall c <- t.references | t.references[c].target == gone :: t.references[c].onDelete == SetNull
  }

  // ---------------------------------------------------------------- what a statement does to the rows

  function Initial(d: Default, now: int): Cell {
    match d
    case NoDefault => Null
    case Zero => Number(0)
    case One => Number(1)
    case False => Flag(false)
    case EmptyText => Word("")
    case EmptyArray => Words({})
    case EmptyObject => Word("{}")
    case S256 => Word("S256")
    case Now => Number(now)
    case ClockNow => Number(now)
    case CurrentEpoch => Number(0)
  }

  predicate Spendable(row: Row) {
    At(row, RevokedAt) == Null && At(row, Status) in {Word("pending"), Word("approved")}
  }

  predicate Selected(where: Condition, rows: Rows, row: Row) {
    match where
    case Live => At(row, RevokedAt) == Null
    case WindowDecided => At(row, DecidedByWindow) != Null && Spendable(row)
    case ClientDecided => IsClientWindow(rows, At(row, DecidedByWindow)) && Spendable(row)
    case BoundToClient => At(row, ClientBound) == Flag(true)
  }

  predicate IsClientWindow(rows: Rows, id: Cell) {
    ApprovalWindows in rows && id in rows[ApprovalWindows]
    && At(rows[ApprovalWindows][id], ClientBound) == Flag(true)
  }

  function RevokedRow(row: Row, now: int, reason: string): Row {
    row[RevokedAt := Number(now)][RevokedReason := Word(reason)]
  }

  function RevokedRows(rows: Rows, t: TableName, where: Condition, now: int, reason: string): map<Cell, Row>
    requires t in rows
  {
    map id | id in rows[t] :: if Selected(where, rows, rows[t][id]) then RevokedRow(rows[t][id], now, reason)
                              else rows[t][id]
  }

  function Kept(rows: Rows, t: TableName, where: Condition): map<Cell, Row>
    requires t in rows
  {
    map id | id in rows[t] && !Selected(where, rows, rows[t][id]) :: rows[t][id]
  }

  /** The rows of a table after rows of `gone` are deleted: a reference to one of them is set to null. */
  function Released(table: Table, rows: map<Cell, Row>, gone: TableName, ids: set<Cell>): map<Cell, Row> {
    map id | id in rows :: ReleasedRow(table, rows[id], gone, ids)
  }

  function ReleasedRow(table: Table, row: Row, gone: TableName, ids: set<Cell>): Row {
    map c | c in row ::
      if c in table.references && table.references[c].target == gone && row[c] in ids then Null else row[c]
  }

  function RowsAfter(cat: Catalog, rows: Rows, s: Statement, now: int): (r: Rows)
    requires rows.Keys == cat.tables.Keys
    requires Legal(cat, s)
    ensures r.Keys == Effect(cat, s).tables.Keys
  {
    match s
    case CreateTable(t, _) => rows[t := map[]]
    case DropTables(ts) => rows - ts
    case AlterTable(t, AddColumn(c, def, _)) =>
      rows[t := map id | id in rows[t] :: rows[t][id][c := Initial(def.default, now)]]
    case AlterTable(t, DropColumn(c, _)) => rows[t := map id | id in rows[t] :: rows[t][id] - {c}]
    case Revoke(t, where, reason) => rows[t := RevokedRows(rows, t, where, now, reason)]
    case Delete(t, where) =>
      var kept := Kept(rows, t, where);
      map u | u in rows :: if u == t then kept
                           else Released(cat.tables[u], rows[u], t, rows[t].Keys - kept.Keys)
    case InsertIfAbsent(t, id, row) => if id in rows[t] then rows else rows[t := rows[t][id := row]]
    case DeleteRow(t, id) => rows[t := rows[t] - {id}]
    case _ => rows
  }

  /** What the server tests of the rows there are: new demands are tested on every row, and a changed row
      on every demand. */
  predicate RowsAdmit(cat: Catalog, rows: Rows, s: Statement, now: int)
    requires rows.Keys == cat.tables.Keys
    requires Legal(cat, s)
  {
    match s
    case AlterTable(t, AddColumn(c, def, _)) => rows[t] == map[] || CellConforms(def, Initial(def.default, now))
    case AlterTable(t, AddCheck(k)) => forall id <- rows[t] :: Passes(k, id, rows[t][id])
    case AlterTable(t, SetRequired(c, required)) => required ==> forall id <- rows[t] :: At(rows[t][id], c) != Null
    case AlterTable(t, SetKind(c, kind)) => forall id <- rows[t] :: Fits(kind, At(rows[t][id], c))
    case CreateIndex(_, def) => def.unique ==> Distinct(def, rows[def.table])
    case Revoke(_, _, _) => Conforms(cat, RowsAfter(cat, rows, s, now))
    case Delete(_, _) => Conforms(cat, RowsAfter(cat, rows, s, now))
    case InsertIfAbsent(t, id, row) => id in rows[t] || RowConforms(cat.tables[t], id, row)
    case _ => true
  }

  datatype Failure =
    | Refused(statement: Statement)
    | NoLedger
    | NegativeTarget
    | NoRollback(version: nat)
    | DataLoss(version: nat)

  function Exec(db: Db, s: Statement, now: int): (r: Result<Db, Failure>)
    requires db.rows.Keys == db.catalog.tables.Keys
    ensures r.Ok? ==> r.value.rows.Keys == r.value.catalog.tables.Keys
  {
    if Legal(db.catalog, s) && RowsAdmit(db.catalog, db.rows, s, now) then
      Ok(db.(catalog := Effect(db.catalog, s), rows := RowsAfter(db.catalog, db.rows, s, now)))
    else Err(Refused(s))
  }

  /** A script runs until a statement is refused. */
  function Execute(db: Db, script: seq<Statement>, now: int): (r: Result<Db, Failure>)
    requires db.rows.Keys == db.catalog.tables.Keys
    ensures r.Ok? ==> r.value.rows.Keys == r.value.catalog.tables.Keys
    decreases |script|
  {
    if script == [] then Ok(db)
    else
      var next :- Exec(db, script[0], now);
      Execute(next, script[1..], now)
  }

  /** The catalogue after a script, whatever the rows are. */
  function Effects(cat: Catalog, script: seq<Statement>): Catalog
    decreases |script|
  {
    if script == [] then cat else Effects(Effect(cat, script[0]), script[1..])
  }

  predicate AllLegal(cat: Catalog, script: seq<Statement>)
    decreases |script|
  {
    script == [] || (Legal(cat, script[0]) && AllLegal(Effect(cat, script[0]), script[1..]))
  }
}
