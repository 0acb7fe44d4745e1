/** The migration ladder (config-ui/control_schema.py): eleven forward scripts, their rollbacks, and the two
    procedures that step a database up and down under one lock and in one transaction. */
module LadderModel {
  import opened SchemaModel
  import opened Wrappers

  function Needed(kind: Kind): ColumnDef { ColumnDef(kind, true, NoDefault) }
  function Optional(kind: Kind): ColumnDef { ColumnDef(kind, false, NoDefault) }
  function Defaulted(kind: Kind, default: Default): ColumnDef { ColumnDef(kind, true, default) }

  const PARENT_CLIENT := Reference(OauthClients, NoAction)

  // ---------------------------------------------------------------- the tables as they are created

  function MetadataTable(): Table {
    Table(Key, map[Key := Needed(Text), ValueText := Needed(Text)], {}, {}, map[])
  }

  function AdminCredentialTable(): Table {
    Table(Id, map[Id := Defaulted(Smallint, One), Encoded := Needed(Text), UpdatedAt := Defaulted(Timestamptz, Now)],
          {}, {AdminCredentialId}, map[])
  }

  function SessionsTable(): Table {
    Table(SessionHash,
          map[SessionHash := Needed(Text), CsrfHash := Needed(Text), CreatedAt := Needed(Timestamptz),
              LastUsedAt := Needed(Timestamptz), Remote := Optional(Text),
              RecoveryEpoch := Defaulted(Bigint, Zero)],
          {}, {}, map[])
  }

  function TokensTable(): Table {
    Table(TokenHash,
          map[TokenHash := Needed(Text), TokenId := Needed(Text), Name := Needed(Text), NameKey := Needed(Text),
              CreatedAt := Needed(Timestamptz), ExpiresAt := Optional(Timestamptz),
              LastUsedAt := Optional(Timestamptz), RevokedAt := Optional(Timestamptz),
              Scopes := Needed(TextArray), RecoveryEpoch := Defaulted(Bigint, Zero)],
          {TokenId}, {}, map[])
  }

  function DeviceAuthorizationsTable(): Table {
    Table(IdHash,
          map[IdHash := Needed(Text), UserCode := Needed(Text), DeviceName := Needed(Text),
              Scopes := Needed(TextArray), CreatedAt := Needed(Timestamptz), ExpiresAt := Needed(Timestamptz),
              Remote := Optional(Text), Status := Needed(Text), ApprovedAt := Optional(Timestamptz),
              ConsumedAt := Optional(Timestamptz), TokenId := Optional(Text),
              RecoveryEpoch := Defaulted(Bigint, Zero)],
          {}, {DeviceStatus, DeviceConsumedAtMatchesStatus}, map[])
  }

  function OauthClientsTable(): Table {
    Table(ClientId,
          map[ClientId := Needed(Text), Name := Needed(Text), RedirectUris := Needed(TextArray),
              Scopes := Needed(TextArray), GrantTypes := Needed(TextArray),
              TokenEndpointAuthMethod := Needed(Text), ClientSecretHash := Optional(Text),
              CreatedAt := Defaulted(Timestamptz, Now), DisabledAt := Optional(Timestamptz)],
          {}, {}, map[])
  }

  function OauthAuthorizationCodesTable(): Table {
    Table(CodeHash,
          map[CodeHash := Needed(Text), ClientId := Needed(Text), RedirectUri := Needed(Text),
              Scope := Needed(Text), Subject := Needed(Text), CodeChallenge := Needed(Text),
              CodeChallengeMethod := Defaulted(Text, S256), CreatedAt := Defaulted(Timestamptz, Now),
              ExpiresAt := Needed(Timestamptz), ConsumedAt := Optional(Timestamptz),
              ConsumedBy := Optional(Text), RecoveryEpoch := Defaulted(Bigint, Zero)],
          {}, {CodeMethodIsS256, CodeConsumedByRequiresConsumedAt}, map[ClientId := PARENT_CLIENT])
  }

  function OauthTokensTable(): Table {
    Table(TokenHash,
          map[TokenHash := Needed(Text), ClientId := Needed(Text), Subject := Needed(Text), Scope := Needed(Text),
              Audience := Needed(Text), IssuedAt := Defaulted(Timestamptz, Now),
              ExpiresAt := Needed(Timestamptz), RevokedAt := Optional(Timestamptz),
              ConsumedAt := Optional(Timestamptz), SingleUse := Defaulted(Boolean, False),
              RecoveryEpoch := Defaulted(Bigint, Zero)],
          {}, {TokenConsumedRequiresSingleUse}, map[ClientId := PARENT_CLIENT])
  }

  function OauthPendingAuthorizationsTable(): Table {
    Table(RequestId,
          map[RequestId := Needed(Text), Query := Needed(Text), ClientId := Needed(Text),
              RedirectUri := Needed(Text), Scopes := Needed(TextArray), Csrf := Needed(Text),
              SessionHash := Defaulted(Text, EmptyText), Source := Defaulted(Text, EmptyText),
              CreatedAt := Defaulted(Timestamptz, Now), ExpiresAt := Needed(Timestamptz),
              ConsumedAt := Optional(Timestamptz), RecoveryEpoch := Defaulted(Bigint, Zero)],
          {}, {}, map[ClientId := PARENT_CLIENT])
  }

  function OauthSessionsTable(): Table {
    Table(SessionHash,
          map[SessionHash := Needed(Text), Subject := Needed(Text), AuthTime := Needed(Timestamptz),
              CreatedAt := Defaulted(Timestamptz, Now), ExpiresAt := Needed(Timestamptz),
              RecoveryEpoch := Defaulted(Bigint, Zero)],
          {}, {}, map[])
  }

  function OauthGrantsTable(): Table {
    Table(GrantId,
          map[GrantId := Needed(Text), ClientId := Needed(Text), Subject := Needed(Text),
              Scopes := Needed(TextArray), CreatedAt := Defaulted(Timestamptz, Now),
              RevokedAt := Optional(Timestamptz), RevokedReason := Optional(Text),
              RecoveryEpoch := Defaulted(Bigint, Zero)],
          {}, {GrantReasonRequiresRevocation}, map[ClientId := PARENT_CLIENT])
  }

  function OauthRefreshFamiliesTable(): Table {
    Table(FamilyId,
          map[FamilyId := Needed(Text), GrantId := Needed(Text), ClientId := Needed(Text), Scope := Needed(Text),
              CreatedAt := Defaulted(Timestamptz, Now), AbsoluteExpiresAt := Needed(Timestamptz),
              RevokedAt := Optional(Timestamptz), RevokedReason := Optional(Text),
              RecoveryEpoch := Defaulted(Bigint, CurrentEpoch)],
          {}, {RefreshFamilyReasonRequiresRevocation, RefreshFamilyAbsoluteAfterCreation},
          map[ClientId := PARENT_CLIENT])
  }

  function OauthRefreshTokensTable(): Table {
    Table(TokenHash,
          map[TokenHash := Needed(Text), FamilyId := Needed(Text), IssuedAt := Defaulted(Timestamptz, Now),
              IdleExpiresAt := Needed(Timestamptz), ConsumedAt := Optional(Timestamptz),
              ReplacedBy := Optional(Text)],
          {}, {RefreshTokenReplacementRequiresConsumption},
          map[FamilyId := Reference(OauthRefreshFamilies, Cascade),
              ReplacedBy := Reference(OauthRefreshTokens, NoAction)])
  }

  function AuditEventTable(): Table {
    Table(EventId,
          map[EventId := Needed(Text), RecordedAt := Defaulted(Timestamptz, ClockNow), Event := Needed(Text),
              Actor := Needed(Text), ClientId := Optional(Text), GrantId := Optional(Text),
              Detail := Defaulted(Jsonb, EmptyObject)],
          {}, {}, map[])
  }

  function ApprovalsTable(): Table {
    Table(IdHash,
          map[IdHash := Needed(Text), GrantId := Needed(Text), ClientId := Needed(Text), Instance := Needed(Text),
              OperationId := Needed(Text), Tool := Needed(Text), RequestDigest := Needed(Text),
              Risk := Needed(Text), Scopes := Needed(TextArray), Packet := Needed(Jsonb),
              CreatedAt := Needed(Timestamptz), ExpiresAt := Needed(Timestamptz), Status := Needed(Text),
              DecidedAt := Optional(Timestamptz), DecidedBy := Optional(Text), ReceiptHash := Optional(Text),
              ConsumedAt := Optional(Timestamptz), RevokedAt := Optional(Timestamptz),
              RevokedReason := Optional(Text), RecoveryEpoch := Defaulted(Bigint, CurrentEpoch)],
          {}, {ApprovalStatus, ApprovalDecidedAtMatchesStatus, ApprovalConsumedAtMatchesStatus,
               ApprovalReceiptRequiresADecision, ApprovalConsumedImpliesReceipt}, map[])
  }

  function ApprovalWindowsTable(): Table {
    Table(Id,
          map[Id := Needed(Text), GrantId := Needed(Text), ClientId := Needed(Text), Instance := Needed(Text),
              ActionClass := Needed(Text), CreatedBy := Needed(Text), CreatorAuthTime := Needed(Timestamptz),
              CreatedAt := Needed(Timestamptz), ExpiresAt := Needed(Timestamptz),
              MaxConsumptions := Needed(Int), Consumed := Defaulted(Int, Zero),
              RevokedAt := Optional(Timestamptz), RevokedReason := Optional(Text),
              RecoveryEpoch := Defaulted(Bigint, CurrentEpoch)],
          {}, {WindowConsumptionsArePositive, WindowConsumedWithinItsBound, WindowExpiresAfterItIsCreated,
               WindowRevokedReasonNeedsARevocation}, map[])
  }

  function Original(t: TableName): Table {
    match t
    case Metadata => MetadataTable()
    case AdminCredential => AdminCredentialTable()
    case Sessions => SessionsTable()
    case Tokens => TokensTable()
    case DeviceAuthorizations => DeviceAuthorizationsTable()
    case OauthClients => OauthClientsTable()
    case OauthAuthorizationCodes => OauthAuthorizationCodesTable()
    case OauthTokens => OauthTokensTable()
    case OauthPendingAuthorizations => OauthPendingAuthorizationsTable()
    case OauthSessions => OauthSessionsTable()
    case OauthGrants => OauthGrantsTable()
    case OauthRefreshFamilies => OauthRefreshFamiliesTable()
    case OauthRefreshTokens => OauthRefreshTokensTable()
    case AuditEvent => AuditEventTable()
    case Approvals => ApprovalsTable()
    case ApprovalWindows => ApprovalWindowsTable()
  }

  // ---------------------------------------------------------------- the scripts

  const TOP: nat := 11

  function Create(t: TableName): Statement { CreateTable(t, Original(t)) }

  function Listed(i: IndexName, t: TableName, columns: seq<Column>, filter: Filter): Statement {
    CreateIndex(i, Index(t, columns, {}, false, filter))
  }

  function Unique(i: IndexName, t: TableName, columns: seq<Column>, filter: Filter): Statement {
    CreateIndex(i, Index(t, columns, {}, true, filter))
  }

  /** The tables with an epoch when the epoch became a mechanism; later tables are created with it. */
  const EPOCH_TABLES: seq<TableName> :=
    [Tokens, OauthTokens, OauthGrants, Sessions, OauthSessions, DeviceAuthorizations, OauthAuthorizationCodes,
     OauthPendingAuthorizations]

  function EpochDefaults(tables: seq<TableName>, default: Default): seq<Statement> {
    seq(|tables|, i requires 0 <= i < |tables| => AlterTable(tables[i], SetDefault(RecoveryEpoch, default)))
  }

  const EPOCH_KEY := Word("recovery_epoch")
  const REPLACED := "replaced by client approvals"
  const ROLLED_BACK := "client approvals rolled back"

  function Migration1(): seq<Statement> {
    SiteTables() + TokenTables()
  }

  /** The statements of migration 1, in two parts. */
  function SiteTables(): seq<Statement> {
    [Create(Metadata), Create(AdminCredential), Create(Sessions)]
  }

  function TokenTables(): seq<Statement> {
    [Create(Tokens),
     Unique(TokensLiveName, Tokens, [NameKey], NotRevoked),
     Listed(TokensNameKey, Tokens, [NameKey], AllRows),
     Create(DeviceAuthorizations),
     Unique(DeviceUserCode, DeviceAuthorizations, [UserCode], StatusPending)]
  }

  function Migration2(): seq<Statement> {
    ClientTables() + SessionTables()
  }

  /** The statements of migration 2, in two parts. */
  function ClientTables(): seq<Statement> {
    [Create(OauthClients), Create(OauthAuthorizationCodes),
     Listed(OauthCodesExpiry, OauthAuthorizationCodes, [ExpiresAt], AllRows),
     Create(OauthTokens),
     Listed(OauthTokensExpiry, OauthTokens, [ExpiresAt], AllRows)]
  }

  function SessionTables(): seq<Statement> {
    [Create(OauthPendingAuthorizations),
     Listed(OauthPendingSource, OauthPendingAuthorizations, [Source], NotConsumed),
     Listed(OauthPendingExpiry, OauthPendingAuthorizations, [ExpiresAt], AllRows),
     Create(OauthSessions),
     Listed(OauthSessionsExpiry, OauthSessions, [ExpiresAt], AllRows)]
  }

  function Migration3(): seq<Statement> {
    [AlterTable(OauthTokens, AddColumn(OperationId, Optional(Text), None)),
     AlterTable(OauthTokens, AddColumn(RequestDigest, Optional(Text), None)),
     AlterTable(OauthTokens, AddColumn(ActorClientId, Optional(Text), None)),
     AlterTable(OauthTokens, AddColumn(BrokerClientId, Optional(Text), None)),
     AlterTable(OauthTokens, AddCheck(TokenOperationBindingIsComplete)),
     AlterTable(OauthTokens, AddCheck(TokenSingleUseIsBound))]
  }

  function Migration4(): seq<Statement> {
    [Create(OauthGrants),
     Listed(OauthGrantsLive, OauthGrants, [ClientId], NotRevoked),
     Listed(OauthTokensSubject, OauthTokens, [Subject], AllRows)]
  }

  function Migration5(): seq<Statement> {
    [InsertIfAbsent(Metadata, EPOCH_KEY, map[ValueText := Word("0")]), CreateEpochFunction]
    + EpochDefaults(EPOCH_TABLES, CurrentEpoch)
  }

  function Migration6(): seq<Statement> {
    [Create(OauthRefreshFamilies), Create(OauthRefreshTokens),
     Listed(OauthRefreshTokensFamily, OauthRefreshTokens, [FamilyId], AllRows),
     Listed(OauthRefreshTokensExpiry, OauthRefreshTokens, [IdleExpiresAt], AllRows),
     Listed(OauthRefreshFamiliesGrant, OauthRefreshFamilies, [GrantId], NotRevoked)]
  }

  function Migration7(): seq<Statement> {
    [Create(AuditEvent),
     CreateIndex(AuditEventRecorded, Index(AuditEvent, [RecordedAt, EventId], {RecordedAt, EventId}, false, AllRows)),
     CreateIndex(AuditEventGrant, Index(AuditEvent, [GrantId, RecordedAt], {RecordedAt}, false, GrantKnown))]
  }

  function Migration8(): seq<Statement> {
    [AlterTable(OauthClients, AddColumn(Capabilities, Defaulted(TextArray, EmptyArray), None))]
  }

  function Migration9(): seq<Statement> {
    [Create(Approvals),
     Unique(ApprovalReceipt, Approvals, [ReceiptHash], ReceiptKnown),
     Listed(ApprovalGrant, Approvals, [GrantId], AllRows)]
  }

  function Migration10(): seq<Statement> {
    WindowTable()
    + [AlterTable(Approvals, AddColumn(DecidedByWindow, Optional(Text), Some(Reference(ApprovalWindows, SetNull))))]
  }

  function WindowTable(): seq<Statement> {
    [Create(ApprovalWindows),
     Listed(ApprovalWindowMatch, ApprovalWindows, [GrantId, ClientId, Instance, ActionClass, ExpiresAt], NotRevoked),
     Listed(ApprovalWindowGrant, ApprovalWindows, [GrantId], AllRows)]
  }

  function Migration11(): seq<Statement> {
    [Revoke(ApprovalWindows, Live, REPLACED),
     Revoke(Approvals, WindowDecided, REPLACED),
     AlterTable(ApprovalWindows, AddColumn(ClientBound, Defaulted(Boolean, False), None)),
     AlterTable(ApprovalWindows, SetRequired(GrantId, false)),
     AlterTable(ApprovalWindows, SetRequired(ActionClass, false)),
     AlterTable(ApprovalWindows, SetRequired(ExpiresAt, false)),
     AlterTable(ApprovalWindows, SetRequired(MaxConsumptions, false)),
     AlterTable(ApprovalWindows, SetKind(Consumed, Bigint)),
     AlterTable(ApprovalWindows, AddCheck(WindowScopeShape)),
     Unique(ApprovalWindowClientLive, ApprovalWindows, [ClientId, Instance], ClientBoundLive)]
  }

  function Migration(v: nat): seq<Statement>
    requires 1 <= v <= TOP
  {
    match v
    case 1 => Migration1()
    case 2 => Migration2()
    case 3 => Migration3()
    case 4 => Migration4()
    case 5 => Migration5()
    case 6 => Migration6()
    case 7 => Migration7()
    case 8 => Migration8()
    case 9 => Migration9()
    case 10 => Migration10()
    case 11 => Migration11()
  }

  function Rollback1(): seq<Statement> {
    [DropTables({DeviceAuthorizations, Tokens, Sessions, AdminCredential, Metadata})]
  }

  function Rollback2(): seq<Statement> {
    [DropTables({OauthAuthorizationCodes, OauthPendingAuthorizations, OauthTokens, OauthSessions, OauthClients})]
  }

  function Rollback3(): seq<Statement> {
    [AlterTable(OauthTokens, DropCheck(TokenSingleUseIsBound, true)),
     AlterTable(OauthTokens, DropCheck(TokenOperationBindingIsComplete, true)),
     AlterTable(OauthTokens, DropColumn(OperationId, true)),
     AlterTable(OauthTokens, DropColumn(RequestDigest, true)),
     AlterTable(OauthTokens, DropColumn(ActorClientId, true)),
     AlterTable(OauthTokens, DropColumn(BrokerClientId, true))]
  }

  function Rollback4(): seq<Statement> {
    [DropIndex(OauthTokensSubject, true), DropTables({OauthGrants})]
  }

  function Rollback5(): seq<Statement> {
    EpochDefaults(EPOCH_TABLES, Zero) + [DropEpochFunction, DeleteRow(Metadata, EPOCH_KEY)]
  }

  function Rollback6(): seq<Statement> {
    [DropTables({OauthRefreshTokens, OauthRefreshFamilies})]
  }

  function Rollback7(): seq<Statement> {
    [DropTables({AuditEvent})]
  }

  function Rollback8(): seq<Statement> {
    [AlterTable(OauthClients, DropColumn(Capabilities, true))]
  }

  function Rollback9(): seq<Statement> {
    [DropTables({Approvals})]
  }

  function Rollback10(): seq<Statement> {
    [AlterTable(Approvals, DropColumn(DecidedByWindow, true)), DropTables({ApprovalWindows})]
  }

  function Rollback11(): seq<Statement> {
    [Revoke(Approvals, ClientDecided, ROLLED_BACK),
     Delete(ApprovalWindows, BoundToClient),
     DropIndex(ApprovalWindowClientLive, false),
     AlterTable(ApprovalWindows, DropCheck(WindowScopeShape, false)),
     AlterTable(ApprovalWindows, DropColumn(ClientBound, false)),
     AlterTable(ApprovalWindows, SetRequired(GrantId, true)),
     AlterTable(ApprovalWindows, SetRequired(ActionClass, true)),
     AlterTable(ApprovalWindows, SetRequired(ExpiresAt, true)),
     AlterTable(ApprovalWindows, SetRequired(MaxConsumptions, true)),
     AlterTable(ApprovalWindows, SetKind(Consumed, Int))]
  }

  function Rollback(v: nat): seq<Statement>
    requires 1 <= v <= TOP
  {
    match v
    case 1 => Rollback1()
    case 2 => Rollback2()
    case 3 => Rollback3()
    case 4 => Rollback4()
    case 5 => Rollback5()
    case 6 => Rollback6()
    case 7 => Rollback7()
    case 8 => Rollback8()
    case 9 => Rollback9()
    case 10 => Rollback10()
    case 11 => Rollback11()
  }

  /** The structure that migrations 1 to k build. */
  function Fold(k: nat): Catalog
    requires k <= TOP
  {
    if k == 0 then EMPTY_CATALOG else Effects(Fold(k - 1), Migration(k))
  }

  // ---------------------------------------------------------------- stepping up and down

  function Versions(k: nat): (r: set<nat>)
    ensures forall v :: v in r <==> 1 <= v <= k
  {
    if k == 0 then {} else Versions(k - 1) + {k}
  }

  function Ledger(db: Db): set<nat> {
    if db.ledger.Some? then db.ledger.value else {}
  }

  /** The database and the versions a procedure went through, in order. */
  datatype Outcome = Outcome(db: Db, versions: seq<nat>)

  ghost function Lowest(s: set<nat>): (m: nat)
    requires s != {}
    ensures m in s && forall v <- s :: m <= v
    decreases |s|
  {
    var v :| v in s;
    if s == {v} then v
    else
      var m := Lowest(s - {v});
      assert forall u <- s :: u == v || u in s - {v};
      if v < m then v else m
  }

  /** The missing versions, oldest first, each recorded after its script. */
  ghost function Ascend(db: Db, missing: set<nat>, now: int): (r: Result<Outcome, Failure>)
    requires db.rows.Keys == db.catalog.tables.Keys && forall v <- missing :: 1 <= v <= TOP
    ensures r.Ok? ==> r.value.db.rows.Keys == r.value.db.catalog.tables.Keys
    decreases |missing|
  {
    if missing == {} then Ok(Outcome(db, []))
    else
      var v := Lowest(missing);
      var next :- Execute(db, Migration(v), now);
      var rest :- Ascend(next.(ledger := Some(Ledger(next) + {v})), missing - {v}, now);
      Ok(Outcome(rest.db, [v] + rest.versions))
  }

  /** `migrate`: the ledger is created if it is not there, and a refused statement undoes everything. */
  ghost function Migrated(db: Db, now: int): (r: Result<Outcome, Failure>)
    requires db.rows.Keys == db.catalog.tables.Keys
    ensures r.Ok? ==> r.value.db.rows.Keys == r.value.db.catalog.tables.Keys
  {
    Ascend(db.(ledger := Some(Ledger(db))), Versions(TOP) - Ledger(db), now)
  }

  ghost function Greatest(s: set<nat>): (m: nat)
    requires s != {}
    ensures m in s && forall v <- s :: v <= m
    decreases |s|
  {
    var v :| v in s;
    if s == {v} then v
    else
      var m := Greatest(s - {v});
      assert forall u <- s :: u == v || u in s - {v};
      if v > m then v else m
  }

  /** The versions above the target, newest first. A migration without a rollback stops everything, and so
      does one that loses data without leave; every rollback of the ladder does. */
  ghost function Descend(db: Db, pending: set<nat>, to: int, accept: bool, now: int): (r: Result<Outcome, Failure>)
    requires db.rows.Keys == db.catalog.tables.Keys
    ensures r.Ok? ==> r.value.db.rows.Keys == r.value.db.catalog.tables.Keys
    decreases |pending|
  {
    if pending == {} || Greatest(pending) <= to then Ok(Outcome(db, []))
    else
      var v := Greatest(pending);
      if v == 0 || v > TOP then Err(NoRollback(v))
      else if !accept then Err(DataLoss(v))
      else
        var next :- Execute(db, Rollback(v), now);
        var rest :- Descend(next.(ledger := Some(Ledger(next) - {v})), pending - {v}, to, accept, now);
        Ok(Outcome(rest.db, [v] + rest.versions))
  }

  /** `rollback`: it reads the ledger, so there must be one. */
  ghost function RolledBack(db: Db, to: int, accept: bool, now: int): (r: Result<Outcome, Failure>)
    requires db.rows.Keys == db.catalog.tables.Keys
    ensures r.Ok? ==> r.value.db.rows.Keys == r.value.db.catalog.tables.Keys
  {
    if to < 0 then Err(NegativeTarget)
    else if db.ledger.None? then Err(NoLedger)
    else Descend(db, db.ledger.value, to, accept, now)
  }

  // ---------------------------------------------------------------- runs

  /** What happens to a control database: the two procedures, and the services writing rows. */
  datatype Step =
    | Up(now: int)
    | Down(to: int, accept: bool, now: int)
    | Write(rows: Rows)

  const EMPTY_DB := Db(EMPTY_CATALOG, map[], None)

  /** A write is taken when the rows satisfy what the structure demands of them; a procedure that fails
      leaves everything as it was. */
  ghost function Apply(db: Db, step: Step): (next: Db)
    requires db.rows.Keys == db.catalog.tables.Keys
    ensures next.rows.Keys == next.catalog.tables.Keys
  {
    match step
    case Up(now) => var r := Migrated(db, now); if r.Ok? then r.value.db else db
    case Down(to, accept, now) => var r := RolledBack(db, to, accept, now); if r.Ok? then r.value.db else db
    case Write(rows) => if Conforms(db.catalog, rows) then db.(rows := rows) else db
  }

  ghost function Run(db: Db, steps: seq<Step>): (next: Db)
    requires db.rows.Keys == db.catalog.tables.Keys
    ensures next.rows.Keys == next.catalog.tables.Keys
    decreases |steps|
  {
    if steps == [] then db else Run(Apply(db, steps[0]), steps[1..])
  }
}
