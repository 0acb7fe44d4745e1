/** The structures of the ladder: every migration of LadderModel is legal on the structure of the ones before
    it, and its rollback is legal and restores that structure exactly. */
module LadderStages {
  import opened LadderModel
  import opened SchemaModel
  import opened SchemaTheorems
  import opened Wrappers

  // ---------------------------------------------------------------- the tables as they are created

  function Parents(t: TableName): set<TableName> {
    match t
    case OauthAuthorizationCodes | OauthTokens | OauthPendingAuthorizations | OauthGrants | OauthRefreshFamilies =>
      {OauthClients}
    case OauthRefreshTokens => {OauthRefreshFamilies, OauthRefreshTokens}
    case _ => {}
  }

  const EPOCH_BORN: set<TableName> := {OauthRefreshFamilies, Approvals, ApprovalWindows}

  /** A table is created with the columns that its key, checks, references and uniqueness name, its parents are
      the ones listed, and its defaults call the epoch function only if it was created after it. */
  predicate WellMade(t: TableName, def: Table) {
    && def.key in def.columns && def.uniques <= def.columns.Keys && def.references.Keys <= def.columns.Keys
    && (forall k <- def.checks :: Mentions(k) <= def.columns.Keys)
    && (forall c <- def.references :: def.references[c].target in Parents(t))
    && (t !in EPOCH_BORN ==> forall c <- def.columns :: def.columns[c].default != CurrentEpoch)
  }

  lemma MetadataMade()
    ensures WellMade(Metadata, MetadataTable())
  {
  }

  lemma AdminCredentialMade()
    ensures WellMade(AdminCredential, AdminCredentialTable())
  {
  }

  lemma SessionsMade()
    ensures WellMade(Sessions, SessionsTable())
  {
  }

  lemma TokensMade()
    ensures WellMade(Tokens, TokensTable())
  {
  }

  lemma DeviceAuthorizationsMade()
    ensures WellMade(DeviceAuthorizations, DeviceAuthorizationsTable())
  {
  }

  lemma OauthClientsMade()
    ensures WellMade(OauthClients, OauthClientsTable())
  {
  }

  lemma OauthAuthorizationCodesChecks()
    ensures var t := OauthAuthorizationCodesTable(); forall k <- t.checks :: Mentions(k) <= t.columns.Keys
  {
  }

  lemma OauthAuthorizationCodesMade()
    ensures WellMade(OauthAuthorizationCodes, OauthAuthorizationCodesTable())
  {
    OauthAuthorizationCodesChecks();
    hide Mentions;
  }

  lemma OauthTokensChecks()
    ensures forall k <- OauthTokensTable().checks :: Mentions(k) <= OauthTokensTable().columns.Keys
  {
  }

  lemma OauthTokensMade()
    ensures WellMade(OauthTokens, OauthTokensTable())
  {
    OauthTokensChecks();
    hide Mentions;
  }

  lemma OauthPendingAuthorizationsMade()
    ensures WellMade(OauthPendingAuthorizations, OauthPendingAuthorizationsTable())
  {
  }

  lemma OauthSessionsMade()
    ensures WellMade(OauthSessions, OauthSessionsTable())
  {
  }

  lemma OauthGrantsMade()
    ensures WellMade(OauthGrants, OauthGrantsTable())
  {
  }

  lemma OauthRefreshFamiliesMade()
    ensures WellMade(OauthRefreshFamilies, OauthRefreshFamiliesTable())
  {
  }

  lemma OauthRefreshTokensMade()
    ensures WellMade(OauthRefreshTokens, OauthRefreshTokensTable())
  {
  }

  lemma AuditEventMade()
    ensures WellMade(AuditEvent, AuditEventTable())
  {
  }

  lemma ApprovalsChecks()
    ensures forall k <- ApprovalsTable().checks :: Mentions(k) <= ApprovalsTable().columns.Keys
  {
  }

  lemma ApprovalsMade()
    ensures WellMade(Approvals, ApprovalsTable())
  {
    ApprovalsChecks();
    hide Mentions;
  }

  lemma ApprovalWindowsChecks()
    ensures forall k <- ApprovalWindowsTable().checks :: Mentions(k) <= ApprovalWindowsTable().columns.Keys
  {
  }

  lemma ApprovalWindowsMade()
    ensures WellMade(ApprovalWindows, ApprovalWindowsTable())
  {
    ApprovalWindowsChecks();
    hide Mentions;
  }

  lemma SiteMade(t: TableName)
    requires t in {Metadata, AdminCredential, Sessions, Tokens, DeviceAuthorizations}
    ensures WellMade(t, Original(t))
  {
    hide WellMade, MetadataTable, AdminCredentialTable, SessionsTable, TokensTable, DeviceAuthorizationsTable,
      OauthClientsTable, OauthAuthorizationCodesTable, OauthTokensTable, OauthPendingAuthorizationsTable,
      OauthSessionsTable, OauthGrantsTable, OauthRefreshFamiliesTable, OauthRefreshTokensTable,
      AuditEventTable, ApprovalsTable, ApprovalWindowsTable;
    match t
    case Metadata => MetadataMade();
    case AdminCredential => AdminCredentialMade();
    case Sessions => SessionsMade();
    case Tokens => TokensMade();
    case DeviceAuthorizations => DeviceAuthorizationsMade();
  }

  lemma ClientMade(t: TableName)
    requires t in {OauthClients, OauthAuthorizationCodes, OauthTokens, OauthPendingAuthorizations, OauthSessions}
    ensures WellMade(t, Original(t))
  {
    hide WellMade, MetadataTable, AdminCredentialTable, SessionsTable, TokensTable, DeviceAuthorizationsTable,
      OauthClientsTable, OauthAuthorizationCodesTable, OauthTokensTable, OauthPendingAuthorizationsTable,
      OauthSessionsTable, OauthGrantsTable, OauthRefreshFamiliesTable, OauthRefreshTokensTable,
      AuditEventTable, ApprovalsTable, ApprovalWindowsTable;
    match t
    case OauthClients => OauthClientsMade();
    case OauthAuthorizationCodes => OauthAuthorizationCodesMade();
    case OauthTokens => OauthTokensMade();
    case OauthPendingAuthorizations => OauthPendingAuthorizationsMade();
    case OauthSessions => OauthSessionsMade();
  }

  lemma LaterMade(t: TableName)
    requires t in {OauthGrants, OauthRefreshFamilies, OauthRefreshTokens, AuditEvent, Approvals, ApprovalWindows}
    ensures WellMade(t, Original(t))
  {
    hide WellMade, Original;
    OriginalLater();
    match t
    case OauthGrants => OauthGrantsMade();
    case OauthRefreshFamilies => OauthRefreshFamiliesMade();
    case OauthRefreshTokens => OauthRefreshTokensMade();
    case AuditEvent => AuditEventMade();
    case Approvals => ApprovalsMade();
    case ApprovalWindows => ApprovalWindowsMade();
  }

  lemma OriginalLater()
    ensures Original(OauthGrants) == OauthGrantsTable()
    ensures Original(OauthRefreshFamilies) == OauthRefreshFamiliesTable()
    ensures Original(OauthRefreshTokens) == OauthRefreshTokensTable()
    ensures Original(AuditEvent) == AuditEventTable() && Original(Approvals) == ApprovalsTable()
    ensures Original(ApprovalWindows) == ApprovalWindowsTable()
  {
    hide MetadataTable, AdminCredentialTable, SessionsTable, TokensTable, DeviceAuthorizationsTable,
      OauthClientsTable, OauthAuthorizationCodesTable, OauthTokensTable, OauthPendingAuthorizationsTable,
      OauthSessionsTable, OauthGrantsTable, OauthRefreshFamiliesTable, OauthRefreshTokensTable,
      AuditEventTable, ApprovalsTable, ApprovalWindowsTable;
  }

  lemma OriginalMade(t: TableName)
    ensures WellMade(t, Original(t))
  {
    hide WellMade, Original;
    if t in {Metadata, AdminCredential, Sessions, Tokens, DeviceAuthorizations} {
      SiteMade(t);
    } else if t in {OauthClients, OauthAuthorizationCodes, OauthTokens, OauthPendingAuthorizations, OauthSessions} {
      ClientMade(t);
    } else {
      LaterMade(t);
    }
  }

  // ---------------------------------------------------------------- scripts that create

  /** The script creates tables as they are at first, after their parents and under new names, and indexes
      on tables that are there; from these names it comes to those. */
  predicate Orderly(tables: set<TableName>, indexes: set<IndexName>, epoch: bool, script: seq<Statement>,
                    allTables: set<TableName>, allIndexes: set<IndexName>)
    decreases |script|
  {
    if script == [] then tables == allTables && indexes == allIndexes
    else match script[0]
      case CreateTable(t, def) =>
        && def == Original(t) && t !in tables && Parents(t) <= tables + {t} && (t in EPOCH_BORN ==> epoch)
        && Orderly(tables + {t}, indexes, epoch, script[1..], allTables, allIndexes)
      case CreateIndex(i, def) =>
        && i !in indexes && def.table in tables
        && Orderly(tables, indexes + {i}, epoch, script[1..], allTables, allIndexes)
      case _ => false
  }

  predicate OnOriginal(s: Statement) {
    s.CreateIndex? ==> IndexColumns(s.on) <= Original(s.on.table).columns.Keys
  }

  /** No table has lost a column it was created with. */
  predicate Wide(cat: Catalog) {
    forall t <- cat.tables :: Original(t).columns.Keys <= cat.tables[t].columns.Keys
  }

  /** The tables of the first catalogue, unchanged, and new ones as they are created. */
  predicate Extends(cat: Catalog, next: Catalog) {
    && cat.tables.Keys <= next.tables.Keys && next.epochFunction == cat.epochFunction
    && forall t <- next.tables :: next.tables[t] == if t in cat.tables then cat.tables[t] else Original(t)
  }

  lemma CreatingIsLegal(cat: Catalog, t: TableName)
    requires t !in cat.tables && Parents(t) <= cat.tables.Keys + {t} && (t in EPOCH_BORN ==> cat.epochFunction)
    ensures Legal(cat, CreateTable(t, Original(t)))
  {
    hide Original, Mentions;
    OriginalMade(t);
  }

  lemma CreatesTable(cat: Catalog, t: TableName, next: Catalog)
    requires Wide(cat) && t !in cat.tables && next == Effect(cat, CreateTable(t, Original(t)))
    ensures Wide(next) && Extends(cat, next)
    ensures next.tables.Keys == cat.tables.Keys + {t} && next.indexes == cat.indexes
  {
    hide Original;
  }

  lemma CreatesIndex(cat: Catalog, i: IndexName, def: Index, next: Catalog)
    requires Wide(cat) && i !in cat.indexes && def.table in cat.tables && OnOriginal(CreateIndex(i, def))
    requires next == Effect(cat, CreateIndex(i, def))
    ensures Legal(cat, CreateIndex(i, def)) && Wide(next) && Extends(cat, next)
    ensures next.tables.Keys == cat.tables.Keys && next.indexes.Keys == cat.indexes.Keys + {i}
  {
    hide Original, IndexColumns;
  }

  lemma {:induction false} OrderlyBuilds(cat: Catalog, script: seq<Statement>, allTables: set<TableName>,
                                         allIndexes: set<IndexName>)
    requires Wide(cat) && Orderly(cat.tables.Keys, cat.indexes.Keys, cat.epochFunction, script, allTables, allIndexes)
    requires forall s <- script :: OnOriginal(s)
    ensures AllLegal(cat, script)
    ensures var next := Effects(cat, script);
      Extends(cat, next) && Wide(next) && next.tables.Keys == allTables && next.indexes.Keys == allIndexes
    decreases |script|
  {
    hide Original, IndexColumns, Mentions, Parents, OnOriginal, Wide, Legal;
    if script == [] {
    } else {
      var s, next := script[0], Effect(cat, script[0]);
      assert OnOriginal(s);
      assert forall r <- script[1..] :: r in script;
      match s
      case CreateTable(t, _) =>
        CreatingIsLegal(cat, t);
        CreatesTable(cat, t, next);
        OrderlyBuilds(next, script[1..], allTables, allIndexes);
      case CreateIndex(i, def) =>
        CreatesIndex(cat, i, def, next);
        OrderlyBuilds(next, script[1..], allTables, allIndexes);
    }
  }

  // ---------------------------------------------------------------- what is there after k migrations

  /** The migration that creates a table, or an index. */
  function TableVersion(t: TableName): nat {
    match t
    case Metadata | AdminCredential | Sessions | Tokens | DeviceAuthorizations => 1
    case OauthClients | OauthAuthorizationCodes | OauthTokens | OauthPendingAuthorizations | OauthSessions => 2
    case OauthGrants => 4
    case OauthRefreshFamilies | OauthRefreshTokens => 6
    case AuditEvent => 7
    case Approvals => 9
    case ApprovalWindows => 10
  }

  function IndexVersion(i: IndexName): nat {
    match i
    case TokensLiveName | TokensNameKey | DeviceUserCode => 1
    case OauthCodesExpiry | OauthTokensExpiry | OauthPendingSource | OauthPendingExpiry | OauthSessionsExpiry => 2
    case OauthGrantsLive | OauthTokensSubject => 4
    case OauthRefreshTokensFamily | OauthRefreshTokensExpiry | OauthRefreshFamiliesGrant => 6
    case AuditEventRecorded | AuditEventGrant => 7
    case ApprovalReceipt | ApprovalGrant => 9
    case ApprovalWindowMatch | ApprovalWindowGrant => 10
    case ApprovalWindowClientLive => 11
  }

  function TablesAt(k: nat): set<TableName> {
    set t: TableName | TableVersion(t) <= k
  }

  function IndexesAt(k: nat): set<IndexName> {
    set i: IndexName | IndexVersion(i) <= k
  }

  predicate AlteredBy(t: TableName, k: nat) {
    || (t == OauthTokens && k >= 3)
    || (t in EPOCH_TABLES && k >= 5)
    || (t == OauthClients && k >= 8)
    || (t == Approvals && k >= 10)
    || (t == ApprovalWindows && k >= 11)
  }

  /** The columns the table was created with are as they were. */
  predicate Preserved(t: TableName, table: Table) {
    forall c <- Original(t).columns :: c in table.columns && table.columns[c] == Original(t).columns[c]
  }

  /** Nothing refers to the metadata, and to a window only the approvals it decided, which let it go. */
  predicate Tame(table: Table) {
    forall c <- table.references :: table.references[c].target != Metadata
      && (table.references[c].target == ApprovalWindows ==>
            c == DecidedByWindow && table.references[c].onDelete == SetNull
            && c in table.columns && !table.columns[c].required)
  }

  function ClientRow(w: string): Row {
    map[Name := Word(w), RedirectUris := Words({}), Scopes := Words({}), GrantTypes := Words({}),
        TokenEndpointAuthMethod := Word(w), CreatedAt := Number(0), Capabilities := Words({})]
  }

  /** A single-use token that is bound to its operation. */
  function TokenRow(w: string): Row {
    map[ClientId := Word(w), Subject := Word(w), Scope := Word(w), Audience := Word(w), IssuedAt := Number(0),
        ExpiresAt := Number(60), SingleUse := Flag(true), RecoveryEpoch := Number(0), OperationId := Word(w),
        RequestDigest := Word(w)]
  }

  /** These are rows of every structure that has their tables. */
  ghost predicate Admits(t: TableName, table: Table) {
    && (t == OauthClients ==> forall w: string :: RowConforms(table, Word(w), ClientRow(w)))
    && (t == OauthTokens ==> forall w: string :: RowConforms(table, Word(w), TokenRow(w)))
  }

  predicate NamesWindow(table: Table) {
    DecidedByWindow in table.references && table.references[DecidedByWindow].target == ApprovalWindows
  }

  ghost predicate TableStage(k: nat, t: TableName, table: Table) {
    && Tame(table) && (Revocable(Original(t)) ==> Revocable(table)) && Admits(t, table)
    && (k >= 10 && t == Approvals ==> NamesWindow(table))
    && (!AlteredBy(t, k) ==> table == Original(t)) && (k < 5 ==> Preserved(t, table))
  }

  ghost predicate Stage(k: nat, cat: Catalog) {
    && Closed(cat) && Wide(cat) && cat.tables.Keys == TablesAt(k) && cat.indexes.Keys == IndexesAt(k)
    && (cat.epochFunction <==> k >= 5)
    && forall t <- cat.tables :: TableStage(k, t, cat.tables[t])
  }

  lemma OnlyAlters(k: nat, t: TableName, u: TableName)
    requires (k == 3 && t == OauthTokens) || (k == 8 && t == OauthClients)
             || (k == 10 && t == Approvals) || (k == 11 && t == ApprovalWindows)
    ensures AlteredBy(t, k) && (u != t ==> AlteredBy(u, k) == AlteredBy(u, k - 1))
  {
  }

  lemma OrderlySite(ts: set<TableName>, ixs: set<IndexName>)
    requires ts !! {Metadata, AdminCredential, Sessions}
    ensures Orderly(ts, ixs, false, SiteTables(), ts + {Metadata, AdminCredential, Sessions}, ixs)
  {
    hide Original;
  }

  lemma OrderlyTokens(ts: set<TableName>, ixs: set<IndexName>)
    requires ts !! {Tokens, DeviceAuthorizations}
    requires ixs !! {TokensLiveName, TokensNameKey, DeviceUserCode}
    ensures Orderly(ts, ixs, false, TokenTables(),
                    ts + {Tokens, DeviceAuthorizations},
                    ixs + {TokensLiveName, TokensNameKey, DeviceUserCode})
  {
    hide Original;
  }

  lemma OrderlyClients(ts: set<TableName>, ixs: set<IndexName>)
    requires ts !! {OauthClients, OauthAuthorizationCodes, OauthTokens}
    requires ixs !! {OauthCodesExpiry, OauthTokensExpiry}
    ensures Orderly(ts, ixs, false, ClientTables(),
                    ts + {OauthClients, OauthAuthorizationCodes, OauthTokens},
                    ixs + {OauthCodesExpiry, OauthTokensExpiry})
  {
    hide Original;
  }

  lemma OrderlySessions(ts: set<TableName>, ixs: set<IndexName>)
    requires ts !! {OauthPendingAuthorizations, OauthSessions}
    requires ixs !! {OauthPendingSource, OauthPendingExpiry, OauthSessionsExpiry}
    requires OauthClients in ts
    ensures Orderly(ts, ixs, false, SessionTables(),
                    ts + {OauthPendingAuthorizations, OauthSessions},
                    ixs + {OauthPendingSource, OauthPendingExpiry, OauthSessionsExpiry})
  {
    hide Original;
  }

  lemma Orderly4(ts: set<TableName>, ixs: set<IndexName>)
    requires ts !! {OauthGrants} && ixs !! {OauthGrantsLive, OauthTokensSubject}
    requires OauthClients in ts && OauthTokens in ts
    ensures Orderly(ts, ixs, false, Migration4(), ts + {OauthGrants}, ixs + {OauthGrantsLive, OauthTokensSubject})
  {
    hide Original;
  }

  lemma Orderly6(ts: set<TableName>, ixs: set<IndexName>)
    requires ts !! {OauthRefreshFamilies, OauthRefreshTokens}
    requires ixs !! {OauthRefreshTokensFamily, OauthRefreshTokensExpiry, OauthRefreshFamiliesGrant}
    requires OauthClients in ts
    ensures Orderly(ts, ixs, true, Migration6(),
                    ts + {OauthRefreshFamilies, OauthRefreshTokens},
                    ixs + {OauthRefreshTokensFamily, OauthRefreshTokensExpiry, OauthRefreshFamiliesGrant})
  {
    hide Original;
  }

  lemma Orderly7(ts: set<TableName>, ixs: set<IndexName>)
    requires ts !! {AuditEvent} && ixs !! {AuditEventRecorded, AuditEventGrant}
    ensures Orderly(ts, ixs, true, Migration7(), ts + {AuditEvent}, ixs + {AuditEventRecorded, AuditEventGrant})
  {
    hide Original;
  }

  lemma Orderly9(ts: set<TableName>, ixs: set<IndexName>)
    requires ts !! {Approvals} && ixs !! {ApprovalReceipt, ApprovalGrant}
    ensures Orderly(ts, ixs, true, Migration9(), ts + {Approvals}, ixs + {ApprovalReceipt, ApprovalGrant})
  {
    hide Original;
  }

  lemma Orderly10(ts: set<TableName>, ixs: set<IndexName>)
    requires ts !! {ApprovalWindows} && ixs !! {ApprovalWindowMatch, ApprovalWindowGrant}
    ensures Orderly(ts, ixs, true, WindowTable(),
                    ts + {ApprovalWindows},
                    ixs + {ApprovalWindowMatch, ApprovalWindowGrant})
  {
    hide Original;
  }

  // ---------------------------------------------------------------- the stages one after the other

  lemma OriginalIsTame(t: TableName)
    ensures Tame(Original(t))
  {
    hide Original, Mentions;
    OriginalMade(t);
  }

  lemma StageCreates(k: nat, cat: Catalog, next: Catalog)
    requires 1 <= k <= TOP && Stage(k - 1, cat) && Extends(cat, next) && Wide(next) && Closed(next)
    requires next.tables.Keys == TablesAt(k) && next.indexes.Keys == IndexesAt(k) && k !in {3, 5, 8, 10, 11}
    ensures Stage(k, next)
  {
    hide Original, TablesAt, IndexesAt, Closed, Wide, Tame, Preserved, Admits;
    forall t | t in next.tables ensures TableStage(k, t, next.tables[t]) {
      OriginalAdmits(t);
      OriginalIsTame(t);
      OriginalIsPreserved(t);
      if t in cat.tables { assert TableStage(k - 1, t, cat.tables[t]); }
    }
  }

  lemma OriginalAdmits(t: TableName)
    ensures Admits(t, Original(t))
  {
    hide RowConforms, OauthClientsTable, OauthTokensTable, ClientRow, TokenRow;
    forall w: string
      ensures RowConforms(OauthClientsTable(), Word(w), ClientRow(w))
      ensures RowConforms(OauthTokensTable(), Word(w), TokenRow(w))
    {
      ClientConforms(w);
      TokenConforms(w);
    }
  }

  lemma ClientCells(w: string)
    ensures var r := ClientRow(w);
      At(r, Name) == Word(w) && At(r, RedirectUris) == Words({}) && At(r, Scopes) == Words({})
      && At(r, GrantTypes) == Words({}) && At(r, TokenEndpointAuthMethod) == Word(w)
      && At(r, ClientSecretHash) == Null && At(r, CreatedAt) == Number(0) && At(r, DisabledAt) == Null
      && At(r, Capabilities) == Words({})
  {
  }

  lemma ClientColumns()
    ensures var t := OauthClientsTable();
      t.checks == {} && t.key == ClientId
      && t.columns.Keys == {ClientId, Name, RedirectUris, Scopes, GrantTypes, TokenEndpointAuthMethod,
                            ClientSecretHash, CreatedAt, DisabledAt}
      && t.columns[Name].kind == t.columns[TokenEndpointAuthMethod].kind == Text
      && t.columns[RedirectUris].kind == t.columns[Scopes].kind == t.columns[GrantTypes].kind == TextArray
      && t.columns[CreatedAt].kind == Timestamptz
      && !t.columns[ClientSecretHash].required && !t.columns[DisabledAt].required
  {
  }

  lemma ClientCell(w: string, c: Column)
    requires c in OauthClientsTable().columns && c != ClientId
    ensures CellConforms(OauthClientsTable().columns[c], At(ClientRow(w), c))
  {
    hide ClientRow, OauthClientsTable;
    ClientCells(w);
    ClientColumns();
  }

  lemma ClientConforms(w: string)
    ensures RowConforms(OauthClientsTable(), Word(w), ClientRow(w))
  {
    hide Passes, CellConforms, ClientRow, OauthClientsTable;
    NoClientChecks();
    forall c | c in OauthClientsTable().columns && c != ClientId
      ensures CellConforms(OauthClientsTable().columns[c], At(ClientRow(w), c))
    {
      ClientCell(w, c);
    }
  }

  lemma NoClientChecks()
    ensures OauthClientsTable().checks == {} && OauthClientsTable().key == ClientId
  {
  }

  lemma TokenCells(w: string)
    ensures var r := TokenRow(w);
      At(r, ClientId) == Word(w) && At(r, Subject) == Word(w) && At(r, Scope) == Word(w)
      && At(r, Audience) == Word(w) && At(r, IssuedAt) == Number(0) && At(r, ExpiresAt) == Number(60)
      && At(r, RevokedAt) == Null && At(r, ConsumedAt) == Null && At(r, SingleUse) == Flag(true)
      && At(r, RecoveryEpoch) == Number(0)
  {
  }

  lemma TokenColumns()
    ensures var t := OauthTokensTable();
      t.checks == {TokenConsumedRequiresSingleUse} && t.key == TokenHash
      && t.columns.Keys == {TokenHash, ClientId, Subject, Scope, Audience, IssuedAt, ExpiresAt, RevokedAt,
                            ConsumedAt, SingleUse, RecoveryEpoch}
      && t.columns[ClientId].kind == t.columns[Subject].kind == t.columns[Scope].kind == Text
      && t.columns[Audience].kind == Text
      && t.columns[IssuedAt].kind == t.columns[ExpiresAt].kind == Timestamptz
      && t.columns[SingleUse].kind == Boolean && t.columns[RecoveryEpoch].kind == Bigint
      && !t.columns[RevokedAt].required && !t.columns[ConsumedAt].required
  {
  }

  lemma TokenCell(w: string, c: Column)
    requires c in OauthTokensTable().columns && c != TokenHash
    ensures CellConforms(OauthTokensTable().columns[c], At(TokenRow(w), c))
  {
    hide TokenRow, OauthTokensTable;
    TokenCells(w);
    TokenColumns();
  }

  lemma TokenPasses(w: string, k: Check)
    requires k in {TokenConsumedRequiresSingleUse, TokenOperationBindingIsComplete, TokenSingleUseIsBound}
    ensures Passes(k, Word(w), TokenRow(w))
  {
  }

  lemma TokenConforms(w: string)
    ensures RowConforms(OauthTokensTable(), Word(w), TokenRow(w))
  {
    hide Passes, CellConforms, TokenRow, OauthTokensTable;
    OneTokenCheck();
    TokenPasses(w, TokenConsumedRequiresSingleUse);
    forall c | c in OauthTokensTable().columns && c != TokenHash
      ensures CellConforms(OauthTokensTable().columns[c], At(TokenRow(w), c))
    {
      TokenCell(w, c);
    }
  }

  lemma OneTokenCheck()
    ensures OauthTokensTable().checks == {TokenConsumedRequiresSingleUse} && OauthTokensTable().key == TokenHash
  {
  }

  lemma OriginalIsPreserved(t: TableName)
    ensures Preserved(t, Original(t))
  {
    hide Original;
  }

  /** Migration k is legal where k - 1 migrations have been, and its rollback is its inverse there. */
  ghost predicate StepsTo(k: nat, cat: Catalog)
    requires 1 <= k <= TOP
  {
    var next := Effects(cat, Migration(k));
    && AllLegal(cat, Migration(k)) && Stage(k, next)
    && AllLegal(next, Rollback(k)) && Effects(next, Rollback(k)) == cat
  }

  /** A migration that only creates, and the one statement that drops what it created. */
  lemma CreationStep(k: nat, cat: Catalog, m: seq<Statement>, ts: set<TableName>)
    requires k in {1, 2, 6, 7, 9} && Stage(k - 1, cat)
    requires Migration(k) == m && Rollback(k) == [DropTables(ts)]
    requires AllLegal(cat, m) && Extends(cat, Effects(cat, m)) && Wide(Effects(cat, m))
    requires Effects(cat, m).tables.Keys == TablesAt(k) && Effects(cat, m).indexes.Keys == IndexesAt(k)
    requires (forall s <- m :: CreatesIn(s, ts)) && ts !! TablesAt(k - 1)
    ensures StepsTo(k, cat)
  {
    hide AllLegal, Effects, Effect, Legal, Migration, Rollback, Original, Closed, Wide, Extends, CreatesIn, TablesAt,
      IndexesAt, Tame, Admits, Preserved;
    var next := Effects(cat, m);
    EffectsStayClosed(cat, m);
    StageCreates(k, cat, next);
    CreatedAndDropped(cat, m, ts);
    Single(next, DropTables(ts));
  }

  function NewIn(k: nat): set<TableName> {
    set t: TableName | TableVersion(t) == k
  }

  function IndexedIn(k: nat): set<IndexName> {
    set i: IndexName | IndexVersion(i) == k
  }

  lemma Names(k: nat)
    requires k > 0
    ensures TablesAt(k) == TablesAt(k - 1) + NewIn(k) && TablesAt(k - 1) !! NewIn(k)
    ensures IndexesAt(k) == IndexesAt(k - 1) + IndexedIn(k) && IndexesAt(k - 1) !! IndexedIn(k)
  {
    hide TableVersion, IndexVersion;
  }

  lemma New6()
    ensures NewIn(6) == {OauthRefreshFamilies, OauthRefreshTokens}
    ensures IndexedIn(6) == {OauthRefreshTokensFamily, OauthRefreshTokensExpiry, OauthRefreshFamiliesGrant}
    ensures Rollback6() == [DropTables(NewIn(6))]
  {
    assert NewIn(6) == {OauthRefreshTokens, OauthRefreshFamilies};
  }

  lemma Columns6(i: nat)
    requires i < |Migration6()|
    ensures OnOriginal(Migration6()[i]) && CreatesIn(Migration6()[i], NewIn(6))
  {
  }

  lemma Step6(cat: Catalog)
    requires Stage(5, cat)
    ensures StepsTo(6, cat)
  {
    hide Migration6, Original, OnOriginal, CreatesIn, Closed, Tame, Admits, Preserved, TablesAt, IndexesAt, NewIn,
      IndexedIn, AllLegal, Effects, Orderly, Wide, Extends, StepsTo;
    var m := Migration6();
    forall s | s in m ensures OnOriginal(s) && CreatesIn(s, NewIn(6)) {
      var i: nat :| i < |m| && m[i] == s;
      Columns6(i);
    }
    New6();
    Names(6);
    assert OauthClients in TablesAt(5) by { Member(OauthClients, 5); }
    Orderly6(cat.tables.Keys, cat.indexes.Keys);
    OrderlyBuilds(cat, m, TablesAt(6), IndexesAt(6));
    CreationStep(6, cat, m, NewIn(6));
  }

  lemma New7()
    ensures NewIn(7) == {AuditEvent}
    ensures IndexedIn(7) == {AuditEventRecorded, AuditEventGrant}
    ensures Rollback7() == [DropTables(NewIn(7))]
  {
    assert NewIn(7) == {AuditEvent};
  }

  lemma Columns7(i: nat)
    requires i < |Migration7()|
    ensures OnOriginal(Migration7()[i]) && CreatesIn(Migration7()[i], NewIn(7))
  {
  }

  lemma Step7(cat: Catalog)
    requires Stage(6, cat)
    ensures StepsTo(7, cat)
  {
    hide Migration7, Original, OnOriginal, CreatesIn, Closed, Tame, Admits, Preserved, TablesAt, IndexesAt, NewIn,
      IndexedIn, AllLegal, Effects, Orderly, Wide, Extends, StepsTo;
    var m := Migration7();
    forall s | s in m ensures OnOriginal(s) && CreatesIn(s, NewIn(7)) {
      var i: nat :| i < |m| && m[i] == s;
      Columns7(i);
    }
    New7();
    Names(7);
    Orderly7(cat.tables.Keys, cat.indexes.Keys);
    OrderlyBuilds(cat, m, TablesAt(7), IndexesAt(7));
    CreationStep(7, cat, m, NewIn(7));
  }

  lemma New9()
    ensures NewIn(9) == {Approvals}
    ensures IndexedIn(9) == {ApprovalReceipt, ApprovalGrant}
    ensures Rollback9() == [DropTables(NewIn(9))]
  {
    assert NewIn(9) == {Approvals};
  }

  lemma Columns9(i: nat)
    requires i < |Migration9()|
    ensures OnOriginal(Migration9()[i]) && CreatesIn(Migration9()[i], NewIn(9))
  {
  }

  lemma Step9(cat: Catalog)
    requires Stage(8, cat)
    ensures StepsTo(9, cat)
  {
    hide Migration9, Original, OnOriginal, CreatesIn, Closed, Tame, Admits, Preserved, TablesAt, IndexesAt, NewIn,
      IndexedIn, AllLegal, Effects, Orderly, Wide, Extends, StepsTo;
    var m := Migration9();
    forall s | s in m ensures OnOriginal(s) && CreatesIn(s, NewIn(9)) {
      var i: nat :| i < |m| && m[i] == s;
      Columns9(i);
    }
    New9();
    Names(9);
    Orderly9(cat.tables.Keys, cat.indexes.Keys);
    OrderlyBuilds(cat, m, TablesAt(9), IndexesAt(9));
    CreationStep(9, cat, m, NewIn(9));
  }

  lemma New1()
    ensures NewIn(1) == {Metadata, AdminCredential, Sessions, Tokens, DeviceAuthorizations}
    ensures IndexedIn(1) == {TokensLiveName, TokensNameKey, DeviceUserCode}
    ensures Rollback1() == [DropTables(NewIn(1))]
    ensures Migration1() == SiteTables() + TokenTables()
  {
    assert NewIn(1) == {DeviceAuthorizations, Tokens, Sessions, AdminCredential, Metadata};
  }

  lemma Columns1(i: nat)
    requires i < |Migration1()|
    ensures OnOriginal(Migration1()[i]) && CreatesIn(Migration1()[i], NewIn(1))
  {
  }

  lemma Step1(cat: Catalog)
    requires Stage(0, cat)
    ensures StepsTo(1, cat)
  {
    hide Migration1, Original, OnOriginal, CreatesIn, Closed, Tame, Admits, Preserved, TablesAt, IndexesAt, NewIn,
      IndexedIn, AllLegal, Effects, Orderly, Wide, Extends, StepsTo;
    var m := Migration1();
    forall s | s in m ensures OnOriginal(s) && CreatesIn(s, NewIn(1)) {
      var i: nat :| i < |m| && m[i] == s;
      Columns1(i);
    }
    New1();
    Names(1);
    var ts := cat.tables.Keys + {Metadata, AdminCredential, Sessions};
    OrderlySite(cat.tables.Keys, cat.indexes.Keys);
    OrderlyTokens(ts, cat.indexes.Keys);
    assert ts + {Tokens, DeviceAuthorizations} == TablesAt(1);
    TwoParts(cat, SiteTables(), TokenTables(), ts, cat.indexes.Keys, TablesAt(1), IndexesAt(1));
    CreationStep(1, cat, m, NewIn(1));
  }

  lemma New2()
    ensures NewIn(2) == {OauthClients, OauthAuthorizationCodes, OauthTokens, OauthPendingAuthorizations, OauthSessions}
    ensures IndexedIn(2) == {OauthCodesExpiry, OauthTokensExpiry, OauthPendingSource, OauthPendingExpiry,
                             OauthSessionsExpiry}
    ensures Rollback2() == [DropTables(NewIn(2))]
    ensures Migration2() == ClientTables() + SessionTables()
  {
    assert NewIn(2) == {OauthAuthorizationCodes, OauthPendingAuthorizations, OauthTokens, OauthSessions, OauthClients};
  }

  lemma Columns2(i: nat)
    requires i < |Migration2()|
    ensures OnOriginal(Migration2()[i]) && CreatesIn(Migration2()[i], NewIn(2))
  {
  }

  lemma Step2(cat: Catalog)
    requires Stage(1, cat)
    ensures StepsTo(2, cat)
  {
    hide Migration2, Original, OnOriginal, CreatesIn, Closed, Tame, Admits, Preserved, TablesAt, IndexesAt, NewIn,
      IndexedIn, AllLegal, Effects, Orderly, Wide, Extends, StepsTo;
    var m := Migration2();
    forall s | s in m ensures OnOriginal(s) && CreatesIn(s, NewIn(2)) {
      var i: nat :| i < |m| && m[i] == s;
      Columns2(i);
    }
    New2();
    Names(2);
    var ts := cat.tables.Keys + {OauthClients, OauthAuthorizationCodes, OauthTokens};
    var ixs := cat.indexes.Keys + {OauthCodesExpiry, OauthTokensExpiry};
    OrderlyClients(cat.tables.Keys, cat.indexes.Keys);
    OrderlySessions(ts, ixs);
    assert ts + {OauthPendingAuthorizations, OauthSessions} == TablesAt(2);
    assert ixs + {OauthPendingSource, OauthPendingExpiry, OauthSessionsExpiry} == IndexesAt(2);
    TwoParts(cat, ClientTables(), SessionTables(), ts, ixs, TablesAt(2), IndexesAt(2));
    CreationStep(2, cat, m, NewIn(2));
  }

  lemma TwoParts(cat: Catalog, a: seq<Statement>, b: seq<Statement>, ts: set<TableName>, ixs: set<IndexName>,
                 allTables: set<TableName>, allIndexes: set<IndexName>)
    requires Wide(cat) && Orderly(cat.tables.Keys, cat.indexes.Keys, cat.epochFunction, a, ts, ixs)
    requires Orderly(ts, ixs, cat.epochFunction, b, allTables, allIndexes)
    requires forall s <- a + b :: OnOriginal(s)
    ensures AllLegal(cat, a + b)
    ensures var next := Effects(cat, a + b);
      Extends(cat, next) && Wide(next) && next.tables.Keys == allTables && next.indexes.Keys == allIndexes
  {
    hide Wide, Orderly, OnOriginal, AllLegal, Effects, Original;
    assert forall s <- a :: s in a + b;
    assert forall s <- b :: s in a + b;
    OrderlyBuilds(cat, a, ts, ixs);
    OrderlyBuilds(Effects(cat, a), b, allTables, allIndexes);
    ScriptsCompose(cat, a, b);
  }

  lemma Member(t: TableName, k: nat)
    requires TableVersion(t) <= k
    ensures t in TablesAt(k)
  {
    hide TableVersion;
  }

  lemma Read4()
    ensures |Migration4()| == 3 && Migration4()[2] == Listed(OauthTokensSubject, OauthTokens, [Subject], AllRows)
    ensures Rollback4() == [DropIndex(OauthTokensSubject, true), DropTables(NewIn(4))]
    ensures NewIn(4) == {OauthGrants} && IndexedIn(4) == {OauthGrantsLive, OauthTokensSubject}
    ensures forall i | 0 <= i < 3 :: OnOriginal(Migration4()[i])
    ensures forall i | 0 <= i < 2 :: CreatesIn(Migration4()[i], NewIn(4))
  {
    assert NewIn(4) == {OauthGrants};
  }

  /** The index on the token table belongs to migration 4 although its table does not. */
  lemma Step4(cat: Catalog)
    requires Stage(3, cat)
    ensures StepsTo(4, cat)
  {
    hide Migration4, Rollback4, Original, OnOriginal, CreatesIn, Closed, Tame, Admits, Preserved, TablesAt, IndexesAt,
      NewIn, IndexedIn, AllLegal, Effects, Orderly, Wide, Extends, Legal, Effect;
    var m := Migration4();
    Read4();
    Names(4);
    Member(OauthClients, 3);
    Member(OauthTokens, 3);
    Orderly4(cat.tables.Keys, cat.indexes.Keys);
    OrderlyBuilds(cat, m, TablesAt(4), IndexesAt(4));
    EffectsStayClosed(cat, m);
    StageCreates(4, cat, Effects(cat, m));
    var a, s := m[..2], m[2];
    assert m == a + [s];
    ScriptsCompose(cat, a, [s]);
    var mid := Effects(cat, a);
    Single(mid, s);
    CreatedAndDropped(cat, a, NewIn(4));
    Undo4(cat, mid, s);
  }

  lemma Undo4(cat: Catalog, mid: Catalog, s: Statement)
    requires s.CreateIndex? && s.index == OauthTokensSubject && Legal(mid, s)
    requires Legal(mid, DropTables(NewIn(4))) && Effect(mid, DropTables(NewIn(4))) == cat
    requires Rollback4() == [DropIndex(OauthTokensSubject, true), DropTables(NewIn(4))]
    ensures AllLegal(Effect(mid, s), Rollback4()) && Effects(Effect(mid, s), Rollback4()) == cat
  {
    IndexUndone(mid, s.index, s.on, true);
    hide AllLegal, Effects, Effect, Rollback4, NewIn, Legal;
    var r := Rollback4();
    Following(Effect(mid, s), r, 0);
    Following(mid, r, 1);
    Finished(cat, r);
    Finished(Effect(mid, s), r);
  }

  // ---------------------------------------------------------------- migrations that alter

  lemma StageAlters(k: nat, cat: Catalog, t: TableName, table: Table)
    requires (k == 3 && t == OauthTokens) || (k == 8 && t == OauthClients)
    requires Stage(k - 1, cat) && t in cat.tables && Closed(With(cat, t, table))
    requires Tame(table) && Original(t).columns.Keys <= table.columns.Keys
    requires (Revocable(Original(t)) ==> Revocable(table)) && Admits(t, table)
    requires k < 5 ==> Preserved(t, table)
    ensures Stage(k, With(cat, t, table))
  {
    hide Original, Closed, TablesAt, IndexesAt, TableStage, Tame, Admits, Preserved, Wide;
    NothingNew(k);
    WideWith(cat, t, table);
    var next := With(cat, t, table);
    assert next.tables.Keys == cat.tables.Keys;
    forall u | u in next.tables ensures TableStage(k, u, next.tables[u]) {
      if u != t { assert TableStage(k - 1, u, cat.tables[u]); }
      StaysAtStage(k, t, table, u, next.tables[u]);
    }
  }

  lemma WideWith(cat: Catalog, t: TableName, table: Table)
    requires Wide(cat) && Original(t).columns.Keys <= table.columns.Keys
    ensures Wide(With(cat, t, table))
  {
    hide Original;
  }

  lemma StaysAtStage(k: nat, t: TableName, table: Table, u: TableName, was: Table)
    requires (k == 3 && t == OauthTokens) || (k == 8 && t == OauthClients)
    requires (Revocable(Original(t)) ==> Revocable(table)) && Admits(t, table)
    requires if u == t then was == table && Tame(table) && (k < 5 ==> Preserved(t, table))
             else TableStage(k - 1, u, was)
    ensures TableStage(k, u, was)
  {
    OnlyAlters(k, t, u);
    hide Original, Tame, Preserved, AlteredBy, Revocable, Admits;
  }

  lemma NothingNew(k: nat)
    requires k in {3, 5, 8}
    ensures TablesAt(k) == TablesAt(k - 1) && IndexesAt(k) == IndexesAt(k - 1)
  {
  }

  lemma Read8()
    ensures Migration8() == [AlterTable(OauthClients, AddColumn(Capabilities, Defaulted(TextArray, EmptyArray), None))]
    ensures Rollback8() == [AlterTable(OauthClients, DropColumn(Capabilities, true))]
    ensures Capabilities !in Original(OauthClients).columns && !AlteredBy(OauthClients, 7)
  {
  }

  lemma Step8(cat: Catalog)
    requires Stage(7, cat)
    ensures StepsTo(8, cat)
  {
    hide Migration8, Rollback8, Original, Closed, Tame, Admits, Preserved, TablesAt, IndexesAt, AllLegal, Effects,
      Effect, Legal, Wider, Stage, AlteredBy;
    Read8();
    OnlyAlters(8, OauthClients, OauthClients);
    OriginalAt(7, cat, OauthClients);
    var m, r, def := Migration8(), Rollback8(), Defaulted(TextArray, EmptyArray);
    var next := Wider(cat, OauthClients, map[Capabilities := def], map[]);
    NothingWider(cat, OauthClients);
    Widening(cat, OauthClients, map[], map[], m, 0, Capabilities, def, None);
    Finished(next, m);
    Narrowing(cat, OauthClients, map[Capabilities := def], map[], r, 0, Capabilities, true);
    assert map[][Capabilities := def] == map[Capabilities := def];
    assert map[Capabilities := def] - {Capabilities} == map[];
    var none: map<Column, Reference> := map[];
    assert none - {Capabilities} == none;
    Finished(cat, r);
    EffectsStayClosed(cat, m);
    CapableAdmits();
    WiderStage(8, cat, OauthClients, map[Capabilities := def]);
  }

  lemma OriginalAt(k: nat, cat: Catalog, t: TableName)
    requires Stage(k, cat) && TableVersion(t) <= k && !AlteredBy(t, k)
    ensures Closed(cat) && t in cat.tables && cat.tables[t] == Original(t)
  {
    Member(t, k);
    hide Original, Closed, Tame, Admits, Preserved, TablesAt, IndexesAt, Wide, TableVersion, AlteredBy;
    assert TableStage(k, t, cat.tables[t]);
  }

  lemma OtherAdmits(t: TableName, table: Table)
    requires t != OauthClients && t != OauthTokens
    ensures Admits(t, table)
  {
  }

  lemma CapableConforms(w: string)
    requires Capabilities !in OauthClientsTable().columns
    ensures RowConforms(WiderTable(OauthClientsTable(), map[Capabilities := Defaulted(TextArray, EmptyArray)], map[]),
                        Word(w), ClientRow(w))
  {
    hide Passes, CellConforms, ClientRow, OauthClientsTable;
    ClientConforms(w);
    CapableCell(w);
  }

  lemma CapableCell(w: string)
    ensures CellConforms(Defaulted(TextArray, EmptyArray), At(ClientRow(w), Capabilities))
  {
  }

  lemma CapableAdmits()
    requires Capabilities !in Original(OauthClients).columns
    ensures Admits(OauthClients,
                   WiderTable(Original(OauthClients), map[Capabilities := Defaulted(TextArray, EmptyArray)], map[]))
  {
    hide RowConforms, ClientRow, TokenRow, OauthClientsTable, WiderTable;
    var t := WiderTable(Original(OauthClients), map[Capabilities := Defaulted(TextArray, EmptyArray)], map[]);
    forall w: string ensures RowConforms(t, Word(w), ClientRow(w)) { CapableConforms(w); }
  }

  lemma WiderStage(k: nat, cat: Catalog, t: TableName, more: map<Column, ColumnDef>)
    requires (k == 3 && t == OauthTokens) || (k == 8 && t == OauthClients)
    requires Stage(k - 1, cat) && t in cat.tables && more.Keys !! cat.tables[t].columns.Keys
    requires Closed(Wider(cat, t, more, map[])) && Admits(t, WiderTable(cat.tables[t], more, map[]))
    ensures Stage(k, Wider(cat, t, more, map[]))
  {
    hide Original, Closed, TablesAt, IndexesAt, AlteredBy;
    assert TableStage(k - 1, t, cat.tables[t]);
    StageAlters(k, cat, t, WiderTable(cat.tables[t], more, map[]));
  }

  const NO_REFS: map<Column, Reference> := map[]

  /** What migration 3 adds to the token table, and how it leaves it. */
  function Binding(): map<Column, ColumnDef> {
    map[OperationId := Optional(Text)][RequestDigest := Optional(Text)][ActorClientId := Optional(Text)]
      [BrokerClientId := Optional(Text)]
  }

  function BoundTokens(cat: Catalog): Catalog
    requires OauthTokens in cat.tables
  {
    Wider(cat, OauthTokens, Binding(), NO_REFS)
  }

  const BIND := AlterTable(OauthTokens, AddCheck(TokenOperationBindingIsComplete))
  const RESERVE := AlterTable(OauthTokens, AddCheck(TokenSingleUseIsBound))

  predicate Lines3(m: seq<Statement>) {
    |m| == 6
    && m[0] == AlterTable(OauthTokens, AddColumn(OperationId, Optional(Text), None))
    && m[1] == AlterTable(OauthTokens, AddColumn(RequestDigest, Optional(Text), None))
    && m[2] == AlterTable(OauthTokens, AddColumn(ActorClientId, Optional(Text), None))
    && m[3] == AlterTable(OauthTokens, AddColumn(BrokerClientId, Optional(Text), None))
    && m[4] == BIND && m[5] == RESERVE
  }

  predicate BackLines3(r: seq<Statement>) {
    |r| == 6
    && r[0] == AlterTable(OauthTokens, DropCheck(TokenSingleUseIsBound, true))
    && r[1] == AlterTable(OauthTokens, DropCheck(TokenOperationBindingIsComplete, true))
    && r[2] == AlterTable(OauthTokens, DropColumn(OperationId, true))
    && r[3] == AlterTable(OauthTokens, DropColumn(RequestDigest, true))
    && r[4] == AlterTable(OauthTokens, DropColumn(ActorClientId, true))
    && r[5] == AlterTable(OauthTokens, DropColumn(BrokerClientId, true))
  }

  lemma Adding3(cat: Catalog, m: seq<Statement>)
    requires Closed(cat) && OauthTokens in cat.tables && cat.tables[OauthTokens] == Original(OauthTokens)
    requires Lines3(m) && Original(OauthTokens).columns.Keys !! Binding().Keys
    ensures AllLegal(cat, m) == AllLegal(BoundTokens(cat), m[4..])
    ensures Effects(cat, m) == Effects(BoundTokens(cat), m[4..])
  {
    hide Original, Closed, AllLegal, Effects, Wider;
    var def := Optional(Text);
    var n1 := map[][OperationId := def];
    var n2 := n1[RequestDigest := def];
    var n3 := n2[ActorClientId := def];
    NothingWider(cat, OauthTokens);
    Widening(cat, OauthTokens, map[], NO_REFS, m, 0, OperationId, def, None);
    Widening(cat, OauthTokens, n1, NO_REFS, m, 1, RequestDigest, def, None);
    Widening(cat, OauthTokens, n2, NO_REFS, m, 2, ActorClientId, def, None);
    Widening(cat, OauthTokens, n3, NO_REFS, m, 3, BrokerClientId, def, None);
    assert n3[BrokerClientId := def] == Binding();
    Finished(cat, m);
  }

  lemma Dropping3(cat: Catalog, r: seq<Statement>)
    requires Closed(cat) && OauthTokens in cat.tables && cat.tables[OauthTokens] == Original(OauthTokens)
    requires BackLines3(r) && Original(OauthTokens).columns.Keys !! Binding().Keys
    ensures AllLegal(BoundTokens(cat), r[2..]) && Effects(BoundTokens(cat), r[2..]) == cat
  {
    hide Original, Closed, AllLegal, Effects, Wider;
    var d1 := Binding() - {OperationId};
    var d2 := d1 - {RequestDigest};
    var d3 := d2 - {ActorClientId};
    assert NO_REFS - {OperationId} == NO_REFS && NO_REFS - {RequestDigest} == NO_REFS
      && NO_REFS - {ActorClientId} == NO_REFS && NO_REFS - {BrokerClientId} == NO_REFS;
    Narrowing(cat, OauthTokens, Binding(), NO_REFS, r, 2, OperationId, true);
    Narrowing(cat, OauthTokens, d1, NO_REFS, r, 3, RequestDigest, true);
    Narrowing(cat, OauthTokens, d2, NO_REFS, r, 4, ActorClientId, true);
    Narrowing(cat, OauthTokens, d3, NO_REFS, r, 5, BrokerClientId, true);
    assert d3 - {BrokerClientId} == map[];
    NothingWider(cat, OauthTokens);
    Finished(cat, r);
  }

  /** The token table that migration 3 leaves. */
  function CheckedTokens(): Table {
    var table := WiderTable(Original(OauthTokens), Binding(), NO_REFS);
    table.(checks := table.checks + {TokenOperationBindingIsComplete} + {TokenSingleUseIsBound})
  }

  lemma TokenChecks()
    ensures Original(OauthTokens).checks == {TokenConsumedRequiresSingleUse}
    ensures SingleUse in Original(OauthTokens).columns
    ensures Mentions(TokenOperationBindingIsComplete) <= Binding().Keys
    ensures Mentions(TokenSingleUseIsBound) <= Binding().Keys + {SingleUse}
  {
  }

  lemma BindingCell(w: string, c: Column)
    requires c in Binding()
    ensures CellConforms(Binding()[c], At(TokenRow(w), c))
  {
  }

  lemma CheckedConforms(w: string)
    requires Original(OauthTokens).columns.Keys !! Binding().Keys
    ensures RowConforms(CheckedTokens(), Word(w), TokenRow(w))
  {
    hide Passes, CellConforms, TokenRow, OauthTokensTable, Binding;
    TokenConforms(w);
    forall k | k in {TokenConsumedRequiresSingleUse, TokenOperationBindingIsComplete, TokenSingleUseIsBound}
      ensures Passes(k, Word(w), TokenRow(w))
    {
      TokenPasses(w, k);
    }
    TokenChecks();
    var t := CheckedTokens();
    forall c | c in t.columns && c != t.key ensures CellConforms(t.columns[c], At(TokenRow(w), c)) {
      if c in Binding() { BindingCell(w, c); }
    }
  }

  lemma CheckedKeeps()
    requires Original(OauthTokens).columns.Keys !! Binding().Keys
    ensures Tame(CheckedTokens()) && Preserved(OauthTokens, CheckedTokens())
    ensures Original(OauthTokens).columns.Keys <= CheckedTokens().columns.Keys
    ensures Revocable(Original(OauthTokens)) ==> Revocable(CheckedTokens())
    ensures Admits(OauthTokens, CheckedTokens())
  {
    hide Original, Binding, RowConforms, TokenRow;
    assert Tame(Original(OauthTokens)) by { OriginalIsTame(OauthTokens); }
    forall w: string ensures RowConforms(CheckedTokens(), Word(w), TokenRow(w)) { CheckedConforms(w); }
  }

  lemma Checking3(cat: Catalog, mid: Catalog, last: Catalog)
    requires OauthTokens in cat.tables && cat.tables[OauthTokens] == Original(OauthTokens)
    requires mid == Effect(BoundTokens(cat), BIND) && last == Effect(mid, RESERVE)
    ensures Legal(BoundTokens(cat), BIND) && Legal(mid, RESERVE)
    ensures last == With(cat, OauthTokens, CheckedTokens())
  {
    hide Original, Mentions, Binding, Effect;
    TokenChecks();
    var table := WiderTable(Original(OauthTokens), Binding(), NO_REFS);
    var one := table.(checks := table.checks + {TokenOperationBindingIsComplete});
    AlteredWith(cat, OauthTokens, table, AddCheck(TokenOperationBindingIsComplete));
    AlteredWith(cat, OauthTokens, one, AddCheck(TokenSingleUseIsBound));
    assert table.columns.Keys == Original(OauthTokens).columns.Keys + Binding().Keys;
  }

  lemma Read3()
    ensures Lines3(Migration3()) && BackLines3(Rollback3())
    ensures Original(OauthTokens).columns.Keys !! Binding().Keys
  {
  }

  lemma Step3(cat: Catalog)
    requires Stage(2, cat)
    ensures StepsTo(3, cat)
  {
    hide Original, Closed, AllLegal, Effects, Effect, Legal, Wider, Stage, Migration3, Rollback3, Binding, AlteredBy,
      Tame, Admits, Preserved, CheckedTokens;
    Read3();
    OnlyAlters(3, OauthTokens, OauthTokens);
    OriginalAt(2, cat, OauthTokens) by { Unaltered(2); }
    var m, r, wide := Migration3(), Rollback3(), BoundTokens(cat);
    var mid := Effect(wide, BIND);
    var last := Effect(mid, RESERVE);
    Checking3(cat, mid, last);
    Adding3(cat, m);
    Following(wide, m, 4);
    Following(mid, m, 5);
    Finished(last, m);
    EffectsStayClosed(cat, m);
    CheckUndone(wide, OauthTokens, TokenOperationBindingIsComplete, true);
    CheckUndone(mid, OauthTokens, TokenSingleUseIsBound, true);
    Following(last, r, 0);
    Following(mid, r, 1);
    Dropping3(cat, r);
    Finished(last, r);
    CheckedKeeps();
    StageAlters(3, cat, OauthTokens, CheckedTokens());
  }

  lemma Unaltered(k: nat)
    ensures k < 3 ==> !AlteredBy(OauthTokens, k)
    ensures k < 10 ==> !AlteredBy(Approvals, k)
    ensures k < 11 ==> !AlteredBy(ApprovalWindows, k)
    ensures !AlteredBy(Metadata, k)
  {
  }

  /** Everything but one table is at this stage. */
  ghost predicate StageBut(k: nat, cat: Catalog, t: TableName) {
    && Wide(cat) && cat.tables.Keys == TablesAt(k) && cat.indexes.Keys == IndexesAt(k)
    && (cat.epochFunction <==> k >= 5)
    && forall u <- cat.tables | u != t :: TableStage(k, u, cat.tables[u])
  }

  lemma StageDone(k: nat, cat: Catalog, t: TableName, table: Table)
    requires StageBut(k, cat, t) && t in cat.tables && Closed(With(cat, t, table))
    requires k >= 5 && AlteredBy(t, k) && Tame(table) && Original(t).columns.Keys <= table.columns.Keys
    requires (Revocable(Original(t)) ==> Revocable(table)) && Admits(t, table)
    requires t == Approvals ==> NamesWindow(table)
    ensures Stage(k, With(cat, t, table))
  {
    hide Original, Closed, TablesAt, IndexesAt, Tame, Admits, Preserved, Wide, AlteredBy;
    WideWith(cat, t, table);
    var next := With(cat, t, table);
    assert next.tables.Keys == cat.tables.Keys;
    forall u | u in next.tables ensures TableStage(k, u, next.tables[u]) {
      if u != t { assert TableStage(k, u, cat.tables[u]); }
    }
  }

  // ---------------------------------------------------------------- migration 10

  const WINDOW_REF: map<Column, Reference> := map[DecidedByWindow := Reference(ApprovalWindows, SetNull)]
  const WINDOW_COLUMN: map<Column, ColumnDef> := map[DecidedByWindow := Optional(Text)]
  const LINK :=
    AlterTable(Approvals, AddColumn(DecidedByWindow, Optional(Text), Some(Reference(ApprovalWindows, SetNull))))

  lemma Read10()
    ensures Migration10() == WindowTable() + [LINK]
    ensures Rollback10() == [AlterTable(Approvals, DropColumn(DecidedByWindow, true)), DropTables(NewIn(10))]
    ensures NewIn(10) == {ApprovalWindows} && IndexedIn(10) == {ApprovalWindowMatch, ApprovalWindowGrant}
    ensures DecidedByWindow !in Original(Approvals).columns
  {
    hide WindowTable, ApprovalsTable;
    assert NewIn(10) == {ApprovalWindows};
    NoDecider();
  }

  lemma NoDecider()
    ensures DecidedByWindow !in ApprovalsTable().columns
  {
  }

  lemma Columns10(i: nat)
    requires i < |WindowTable()|
    ensures OnOriginal(WindowTable()[i]) && CreatesIn(WindowTable()[i], {ApprovalWindows})
  {
  }

  /** The first half of migration 10. */
  lemma Windows10(cat: Catalog)
    requires Stage(9, cat)
    ensures AllLegal(cat, WindowTable()) && Closed(Effects(cat, WindowTable()))
    ensures Extends(cat, Effects(cat, WindowTable())) && StageBut(10, Effects(cat, WindowTable()), Approvals)
    ensures {ApprovalWindows} !! cat.tables.Keys && forall s <- WindowTable() :: CreatesIn(s, {ApprovalWindows})
  {
    hide WindowTable, Original, OnOriginal, CreatesIn, Closed, TablesAt, IndexesAt, NewIn, IndexedIn, AllLegal,
      Effects, Orderly, Wide, TableStage;
    var m := WindowTable();
    forall s | s in m ensures OnOriginal(s) && CreatesIn(s, {ApprovalWindows}) {
      var i: nat :| i < |m| && m[i] == s;
      Columns10(i);
    }
    Read10();
    Names(10);
    Orderly10(cat.tables.Keys, cat.indexes.Keys);
    OrderlyBuilds(cat, m, TablesAt(10), IndexesAt(10));
    EffectsStayClosed(cat, m);
    var next := Effects(cat, m);
    forall u | u in next.tables && u != Approvals ensures TableStage(10, u, next.tables[u]) {
      if u in cat.tables {
        assert TableStage(9, u, cat.tables[u]);
        TableMovesOn(10, Approvals, u, cat.tables[u]);
      } else {
        NewTableStage(10, u);
      }
    }
  }

  lemma TableMovesOn(k: nat, t: TableName, u: TableName, table: Table)
    requires (k == 10 && t == Approvals) || (k == 11 && t == ApprovalWindows)
    requires u != t && TableStage(k - 1, u, table)
    ensures TableStage(k, u, table)
  {
    OnlyAlters(k, t, u);
    hide Original, Tame, Preserved, AlteredBy, Revocable, Admits;
  }

  lemma NewTableStage(k: nat, t: TableName)
    requires t != Approvals
    ensures TableStage(k, t, Original(t))
  {
    OriginalAdmits(t);
    OriginalIsTame(t);
    OriginalIsPreserved(t);
    hide Original, Tame, Preserved, AlteredBy, Revocable, Admits;
  }

  lemma Step10(cat: Catalog)
    requires Stage(9, cat)
    ensures StepsTo(10, cat)
  {
    hide Original, Closed, AllLegal, Effects, Effect, Legal, Wider, Stage, StageBut, Migration10, Rollback10,
      AlteredBy, WindowTable, NewIn, CreatesIn;
    Read10();
    Windows10(cat);
    var a := WindowTable();
    var mid, m, r := Effects(cat, a), Migration10(), Rollback10();
    OriginalAt(9, cat, Approvals) by { Unaltered(9); }
    Names(10);
    assert mid.tables[Approvals] == Original(Approvals) && ApprovalWindows in mid.tables by { Mid10(cat, mid); }
    var next := Wider(mid, Approvals, WINDOW_COLUMN, WINDOW_REF);
    NothingWider(mid, Approvals);
    Widening(mid, Approvals, map[], map[], [LINK], 0, DecidedByWindow, Optional(Text),
             Some(Reference(ApprovalWindows, SetNull)));
    Finished(next, [LINK]);
    Finished(mid, [LINK]);
    ScriptsCompose(cat, a, [LINK]);
    EffectsStayClosed(cat, m);
    CreatedAndDropped(cat, a, {ApprovalWindows});
    Undo10(cat, mid, r);
    Linked10(mid);
  }

  lemma Undo10(cat: Catalog, mid: Catalog, r: seq<Statement>)
    requires r == [AlterTable(Approvals, DropColumn(DecidedByWindow, true)), DropTables(NewIn(10))]
    requires Closed(mid) && Approvals in mid.tables && DecidedByWindow !in mid.tables[Approvals].columns
    requires Legal(mid, DropTables(NewIn(10))) && Effect(mid, DropTables(NewIn(10))) == cat
    ensures var next := Wider(mid, Approvals, WINDOW_COLUMN, WINDOW_REF);
      AllLegal(next, r) && Effects(next, r) == cat
  {
    hide Closed, AllLegal, Effects, Effect, Legal, Wider, NewIn;
    Narrowing(mid, Approvals, WINDOW_COLUMN, WINDOW_REF, r, 0, DecidedByWindow, true);
    assert WINDOW_COLUMN - {DecidedByWindow} == map[] && WINDOW_REF - {DecidedByWindow} == map[];
    NothingWider(mid, Approvals);
    Following(mid, r, 1);
    Finished(cat, r);
  }

  lemma Mid10(cat: Catalog, mid: Catalog)
    requires Extends(cat, mid) && StageBut(10, mid, Approvals)
    requires Approvals in cat.tables && cat.tables[Approvals] == Original(Approvals)
    ensures Approvals in mid.tables && mid.tables[Approvals] == Original(Approvals) && ApprovalWindows in mid.tables
  {
    hide Original, TableStage, Wide;
    Member(ApprovalWindows, 10);
  }

  lemma LinkedIsTame(t: Table)
    requires Tame(t) && DecidedByWindow !in t.columns
    ensures Tame(WiderTable(t, WINDOW_COLUMN, WINDOW_REF)) && NamesWindow(WiderTable(t, WINDOW_COLUMN, WINDOW_REF))
  {
  }

  lemma LinkedTable(t: Table)
    requires DecidedByWindow !in t.columns
    ensures Revocable(t) ==> Revocable(WiderTable(t, WINDOW_COLUMN, WINDOW_REF))
    ensures t.columns.Keys <= WiderTable(t, WINDOW_COLUMN, WINDOW_REF).columns.Keys
  {
    hide WINDOW_REF;
  }

  lemma Linked10(mid: Catalog)
    requires StageBut(10, mid, Approvals) && Approvals in mid.tables && mid.tables[Approvals] == Original(Approvals)
    requires Closed(Wider(mid, Approvals, WINDOW_COLUMN, WINDOW_REF))
    ensures Stage(10, Wider(mid, Approvals, WINDOW_COLUMN, WINDOW_REF))
  {
    hide Original, Closed, StageBut, Stage, Tame, Admits, Revocable, WiderTable, NamesWindow;
    OriginalIsTame(Approvals);
    OnlyAlters(10, Approvals, Approvals);
    Read10();
    LinkedIsTame(Original(Approvals));
    LinkedTable(Original(Approvals));
    OtherAdmits(Approvals, WiderTable(mid.tables[Approvals], WINDOW_COLUMN, WINDOW_REF));
    StageDone(10, mid, Approvals, WiderTable(mid.tables[Approvals], WINDOW_COLUMN, WINDOW_REF));
  }

  // ---------------------------------------------------------------- migration 5

  function Dated(table: Table, d: Default): Table {
    Altered(table, SetDefault(RecoveryEpoch, d))
  }

  function AllDated(cat: Catalog, ts: seq<TableName>, d: Default): Catalog {
    cat.(tables := map t | t in cat.tables :: if t in ts then Dated(cat.tables[t], d) else cat.tables[t])
  }

  lemma DatedTwice(table: Table, d: Default, e: Default)
    ensures Dated(Dated(table, d), e) == Dated(table, e)
  {
    if RecoveryEpoch in table.columns {
      var c := table.columns[RecoveryEpoch];
      assert table.columns[RecoveryEpoch := c.(default := d)][RecoveryEpoch := c.(default := e)]
        == table.columns[RecoveryEpoch := c.(default := e)];
    }
  }

  lemma DatedOnce(cat: Catalog, t: TableName, ts: seq<TableName>, d: Default)
    requires t in cat.tables
    ensures AllDated(Effect(cat, AlterTable(t, SetDefault(RecoveryEpoch, d))), ts, d) == AllDated(cat, [t] + ts, d)
  {
    hide Altered;
    DatedTwice(cat.tables[t], d, d);
    var next := Effect(cat, AlterTable(t, SetDefault(RecoveryEpoch, d)));
    var a, b := AllDated(next, ts, d), AllDated(cat, [t] + ts, d);
    forall u | u in a.tables ensures a.tables[u] == b.tables[u] {
      assert u in [t] + ts <==> u == t || u in ts;
    }
    assert a.tables == b.tables;
  }

  /** The loop over the epoch tables sets each of their defaults, and nothing else. */
  lemma {:induction false} DefaultsSet(cat: Catalog, ts: seq<TableName>, d: Default)
    requires forall t <- ts :: t in cat.tables && RecoveryEpoch in cat.tables[t].columns
    requires EpochAvailable(cat, d)
    ensures AllLegal(cat, EpochDefaults(ts, d)) && Effects(cat, EpochDefaults(ts, d)) == AllDated(cat, ts, d)
    decreases |ts|
  {
    hide Altered, AllDated;
    if ts == [] {
      NothingDated(cat, d);
    } else {
      var script := EpochDefaults(ts, d);
      var next := Effect(cat, script[0]);
      assert script[1..] == EpochDefaults(ts[1..], d);
      assert ts == [ts[0]] + ts[1..];
      assert forall t <- ts[1..] :: t in ts;
      StillDated(cat, ts[0], d);
      DefaultsSet(next, ts[1..], d);
      DatedOnce(cat, ts[0], ts[1..], d);
    }
  }

  lemma StillDated(cat: Catalog, t: TableName, d: Default)
    requires t in cat.tables
    ensures var next := Effect(cat, AlterTable(t, SetDefault(RecoveryEpoch, d)));
      next.tables.Keys == cat.tables.Keys && next.epochFunction == cat.epochFunction
      && forall u <- next.tables :: next.tables[u].columns.Keys == cat.tables[u].columns.Keys
  {
  }

  lemma NothingDated(cat: Catalog, d: Default)
    ensures AllDated(cat, [], d) == cat
  {
    assert AllDated(cat, [], d).tables == cat.tables;
  }

  predicate HasEpoch(def: Table) {
    RecoveryEpoch in def.columns && def.columns[RecoveryEpoch] == Defaulted(Bigint, Zero)
  }

  lemma SiteEpochs()
    ensures HasEpoch(TokensTable()) && HasEpoch(SessionsTable()) && HasEpoch(DeviceAuthorizationsTable())
  {
  }

  lemma TokenEpochs()
    ensures HasEpoch(OauthTokensTable()) && HasEpoch(OauthGrantsTable()) && HasEpoch(OauthSessionsTable())
  {
  }

  lemma CodeEpochs()
    ensures HasEpoch(OauthAuthorizationCodesTable()) && HasEpoch(OauthPendingAuthorizationsTable())
  {
  }

  lemma EpochColumns(t: TableName)
    requires t in EPOCH_TABLES
    ensures TableVersion(t) <= 4 && RecoveryEpoch in Original(t).columns
    ensures Original(t).columns[RecoveryEpoch] == Defaulted(Bigint, Zero)
  {
    SiteEpochs();
    TokenEpochs();
    CodeEpochs();
    hide TokensTable, SessionsTable, DeviceAuthorizationsTable, OauthTokensTable, OauthGrantsTable, OauthSessionsTable,
      OauthAuthorizationCodesTable, OauthPendingAuthorizationsTable;
  }

  /** Before migration 5 every one of its tables has an epoch column that defaults to zero. */
  lemma EpochsAt4(cat: Catalog, t: TableName)
    requires Stage(4, cat) && t in EPOCH_TABLES
    ensures t in cat.tables && RecoveryEpoch in cat.tables[t].columns
    ensures Dated(cat.tables[t], Zero) == cat.tables[t]
  {
    hide Original, Closed, Wide, TablesAt, IndexesAt, AlteredBy, EPOCH_TABLES, Tame, Admits;
    EpochColumns(t);
    Member(t, 4);
    assert TableStage(4, t, cat.tables[t]);
    var table := cat.tables[t];
    assert table.columns[RecoveryEpoch := table.columns[RecoveryEpoch]] == table.columns;
  }

  function Switched(cat: Catalog): Catalog {
    cat.(epochFunction := true)
  }

  lemma Starting5(cat: Catalog, a: seq<Statement>)
    requires Metadata in cat.tables
    requires |a| == 2 && a[0].InsertIfAbsent? && a[0].into == Metadata && a[1] == CreateEpochFunction
    ensures AllLegal(cat, a) && Effects(cat, a) == Switched(cat)
  {
    Following(cat, a, 0);
    Following(cat, a, 1);
    Finished(Switched(cat), a);
    hide AllLegal, Effects;
    assert a[0..] == a;
  }

  lemma CounterDropLegal(cat: Catalog)
    requires Stage(4, cat)
    ensures Legal(cat, DeleteRow(Metadata, EPOCH_KEY)) && Closed(cat) && !cat.epochFunction
  {
    hide Original, Wide, TablesAt, IndexesAt, AlteredBy, Preserved, Closed, Tame, Admits, Revocable, EPOCH_KEY;
    Member(Metadata, 4);
    forall u | u in cat.tables ensures Metadata !in References(cat.tables[u]) {
      assert TableStage(4, u, cat.tables[u]);
      TameSparesMetadata(cat.tables[u]);
    }
  }

  lemma TameSparesMetadata(table: Table)
    requires Tame(table)
    ensures Metadata !in References(table)
  {
  }

  lemma Stripping5(cat: Catalog, b: seq<Statement>)
    requires Stage(4, cat) && b == [DropEpochFunction, DeleteRow(Metadata, EPOCH_KEY)]
    ensures AllLegal(Switched(cat), b) && Effects(Switched(cat), b) == cat
  {
    hide Stage, AllLegal, Effects, EPOCH_KEY;
    CounterDropLegal(cat);
    Unstripped(cat);
    Following(Switched(cat), b, 0);
    hide Closed;
    Following(cat, b, 1);
    Finished(cat, b);
    Finished(Switched(cat), b);
  }

  lemma Unstripped(cat: Catalog)
    requires Closed(cat) && !cat.epochFunction
    ensures Effect(Switched(cat), DropEpochFunction) == cat
  {
    forall t | t in cat.tables ensures Stripped(cat.tables[t]) == cat.tables[t] {
      assert TableClosed(cat, cat.tables[t]);
      assert Stripped(cat.tables[t]).columns == cat.tables[t].columns;
    }
    hide Stripped;
    assert Effect(Switched(cat), DropEpochFunction).tables == cat.tables;
  }

  /** Setting the defaults back to zero leaves the tables as they were before the migration. */
  lemma Redated5(cat: Catalog)
    requires Stage(4, cat)
    ensures AllDated(AllDated(Switched(cat), EPOCH_TABLES, CurrentEpoch), EPOCH_TABLES, Zero) == Switched(cat)
  {
    hide Stage, Dated, EPOCH_TABLES;
    var on := Switched(cat);
    var back := AllDated(AllDated(on, EPOCH_TABLES, CurrentEpoch), EPOCH_TABLES, Zero);
    forall t | t in back.tables ensures back.tables[t] == cat.tables[t] {
      if t in EPOCH_TABLES {
        EpochsAt4(cat, t);
        DatedTwice(cat.tables[t], CurrentEpoch, Zero);
      }
    }
    assert back.tables == cat.tables;
  }

  lemma DatedStage(cat: Catalog, next: Catalog)
    requires Stage(4, cat) && next == AllDated(Switched(cat), EPOCH_TABLES, CurrentEpoch) && Closed(next)
    ensures Stage(5, next)
  {
    hide Original, Closed, TablesAt, IndexesAt, Preserved, Tame, Admits, AlteredBy, EPOCH_TABLES;
    NothingNew(5);
    assert next.tables.Keys == cat.tables.Keys;
    forall t | t in next.tables
      ensures TableStage(5, t, next.tables[t]) && Original(t).columns.Keys <= next.tables[t].columns.Keys
    {
      assert TableStage(4, t, cat.tables[t]);
      AlteredIn5(t);
      DatedKeeps(cat.tables[t], CurrentEpoch);
      DatedAdmits(t, cat.tables[t], CurrentEpoch);
    }
  }

  lemma AlteredIn5(t: TableName)
    ensures t !in EPOCH_TABLES ==> AlteredBy(t, 5) == AlteredBy(t, 4)
    ensures t in EPOCH_TABLES ==> AlteredBy(t, 5)
  {
  }

  lemma DatedKeeps(table: Table, d: Default)
    ensures Dated(table, d).columns.Keys == table.columns.Keys && (Tame(table) ==> Tame(Dated(table, d)))
    ensures Revocable(table) ==> Revocable(Dated(table, d))
  {
  }

  lemma DatedConforms(table: Table, d: Default, id: Cell, row: Row)
    requires RowConforms(table, id, row)
    ensures RowConforms(Dated(table, d), id, row)
  {
    hide Passes, Fits;
  }

  lemma DatedAdmits(t: TableName, table: Table, d: Default)
    requires Admits(t, table)
    ensures Admits(t, Dated(table, d))
  {
    hide RowConforms, Dated, ClientRow, TokenRow;
    forall w: string
      ensures t == OauthClients ==> RowConforms(Dated(table, d), Word(w), ClientRow(w))
      ensures t == OauthTokens ==> RowConforms(Dated(table, d), Word(w), TokenRow(w))
    {
      if t == OauthClients { DatedConforms(table, d, Word(w), ClientRow(w)); }
      if t == OauthTokens { DatedConforms(table, d, Word(w), TokenRow(w)); }
    }
  }

  lemma Read5()
    ensures |Migration5()| >= 2
    ensures Migration5()[..2] == [InsertIfAbsent(Metadata, EPOCH_KEY, map[ValueText := Word("0")]), CreateEpochFunction]
    ensures Migration5() == Migration5()[..2] + EpochDefaults(EPOCH_TABLES, CurrentEpoch)
    ensures Rollback5() == EpochDefaults(EPOCH_TABLES, Zero) + [DropEpochFunction, DeleteRow(Metadata, EPOCH_KEY)]
  {
    hide EpochDefaults;
  }

  lemma Forward5(cat: Catalog, m: seq<Statement>, next: Catalog)
    requires Stage(4, cat) && next == AllDated(Switched(cat), EPOCH_TABLES, CurrentEpoch)
    requires |m| >= 2 && m == m[..2] + EpochDefaults(EPOCH_TABLES, CurrentEpoch)
    requires m[..2] == [InsertIfAbsent(Metadata, EPOCH_KEY, map[ValueText := Word("0")]), CreateEpochFunction]
    ensures AllLegal(cat, m) && Effects(cat, m) == next && Stage(5, next)
  {
    hide Stage, AllLegal, Effects, EpochDefaults, EPOCH_TABLES, AllDated, EPOCH_KEY, Closed, Original, AlteredBy;
    Unaltered(4);
    OriginalAt(4, cat, Metadata);
    Starting5(cat, m[..2]);
    forall t | t in EPOCH_TABLES ensures t in cat.tables && RecoveryEpoch in cat.tables[t].columns {
      EpochsAt4(cat, t);
    }
    DefaultsSet(Switched(cat), EPOCH_TABLES, CurrentEpoch);
    ScriptsCompose(cat, m[..2], EpochDefaults(EPOCH_TABLES, CurrentEpoch));
    EffectsStayClosed(cat, m);
    DatedStage(cat, next);
  }

  lemma Back5(cat: Catalog, r: seq<Statement>, next: Catalog)
    requires Stage(4, cat) && next == AllDated(Switched(cat), EPOCH_TABLES, CurrentEpoch)
    requires r == EpochDefaults(EPOCH_TABLES, Zero) + [DropEpochFunction, DeleteRow(Metadata, EPOCH_KEY)]
    ensures AllLegal(next, r) && Effects(next, r) == cat
  {
    hide Stage, AllLegal, Effects, EpochDefaults, EPOCH_TABLES, AllDated, EPOCH_KEY;
    var on, b := Switched(cat), [DropEpochFunction, DeleteRow(Metadata, EPOCH_KEY)];
    AllDatedColumns(on, EPOCH_TABLES, CurrentEpoch);
    forall t | t in EPOCH_TABLES ensures t in next.tables && RecoveryEpoch in next.tables[t].columns {
      EpochsAt4(cat, t);
    }
    DefaultsSet(next, EPOCH_TABLES, Zero);
    Redated5(cat);
    Stripping5(cat, b);
    ScriptsCompose(next, EpochDefaults(EPOCH_TABLES, Zero), b);
  }

  lemma Step5(cat: Catalog)
    requires Stage(4, cat)
    ensures StepsTo(5, cat)
  {
    hide Stage, AllLegal, Effects, Migration5, Rollback5, EpochDefaults, EPOCH_TABLES, AllDated, EPOCH_KEY;
    Read5();
    var next := AllDated(Switched(cat), EPOCH_TABLES, CurrentEpoch);
    Forward5(cat, Migration5(), next);
    Back5(cat, Rollback5(), next);
  }

  lemma AllDatedColumns(cat: Catalog, ts: seq<TableName>, d: Default)
    ensures AllDated(cat, ts, d).tables.Keys == cat.tables.Keys
    ensures forall t <- cat.tables :: AllDated(cat, ts, d).tables[t].columns.Keys == cat.tables[t].columns.Keys
  {
    forall t | t in cat.tables ensures Dated(cat.tables[t], d).columns.Keys == cat.tables[t].columns.Keys {
      DatedKeeps(cat.tables[t], d);
    }
    hide Dated;
  }

  // ---------------------------------------------------------------- migration 11

  const LIMITS: set<Column> := {GrantId, ActionClass, ExpiresAt, MaxConsumptions, Consumed}

  predicate HasLimits(t: Table) {
    LIMITS <= t.columns.Keys
  }

  predicate Sets(a: Action, c: Column) {
    match a
    case SetRequired(d, _) => d == c
    case SetKind(d, _) => d == c
    case _ => false
  }

  /** Changing a column a table has, while the table also has some more. */
  lemma Setting(cat: Catalog, t: TableName, was: Table, more: map<Column, ColumnDef>, script: seq<Statement>,
                i: nat, a: Action, c: Column) returns (now: Table)
    requires i < |script| && script[i] == AlterTable(t, a) && Sets(a, c) && c in LIMITS && HasLimits(was)
    requires c !in more
    ensures now == Altered(was, a) && HasLimits(now)
    ensures var before := With(cat, t, WiderTable(was, more, NO_REFS));
      var after := With(cat, t, WiderTable(now, more, NO_REFS));
      AllLegal(before, script[i..]) == AllLegal(after, script[i + 1..])
      && Effects(before, script[i..]) == Effects(after, script[i + 1..])
  {
    hide AllLegal, Effects, Effect, WiderTable, With, Altered;
    now := Altered(was, a);
    var wide := WiderTable(was, more, NO_REFS);
    assert c in was.columns;
    SetCommutes(was, more, a, c);
    SettingLegal(cat, t, was, more, a, c);
    AlteredWith(cat, t, wide, a);
    Following(With(cat, t, wide), script, i);
  }

  lemma SettingLegal(cat: Catalog, t: TableName, table: Table, more: map<Column, ColumnDef>, a: Action, c: Column)
    requires Sets(a, c) && c in table.columns
    ensures Legal(With(cat, t, WiderTable(table, more, NO_REFS)), AlterTable(t, a))
  {
  }

  lemma SetCommutes(table: Table, more: map<Column, ColumnDef>, a: Action, c: Column)
    requires Sets(a, c) && c in table.columns && c !in more
    ensures Altered(WiderTable(table, more, NO_REFS), a) == WiderTable(Altered(table, a), more, NO_REFS)
    ensures Altered(table, a).columns.Keys == table.columns.Keys
  {
    assert Altered(WiderTable(table, more, NO_REFS), a).columns == WiderTable(Altered(table, a), more, NO_REFS).columns;
  }

  predicate Lines11(m: seq<Statement>) {
    |m| == 10
    && m[0] == Revoke(ApprovalWindows, Live, REPLACED) && m[1] == Revoke(Approvals, WindowDecided, REPLACED)
    && m[2] == AlterTable(ApprovalWindows, AddColumn(ClientBound, Defaulted(Boolean, False), None))
    && m[3] == AlterTable(ApprovalWindows, SetRequired(GrantId, false))
    && m[4] == AlterTable(ApprovalWindows, SetRequired(ActionClass, false))
    && m[5] == AlterTable(ApprovalWindows, SetRequired(ExpiresAt, false))
    && m[6] == AlterTable(ApprovalWindows, SetRequired(MaxConsumptions, false))
    && m[7] == AlterTable(ApprovalWindows, SetKind(Consumed, Bigint))
    && m[8] == SHAPE && m[9] == CreateIndex(ApprovalWindowClientLive, CLIENT_LIVE)
  }

  predicate BackLines11(r: seq<Statement>) {
    |r| == 10
    && r[0] == Revoke(Approvals, ClientDecided, ROLLED_BACK) && r[1] == Delete(ApprovalWindows, BoundToClient)
    && r[2] == DropIndex(ApprovalWindowClientLive, false)
    && r[3] == AlterTable(ApprovalWindows, DropCheck(WindowScopeShape, false))
    && r[4] == AlterTable(ApprovalWindows, DropColumn(ClientBound, false))
    && r[5] == AlterTable(ApprovalWindows, SetRequired(GrantId, true))
    && r[6] == AlterTable(ApprovalWindows, SetRequired(ActionClass, true))
    && r[7] == AlterTable(ApprovalWindows, SetRequired(ExpiresAt, true))
    && r[8] == AlterTable(ApprovalWindows, SetRequired(MaxConsumptions, true))
    && r[9] == AlterTable(ApprovalWindows, SetKind(Consumed, Int))
  }

  const SHAPE := AlterTable(ApprovalWindows, AddCheck(WindowScopeShape))
  const CLIENT_LIVE := Index(ApprovalWindows, [ClientId, Instance], {}, true, ClientBoundLive)
  const BOUND_FLAG: map<Column, ColumnDef> := map[ClientBound := Defaulted(Boolean, False)]

  lemma Read11()
    ensures Lines11(Migration11()) && BackLines11(Rollback11())
  {
  }

  function Loosened(t: Table): Table {
    Altered(Altered(Altered(Altered(Altered(t,
      SetRequired(GrantId, false)), SetRequired(ActionClass, false)), SetRequired(ExpiresAt, false)),
      SetRequired(MaxConsumptions, false)), SetKind(Consumed, Bigint))
  }

  function Tightened(t: Table): Table {
    Altered(Altered(Altered(Altered(Altered(t,
      SetRequired(GrantId, true)), SetRequired(ActionClass, true)), SetRequired(ExpiresAt, true)),
      SetRequired(MaxConsumptions, true)), SetKind(Consumed, Int))
  }

  /** The columns that migration 11 changes are as its rollback leaves them. */
  predicate Limited(t: Table) {
    && HasLimits(t) && t.columns[Consumed].kind == Int
    && forall c <- BOUNDS :: c in t.columns && t.columns[c].required
  }

  lemma Restored(t: Table)
    requires Limited(t)
    ensures Tightened(Loosened(t)) == t
  {
    assert Tightened(Loosened(t)).columns == t.columns;
  }

  lemma WindowColumns()
    ensures Limited(ApprovalWindowsTable()) && ClientBound !in ApprovalWindowsTable().columns
  {
  }

  /** Three and two of the changes, in a script at a given place. */
  lemma ThreeSet(cat: Catalog, t: Table, more: map<Column, ColumnDef>, script: seq<Statement>, i: nat, required: bool)
    requires i + 3 <= |script| && HasLimits(t) && GrantId !in more && ActionClass !in more && ExpiresAt !in more
    requires script[i] == AlterTable(ApprovalWindows, SetRequired(GrantId, required))
    requires script[i + 1] == AlterTable(ApprovalWindows, SetRequired(ActionClass, required))
    requires script[i + 2] == AlterTable(ApprovalWindows, SetRequired(ExpiresAt, required))
    ensures var after := Altered(Altered(Altered(t,
      SetRequired(GrantId, required)), SetRequired(ActionClass, required)), SetRequired(ExpiresAt, required));
      HasLimits(after)
      && AllLegal(With(cat, ApprovalWindows, WiderTable(t, more, NO_REFS)), script[i..])
         == AllLegal(With(cat, ApprovalWindows, WiderTable(after, more, NO_REFS)), script[i + 3..])
      && Effects(With(cat, ApprovalWindows, WiderTable(t, more, NO_REFS)), script[i..])
         == Effects(With(cat, ApprovalWindows, WiderTable(after, more, NO_REFS)), script[i + 3..])
  {
    hide AllLegal, Effects, Effect, Altered, With, WiderTable, HasLimits;
    var t1 := Setting(cat, ApprovalWindows, t, more, script, i, SetRequired(GrantId, required), GrantId);
    var t2 := Setting(cat, ApprovalWindows, t1, more, script, i + 1, SetRequired(ActionClass, required), ActionClass);
    var t3 := Setting(cat, ApprovalWindows, t2, more, script, i + 2, SetRequired(ExpiresAt, required), ExpiresAt);
  }

  lemma TwoSet(cat: Catalog, t: Table, more: map<Column, ColumnDef>, script: seq<Statement>, i: nat, required: bool,
               kind: Kind)
    requires i + 2 <= |script| && HasLimits(t) && MaxConsumptions !in more && Consumed !in more
    requires script[i] == AlterTable(ApprovalWindows, SetRequired(MaxConsumptions, required))
    requires script[i + 1] == AlterTable(ApprovalWindows, SetKind(Consumed, kind))
    ensures var after := Altered(Altered(t, SetRequired(MaxConsumptions, required)), SetKind(Consumed, kind));
      HasLimits(after)
      && AllLegal(With(cat, ApprovalWindows, WiderTable(t, more, NO_REFS)), script[i..])
         == AllLegal(With(cat, ApprovalWindows, WiderTable(after, more, NO_REFS)), script[i + 2..])
      && Effects(With(cat, ApprovalWindows, WiderTable(t, more, NO_REFS)), script[i..])
         == Effects(With(cat, ApprovalWindows, WiderTable(after, more, NO_REFS)), script[i + 2..])
  {
    hide AllLegal, Effects, Effect, Altered, With, WiderTable, HasLimits;
    var t1 := Setting(cat, ApprovalWindows, t, more, script, i, SetRequired(MaxConsumptions, required),
                      MaxConsumptions);
    var t2 := Setting(cat, ApprovalWindows, t1, more, script, i + 1, SetKind(Consumed, kind), Consumed);
  }

  lemma Loosening(cat: Catalog, m: seq<Statement>, t0: Table)
    requires Lines11(m) && ApprovalWindows in cat.tables && cat.tables[ApprovalWindows] == t0
    requires HasLimits(t0) && ClientBound !in t0.columns
    ensures var next := With(cat, ApprovalWindows, WiderTable(Loosened(t0), BOUND_FLAG, NO_REFS));
      HasLimits(Loosened(t0))
      && AllLegal(cat, m[2..]) == AllLegal(next, m[8..]) && Effects(cat, m[2..]) == Effects(next, m[8..])
  {
    hide AllLegal, Effects, Effect, Altered, With, WiderTable, HasLimits;
    NothingWider(cat, ApprovalWindows);
    Widening(cat, ApprovalWindows, map[], NO_REFS, m, 2, ClientBound, Defaulted(Boolean, False), None);
    assert map[][ClientBound := Defaulted(Boolean, False)] == BOUND_FLAG;
    ThreeSet(cat, t0, BOUND_FLAG, m, 3, false);
    var t3 := Altered(Altered(Altered(t0,
      SetRequired(GrantId, false)), SetRequired(ActionClass, false)), SetRequired(ExpiresAt, false));
    TwoSet(cat, t3, BOUND_FLAG, m, 6, false, Bigint);
  }

  lemma Tightening(cat: Catalog, loose: Table, r: seq<Statement>)
    requires BackLines11(r) && HasLimits(loose)
    ensures var was, now := With(cat, ApprovalWindows, loose), With(cat, ApprovalWindows, Tightened(loose));
      AllLegal(was, r[5..]) && Effects(was, r[5..]) == now
  {
    hide AllLegal, Effects, Effect, Altered, With, WiderTable, HasLimits;
    ThreeSet(cat, loose, map[], r, 5, true);
    var t3 := Altered(Altered(Altered(loose,
      SetRequired(GrantId, true)), SetRequired(ActionClass, true)), SetRequired(ExpiresAt, true));
    TwoSet(cat, t3, map[], r, 8, true, Int);
    NoMore(loose);
    NoMore(Tightened(loose));
    Finished(With(cat, ApprovalWindows, Tightened(loose)), r);
  }

  lemma NoMore(t: Table)
    ensures WiderTable(t, map[], NO_REFS) == t
  {
    assert t.columns + map[] == t.columns && t.references + NO_REFS == t.references;
  }

  lemma SettingStaysClosed(cat: Catalog, t: Table, a: Action, c: Column)
    requires Closed(With(cat, ApprovalWindows, t)) && Sets(a, c) && c in LIMITS && HasLimits(t)
    ensures Closed(With(cat, ApprovalWindows, Altered(t, a))) && HasLimits(Altered(t, a))
  {
    hide Closed, Effect;
    LegalKeepsClosed(With(cat, ApprovalWindows, t), AlterTable(ApprovalWindows, a));
    AlteredWith(cat, ApprovalWindows, t, a);
  }

  lemma LooseStaysClosed(cat: Catalog, t: Table)
    requires Closed(cat) && ApprovalWindows in cat.tables && cat.tables[ApprovalWindows] == t && HasLimits(t)
    ensures Closed(With(cat, ApprovalWindows, Loosened(t)))
  {
    WithTwice(cat, ApprovalWindows, t, t);
    hide Closed, Altered, With, HasLimits;
    var t1 := Altered(t, SetRequired(GrantId, false));
    var t2 := Altered(t1, SetRequired(ActionClass, false));
    var t3 := Altered(t2, SetRequired(ExpiresAt, false));
    SettingStaysClosed(cat, t, SetRequired(GrantId, false), GrantId);
    SettingStaysClosed(cat, t1, SetRequired(ActionClass, false), ActionClass);
    SettingStaysClosed(cat, t2, SetRequired(ExpiresAt, false), ExpiresAt);
    SettingStaysClosed(cat, t3, SetRequired(MaxConsumptions, false), MaxConsumptions);
    SettingStaysClosed(cat, Altered(t3, SetRequired(MaxConsumptions, false)), SetKind(Consumed, Bigint), Consumed);
  }

  /** The window table that migration 11 leaves, without and with its check. */
  function LooseWindows(): Table {
    WiderTable(Loosened(ApprovalWindowsTable()), BOUND_FLAG, NO_REFS)
  }

  function ShapedWindows(): Table {
    var t := LooseWindows();
    t.(checks := t.checks + {WindowScopeShape})
  }

  /** What the changes of migration 11 leave alone. */
  predicate SameOutline(t: Table, l: Table) {
    && l.columns.Keys == t.columns.Keys && l.checks == t.checks && l.references == t.references && l.key == t.key
    && forall c <- t.columns | c !in LIMITS :: l.columns[c] == t.columns[c]
  }

  lemma SettingKeeps(t: Table, l: Table, a: Action, c: Column)
    requires SameOutline(t, l) && Sets(a, c) && c in LIMITS
    ensures SameOutline(t, Altered(l, a))
  {
    hide LIMITS;
    var now := Altered(l, a);
    assert now.columns.Keys == l.columns.Keys;
    assert forall d <- l.columns | d != c :: now.columns[d] == l.columns[d];
  }

  lemma SameAsItself(t: Table)
    ensures SameOutline(t, t)
  {
  }

  lemma LoosenedOutline(t: Table)
    ensures SameOutline(t, Loosened(t))
  {
    hide Altered, SameOutline;
    assert SameOutline(t, t) by { SameAsItself(t); }
    var t1 := Altered(t, SetRequired(GrantId, false));
    var t2 := Altered(t1, SetRequired(ActionClass, false));
    var t3 := Altered(t2, SetRequired(ExpiresAt, false));
    SettingKeeps(t, t, SetRequired(GrantId, false), GrantId);
    SettingKeeps(t, t1, SetRequired(ActionClass, false), ActionClass);
    SettingKeeps(t, t2, SetRequired(ExpiresAt, false), ExpiresAt);
    SettingKeeps(t, t3, SetRequired(MaxConsumptions, false), MaxConsumptions);
    SettingKeeps(t, Altered(t3, SetRequired(MaxConsumptions, false)), SetKind(Consumed, Bigint), Consumed);
  }

  lemma LoosenedKeeps(t: Table)
    requires HasLimits(t)
    ensures var l := Loosened(t);
      l.columns.Keys == t.columns.Keys && l.checks == t.checks && l.references == t.references
      && (Revocable(t) ==> Revocable(l))
  {
    hide Loosened;
    LoosenedOutline(t);
    assert RevokedAt !in LIMITS && RevokedReason !in LIMITS;
  }

  lemma FlagKeeps(t: Table)
    requires ClientBound !in t.columns
    ensures var w := WiderTable(t, BOUND_FLAG, NO_REFS);
      w.columns.Keys == t.columns.Keys + {ClientBound} && w.checks == t.checks && w.references == t.references
      && (Revocable(t) ==> Revocable(w))
  {
  }

  lemma WindowsAt11()
    ensures HasLimits(ApprovalWindowsTable()) && ClientBound !in ApprovalWindowsTable().columns
    ensures Tightened(Loosened(ApprovalWindowsTable())) == ApprovalWindowsTable()
    ensures LooseWindows().checks == ApprovalWindowsTable().checks
    ensures LooseWindows().references == map[]
    ensures LooseWindows().columns.Keys == ApprovalWindowsTable().columns.Keys + {ClientBound}
    ensures Loosened(ApprovalWindowsTable()).columns.Keys == ApprovalWindowsTable().columns.Keys
    ensures HasLimits(Loosened(ApprovalWindowsTable()))
    ensures Revocable(ApprovalWindowsTable()) && Revocable(LooseWindows())
  {
    hide Tightened, Loosened, ApprovalWindowsTable, WiderTable, Revocable;
    WindowColumns();
    Restored(ApprovalWindowsTable());
    LoosenedKeeps(ApprovalWindowsTable());
    FlagKeeps(Loosened(ApprovalWindowsTable()));
    WindowTraits();
  }

  lemma WindowTraits()
    ensures Revocable(ApprovalWindowsTable()) && ApprovalWindowsTable().references == map[]
    ensures ApprovalWindowsTable().key == Id
  {
  }

  lemma WindowParts()
    ensures WindowScopeShape !in ApprovalWindowsTable().checks
    ensures Mentions(WindowScopeShape) <= ApprovalWindowsTable().columns.Keys + {ClientBound}
    ensures IndexColumns(CLIENT_LIVE) <= ApprovalWindowsTable().columns.Keys + {ClientBound}
    ensures {RevokedAt, RevokedReason} <= ApprovalWindowsTable().columns.Keys
    ensures {RevokedAt, RevokedReason} <= Original(Approvals).columns.Keys
  {
  }

  const REPLACE_WINDOWS := Revoke(ApprovalWindows, Live, REPLACED)
  const REPLACE_RECEIPTS := Revoke(Approvals, WindowDecided, REPLACED)
  const INDEX_CLIENTS := CreateIndex(ApprovalWindowClientLive, CLIENT_LIVE)

  lemma RevokeIsLegal(cat: Catalog, t: TableName, where: Condition, reason: string)
    requires t in cat.tables && {RevokedAt, RevokedReason} <= cat.tables[t].columns.Keys
    requires where == ClientDecided ==> ApprovalWindows in cat.tables
    ensures Legal(cat, Revoke(t, where, reason)) && Effect(cat, Revoke(t, where, reason)) == cat
  {
  }

  lemma DataLegal(cat: Catalog)
    requires Wide(cat) && ApprovalWindows in cat.tables && Approvals in cat.tables
    ensures Legal(cat, REPLACE_WINDOWS) && Effect(cat, REPLACE_WINDOWS) == cat
    ensures Legal(cat, REPLACE_RECEIPTS) && Effect(cat, REPLACE_RECEIPTS) == cat
    ensures Legal(cat, Revoke(Approvals, ClientDecided, ROLLED_BACK))
  {
    hide ApprovalWindowsTable, ApprovalsTable, Legal, Effect, REPLACED, ROLLED_BACK;
    WindowParts();
    assert Original(Approvals).columns.Keys <= cat.tables[Approvals].columns.Keys;
    assert Original(ApprovalWindows).columns.Keys <= cat.tables[ApprovalWindows].columns.Keys;
    RevokeIsLegal(cat, ApprovalWindows, Live, REPLACED);
    RevokeIsLegal(cat, Approvals, WindowDecided, REPLACED);
    RevokeIsLegal(cat, Approvals, ClientDecided, ROLLED_BACK);
  }

  lemma ShapeLegal(cat: Catalog)
    requires ApprovalWindows in cat.tables
    ensures var wide := With(cat, ApprovalWindows, LooseWindows());
      Legal(wide, SHAPE) && Effect(wide, SHAPE) == With(cat, ApprovalWindows, ShapedWindows())
  {
    hide ApprovalWindowsTable, Mentions, LooseWindows, Effect;
    WindowsAt11();
    WindowParts();
    AlteredWith(cat, ApprovalWindows, LooseWindows(), AddCheck(WindowScopeShape));
  }

  lemma IndexLegal(cat: Catalog)
    requires ApprovalWindows in cat.tables && ApprovalWindowClientLive !in cat.indexes
    ensures Legal(With(cat, ApprovalWindows, ShapedWindows()), INDEX_CLIENTS)
  {
    hide ApprovalWindowsTable, IndexColumns, LooseWindows;
    WindowsAt11();
    WindowParts();
  }

  /** What migration 11 does to the catalogue. */
  lemma Forward11(cat: Catalog, m: seq<Statement>, mid: Catalog)
    requires Wide(cat) && Lines11(m) && ApprovalWindows in cat.tables && Approvals in cat.tables
    requires cat.tables[ApprovalWindows] == ApprovalWindowsTable() && ApprovalWindowClientLive !in cat.indexes
    requires mid == With(cat, ApprovalWindows, ShapedWindows())
    ensures AllLegal(cat, m) && Effects(cat, m) == Effect(mid, INDEX_CLIENTS)
  {
    hide AllLegal, Effects, ApprovalWindowsTable, ShapedWindows, Loosened, Legal, Effect, Wide, WiderTable,
      HasLimits, With;
    WindowsAt11();
    DataLegal(cat);
    ShapeLegal(cat);
    IndexLegal(cat);
    Finished(cat, m);
    Following(cat, m, 0);
    Following(cat, m, 1);
    Loosening(cat, m, ApprovalWindowsTable());
    Following(With(cat, ApprovalWindows, LooseWindows()), m, 8);
    Following(mid, m, 9);
    Finished(Effect(mid, INDEX_CLIENTS), m);
  }

  /** The last six statements of its rollback, which are about the window table alone. */
  lemma Narrowed11(cat: Catalog, r: seq<Statement>)
    requires Closed(cat) && BackLines11(r) && ApprovalWindows in cat.tables
    requires cat.tables[ApprovalWindows] == ApprovalWindowsTable()
    ensures var wide := With(cat, ApprovalWindows, LooseWindows());
      AllLegal(wide, r[4..]) && Effects(wide, r[4..]) == cat
  {
    hide AllLegal, Effects, ApprovalWindowsTable, Loosened, Tightened, Legal, Closed, HasLimits, Effect;
    WindowsAt11();
    var loose := Loosened(ApprovalWindowsTable());
    var base := With(cat, ApprovalWindows, loose);
    LooseStaysClosed(cat, ApprovalWindowsTable());
    WithTwice(cat, ApprovalWindows, loose, LooseWindows());
    assert With(cat, ApprovalWindows, LooseWindows()) == Wider(base, ApprovalWindows, BOUND_FLAG, NO_REFS);
    Narrowing(base, ApprovalWindows, BOUND_FLAG, NO_REFS, r, 4, ClientBound, false);
    assert BOUND_FLAG - {ClientBound} == map[] && NO_REFS - {ClientBound} == map[];
    NothingWider(base, ApprovalWindows);
    Tightening(cat, loose, r);
    WithTwice(cat, ApprovalWindows, loose, ApprovalWindowsTable());
  }

  /** What its rollback does to the catalogue. */
  lemma Back11(cat: Catalog, r: seq<Statement>, mid: Catalog, next: Catalog)
    requires Closed(cat) && BackLines11(r) && ApprovalWindows in cat.tables
    requires cat.tables[ApprovalWindows] == ApprovalWindowsTable() && ApprovalWindowClientLive !in cat.indexes
    requires mid == With(cat, ApprovalWindows, ShapedWindows()) && next == Effect(mid, INDEX_CLIENTS)
    requires Legal(next, r[0]) && Legal(next, r[1]) && Effect(next, r[0]) == next && Effect(next, r[1]) == next
    ensures AllLegal(next, r) && Effects(next, r) == cat
  {
    hide AllLegal, Effects, ApprovalWindowsTable, ShapedWindows, LooseWindows, Legal, Closed, Effect, With;
    var wide := With(cat, ApprovalWindows, LooseWindows());
    ShapeLegal(cat);
    Finished(next, r);
    Following(next, r, 0);
    Following(next, r, 1);
    assert ApprovalWindowClientLive !in mid.indexes by { SameIndexes(cat, ApprovalWindows, ShapedWindows()); }
    IndexUndone(mid, ApprovalWindowClientLive, CLIENT_LIVE, false);
    Following(next, r, 2);
    CheckUndone(wide, ApprovalWindows, WindowScopeShape, false);
    Following(mid, r, 3);
    Narrowed11(cat, r);
  }

  lemma SameIndexes(cat: Catalog, t: TableName, table: Table)
    ensures With(cat, t, table).indexes == cat.indexes
  {
  }

  lemma TameLetsGo(table: Table)
    requires Tame(table)
    ensures LetsGo(table, ApprovalWindows)
  {
  }

  lemma DeleteLegal(next: Catalog)
    requires Stage(11, next)
    ensures ApprovalWindows in next.tables && Approvals in next.tables && Wide(next)
    ensures Legal(next, Delete(ApprovalWindows, BoundToClient))
    ensures Effect(next, Delete(ApprovalWindows, BoundToClient)) == next
    ensures Effect(next, Revoke(Approvals, ClientDecided, ROLLED_BACK)) == next
  {
    hide Original, Closed, TablesAt, IndexesAt, Wide, AlteredBy, Preserved, Tame, Admits, Revocable, NamesWindow,
      LetsGo;
    Member(ApprovalWindows, 11);
    Member(Approvals, 11);
    forall u | u in next.tables ensures LetsGo(next.tables[u], ApprovalWindows) {
      assert TableStage(11, u, next.tables[u]);
      TameLetsGo(next.tables[u]);
    }
  }

  lemma Stage11(cat: Catalog, next: Catalog)
    requires Stage(10, cat) && Closed(next) && ApprovalWindows in cat.tables
    requires next == Effect(With(cat, ApprovalWindows, ShapedWindows()), INDEX_CLIENTS)
    ensures Stage(11, next)
  {
    hide Original, Closed, TablesAt, IndexesAt, AlteredBy, Tame, Admits, Preserved, Wide, ShapedWindows,
      ApprovalWindowsTable,      TableStage;
    Names(11);
    New11();
    var indexed := cat.(indexes := cat.indexes[ApprovalWindowClientLive := CLIENT_LIVE]);
    assert next == With(indexed, ApprovalWindows, ShapedWindows());
    assert indexed.indexes.Keys == cat.indexes.Keys + {ApprovalWindowClientLive};
    assert Wide(indexed) by { StillWide(cat, indexed); }
    forall u | u in cat.tables && u != ApprovalWindows ensures TableStage(11, u, cat.tables[u]) {
      TableMovesOn(11, ApprovalWindows, u, cat.tables[u]);
    }
    OtherAdmits(ApprovalWindows, ShapedWindows());
    StageDone(11, indexed, ApprovalWindows, ShapedWindows());
  }

  lemma StillWide(cat: Catalog, next: Catalog)
    requires Wide(cat) && next.tables == cat.tables
    ensures Wide(next)
  {
    hide Original;
  }

  lemma New11()
    ensures NewIn(11) == {} && IndexedIn(11) == {ApprovalWindowClientLive}
    ensures AlteredBy(ApprovalWindows, 11) && Tame(ShapedWindows()) && Revocable(ShapedWindows())
    ensures Original(ApprovalWindows).columns.Keys <= ShapedWindows().columns.Keys
  {
    hide ApprovalWindowsTable, LooseWindows, Revocable;
    WindowsAt11();
    ShapedKeeps();
    NewNames11();
  }

  lemma NewNames11()
    ensures NewIn(11) == {} && IndexedIn(11) == {ApprovalWindowClientLive} && AlteredBy(ApprovalWindows, 11)
  {
  }

  lemma ShapedKeeps()
    ensures ShapedWindows().columns == LooseWindows().columns && ShapedWindows().references == LooseWindows().references
    ensures Revocable(LooseWindows()) ==> Revocable(ShapedWindows())
  {
    hide LooseWindows;
  }

  lemma Step11(cat: Catalog)
    requires Stage(10, cat)
    ensures StepsTo(11, cat)
  {
    hide AllLegal, Effects, ShapedWindows, Legal, Closed, Effect, With, Stage, Wide, Original, Migration11, Rollback11,
      AlteredBy;
    Read11();
    var m, r, mid := Migration11(), Rollback11(), With(cat, ApprovalWindows, ShapedWindows());
    var next := Effect(mid, INDEX_CLIENTS);
    At10(cat);
    Forward11(cat, m, mid);
    EffectsStayClosed(cat, m);
    Stage11(cat, next);
    DeleteLegal(next);
    DataLegal(next);
    Back11(cat, r, mid, next);
  }

  lemma At10(cat: Catalog)
    requires Stage(10, cat)
    ensures Closed(cat) && Wide(cat) && ApprovalWindows in cat.tables && Approvals in cat.tables
    ensures cat.tables[ApprovalWindows] == ApprovalWindowsTable() && ApprovalWindowClientLive !in cat.indexes
  {
    hide Closed, Wide, ApprovalWindowsTable, ApprovalsTable, TableStage;
    Unaltered(10);
    OriginalAt(10, cat, ApprovalWindows);
    Member(Approvals, 10);
  }
}
