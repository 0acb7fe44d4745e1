/** The authorization server's records (mcp-auth/sql_store.py): grants, rotating refresh
    families, one-shot codes, access tokens and their exchange, and how revocation and the
    recovery epoch (config-ui/control_plane.py) reach them. One function per committed statement
    or transaction; any interleaving of them is a run. */
module OAuthModel {
  import opened Wrappers

  type Scope = string

  /** Seconds. */
  const REFRESH_IDLE_SECONDS := 43200
  const REFRESH_ABSOLUTE_SECONDS := 2592000
  const REFRESH_GRACE_SECONDS := 30
  const TOKEN_B_MAX_LIFETIME := 60
  const EXCHANGE_BUDGET_WINDOW := 60

  const EXCHANGE_BUDGET_PER_GRANT: nat := 60

  // ---------------------------------------------------------------- rows

  datatype Grant = Grant(client: nat, scopes: set<Scope>, revoked: bool)

  /** The unit of refresh authority; its absolute deadline never moves. */
  datatype Family = Family(grant: nat, client: nat, expiresAt: int, revoked: bool)

  /** A refresh token is spent, not deleted: `replacedBy` is its successor. */
  datatype Refresh = Refresh(family: nat, idleUntil: int, consumedAt: Option<int>, replacedBy: Option<nat>)

  datatype Code = Code(client: nat, grant: nat, expiresAt: int, consumed: bool)

  /** The operation and request that a token B authorises. */
  datatype Binding = Binding(operation: string, digest: string)

  datatype Audience = Mcp | Configuration

  datatype Access = Access(
    client: nat, grant: nat, scopes: set<Scope>, audience: Audience, issuedAt: int, expiresAt: int,
    revoked: bool, consumed: bool, binding: Option<Binding>, singleUse: bool)

  /** An authorization request parked until a signed-in operator consents. */
  datatype Parked = Parked(session: Option<nat>, form: nat, expiresAt: int, consumed: bool)

  /** An exchange that has passed every check and not yet written its token. */
  datatype Ask = Ask(client: nat, grant: nat, scopes: set<Scope>, binding: Binding, singleUse: bool, at: int)

  datatype Event =
    | Rotated(token: nat, family: nat, grant: nat, at: int)
    | Retried(token: nat, family: nat, at: int)
    | Replayed(token: nat, family: nat)
    | Taken(code: nat, client: nat, grant: nat, at: int)
    | Spent(token: nat, grant: nat, binding: Binding, at: int)
    | Consented(parked: nat, form: nat, session: nat)

  /** Refresh authority; `retries` are the retries that were admitted, with the time they began. */
  datatype Ring = Ring(families: map<nat, Family>, refreshes: map<nat, Refresh>, retries: multiset<(nat, int)>)

  /** The rest of the records; `asks` are the exchanges that were admitted, each by its number. */
  datatype Desk = Desk(
    codes: map<nat, Code>, accesses: map<nat, Access>, parked: map<nat, Parked>, sessions: map<nat, int>,
    asks: map<nat, Ask>)

  /** Rows by the digest of their secret; `clients` holds the enabled ones. */
  datatype State = State(
    clients: set<nat>, grants: map<nat, Grant>, ring: Ring, desk: Desk, log: seq<Event>, clock: int, next: nat)

  const Init := State({}, map[], Ring(map[], map[], multiset{}), Desk(map[], map[], map[], map[], map[]), [], 0, 0)

  // ---------------------------------------------------------------- refresh families

  predicate GrantLive(s: State, g: nat) {
    g in s.grants && !s.grants[g].revoked
  }

  predicate GrantRevoked(s: State, g: nat) {
    g in s.grants && s.grants[g].revoked
  }

  /** start_refresh_family: the family and its first token in one transaction. */
  function StartFamily(r: Ring, grant: nat, client: nat, now: int, next: nat): Ring {
    r.(families := r.families[next := Family(grant, client, now + REFRESH_ABSOLUTE_SECONDS, false)],
       refreshes := r.refreshes[next + 1 := Fresh(next, now)])
  }

  function Fresh(family: nat, at: int): Refresh {
    Refresh(family, at + REFRESH_IDLE_SECONDS, None, None)
  }

  /** The conditional UPDATE of a rotation. */
  predicate Rotatable(s: State, t: nat) {
    && t in s.ring.refreshes && s.ring.refreshes[t].consumedAt.None? && s.ring.refreshes[t].idleUntil > s.clock
    && s.ring.refreshes[t].family in s.ring.families
    && var f := s.ring.families[s.ring.refreshes[t].family];
       !f.revoked && f.expiresAt > s.clock && GrantLive(s, f.grant)
  }

  function Superseded(r: Refresh, at: int, successor: nat): Refresh {
    r.(consumedAt := Some(at), replacedBy := Some(successor))
  }

  function RotateRing(r: Ring, t: nat, now: int, next: nat): Ring
    requires t in r.refreshes
  {
    r.(refreshes := r.refreshes[t := Superseded(r.refreshes[t], now, next)][next := Fresh(r.refreshes[t].family, now)])
  }

  /** rotate_refresh_token where it rotates: spend the token and insert its successor. */
  function Rotate(s: State, t: nat): State {
    if !Rotatable(s, t) then s
    else
      var f := s.ring.refreshes[t].family;
      s.(ring := RotateRing(s.ring, t, s.clock, s.next), next := s.next + 1,
         log := s.log + [Rotated(t, f, s.ring.families[f].grant, s.clock)])
  }

  /** What a presentation that did not rotate is taken for. */
  datatype Outcome = Unknown | GrantIsRevoked | FamilyIsRevoked | Retry | Replay | FamilyExpired | IdleExpired

  predicate WithinGrace(r: Refresh, now: int) {
    r.consumedAt.Some? && r.consumedAt.value > now - REFRESH_GRACE_SECONDS
  }

  function Explain(s: State, t: nat): Outcome {
    if t !in s.ring.refreshes || s.ring.refreshes[t].family !in s.ring.families then Unknown
    else
      var r := s.ring.refreshes[t];
      var f := s.ring.families[r.family];
      if GrantRevoked(s, f.grant) then GrantIsRevoked
      else if f.revoked then FamilyIsRevoked
      else if WithinGrace(r, s.clock) && f.expiresAt > s.clock then Retry
      else if r.consumedAt.Some? then Replay
      else if f.expiresAt <= s.clock then FamilyExpired
      else if r.idleUntil <= s.clock then IdleExpired
      else Unknown
  }

  /** A retry inside the grace window, up to its read of the token's state. */
  function ReadRetry(s: State, t: nat): State {
    if !Rotatable(s, t) && Explain(s, t) == Retry
    then s.(ring := s.ring.(retries := s.ring.retries + multiset{(t, s.clock)})) else s
  }

  /** A new token supersedes whatever the family's live one is by now. */
  function SupersedeRing(r: Ring, f: nat, at: int, next: nat): Ring {
    r.(refreshes := (map u | u in r.refreshes :: Replaced(r.refreshes[u], f, at, next))[next := Fresh(f, at)])
  }

  function Replaced(r: Refresh, f: nat, at: int, successor: nat): Refresh {
    if r.family == f && r.consumedAt.None? then Superseded(r, at, successor) else r
  }

  predicate Retriable(r: Ring, t: nat, began: int) {
    (t, began) in r.retries && t in r.refreshes && r.refreshes[t].family in r.families
  }

  /** The rest of the retry, at the time its transaction began, with the family's row locked. A
      family that is gone by now makes it fail. */
  function WriteRetry(s: State, t: nat, began: int): State {
    var ring := s.ring.(retries := s.ring.retries - multiset{(t, began)});
    if !Retriable(s.ring, t, began) then s.(ring := ring)
    else
      var f := s.ring.refreshes[t].family;
      s.(ring := SupersedeRing(ring, f, began, s.next), log := s.log + [Retried(t, f, began)], next := s.next + 1)
  }

  function RevokeFamily(families: map<nat, Family>, f: nat): map<nat, Family> {
    map x | x in families :: if x == f then families[x].(revoked := true) else families[x]
  }

  function RevokeFamiliesOf(families: map<nat, Family>, grant: nat): map<nat, Family> {
    map x | x in families :: if families[x].grant == grant then families[x].(revoked := true) else families[x]
  }

  function RevokeGrant(grants: map<nat, Grant>, g: nat): map<nat, Grant> {
    map x | x in grants :: if x == g then grants[x].(revoked := true) else grants[x]
  }

  /** A replay revokes the family and its grant where it is detected. */
  function ReplayDetected(s: State, t: nat): State {
    if Rotatable(s, t) || Explain(s, t) != Replay then s
    else
      var f := s.ring.refreshes[t].family;
      s.(ring := s.ring.(families := RevokeFamily(s.ring.families, f)),
         grants := RevokeGrant(s.grants, s.ring.families[f].grant), log := s.log + [Replayed(t, f)])
  }

  // ---------------------------------------------------------------- codes

  predicate Redeemable(s: State, c: nat, client: nat) {
    && c in s.desk.codes && s.desk.codes[c].client == client && !s.desk.codes[c].consumed
    && s.desk.codes[c].expiresAt > s.clock
  }

  /** consume_authorization_code_for: the conditional UPDATE is the read. */
  function TakeCode(s: State, c: nat, client: nat): State {
    if !Redeemable(s, c, client) then s
    else
      s.(desk := s.desk.(codes := s.desk.codes[c := s.desk.codes[c].(consumed := true)]),
         log := s.log + [Taken(c, client, s.desk.codes[c].grant, s.clock)])
  }

  // ---------------------------------------------------------------- access tokens

  /** A token record that is neither revoked nor spent and whose lifetime is not over; its last
      second still counts here, though not in the statement that spends it. */
  predicate TokenLive(s: State, t: nat) {
    && t in s.desk.accesses && !s.desk.accesses[t].revoked && !s.desk.accesses[t].consumed
    && s.desk.accesses[t].expiresAt >= s.clock
  }

  /** Introspection: the token, its grant and the grant's client. */
  predicate Active(s: State, t: nat) {
    && TokenLive(s, t) && GrantLive(s, s.desk.accesses[t].grant)
    && s.grants[s.desk.accesses[t].grant].client in s.clients
  }

  function MintedTokens(accesses: map<nat, Access>, grant: nat, since: int): set<nat> {
    set t | t in accesses && accesses[t].grant == grant && accesses[t].binding.Some? && accesses[t].issuedAt > since
  }

  /** The token Bs of a grant inside the budget window. */
  function Minted(s: State, grant: nat): nat {
    |MintedTokens(s.desk.accesses, grant, s.clock - EXCHANGE_BUDGET_WINDOW)|
  }

  /** What the exchange asks of a subject token and the scopes that the operation requires. */
  predicate Exchangeable(s: State, a: nat, required: set<Scope>) {
    && TokenLive(s, a) && s.desk.accesses[a].audience == Mcp && GrantLive(s, s.desk.accesses[a].grant)
    && s.desk.accesses[a].client in s.clients && required != {}
    && required <= s.desk.accesses[a].scopes && required <= s.grants[s.desk.accesses[a].grant].scopes
    && Minted(s, s.desk.accesses[a].grant) < EXCHANGE_BUDGET_PER_GRANT
  }

  function AskOf(a: Access, required: set<Scope>, b: Binding, mutating: bool, at: int): Ask {
    Ask(a.client, a.grant, required, b, mutating, at)
  }

  /** exchange, up to its last check. */
  function ReadExchange(s: State, a: nat, required: set<Scope>, b: Binding, mutating: bool): State {
    if !Exchangeable(s, a, required) then s
    else
      s.(desk := s.desk.(asks := s.desk.asks[s.next := AskOf(s.desk.accesses[a], required, b, mutating, s.clock)]),
         next := s.next + 1)
  }

  function TokenB(ask: Ask): Access {
    Access(ask.client, ask.grant, ask.scopes, Configuration, ask.at, ask.at + TOKEN_B_MAX_LIFETIME, false, false,
           Some(ask.binding), ask.singleUse)
  }

  /** save_exchanged_token. */
  function WriteExchange(s: State, ask: nat): State {
    if ask !in s.desk.asks then s
    else
      s.(desk := s.desk.(accesses := s.desk.accesses[s.next := TokenB(s.desk.asks[ask])], asks := s.desk.asks - {ask}),
         next := s.next + 1)
  }

  predicate Spendable(s: State, t: nat, b: Binding) {
    && t in s.desk.accesses
    && var a := s.desk.accesses[t];
       && !a.revoked && !a.consumed && a.expiresAt > s.clock && a.singleUse && a.binding == Some(b)
       && GrantLive(s, a.grant)
  }

  /** consume_exchanged_token: operation, digest and grant are predicates of the statement. */
  function Spend(s: State, t: nat, b: Binding): State {
    if !Spendable(s, t, b) then s
    else
      s.(desk := s.desk.(accesses := s.desk.accesses[t := s.desk.accesses[t].(consumed := true)]),
         log := s.log + [Spent(t, s.desk.accesses[t].grant, b, s.clock)])
  }

  /** redeem for a read operation: the binding is compared, the grant joined, nothing is spent. */
  predicate ReadRedeems(s: State, t: nat, b: Binding) {
    && t in s.desk.accesses && !s.desk.accesses[t].singleUse && s.desk.accesses[t].binding == Some(b)
    && GrantLive(s, s.desk.accesses[t].grant)
  }

  // ---------------------------------------------------------------- consent

  predicate Waiting(s: State, p: nat) {
    p in s.desk.parked && !s.desk.parked[p].consumed && s.desk.parked[p].expiresAt > s.clock
  }

  /** bind_pending_session, which also gives the form a new token. */
  function BindParked(s: State, p: nat, session: nat): State {
    if !Waiting(s, p) then s
    else
      s.(desk := s.desk.(parked := s.desk.parked[p := s.desk.parked[p].(session := Some(session), form := s.next)]),
         next := s.next + 1)
  }

  predicate Consentable(s: State, p: nat, form: nat, session: nat) {
    Waiting(s, p) && s.desk.parked[p].form == form && s.desk.parked[p].session == Some(session)
  }

  function TakeParked(s: State, p: nat, form: nat, session: nat): State {
    if !Consentable(s, p, form, session) then s
    else
      s.(desk := s.desk.(parked := s.desk.parked[p := s.desk.parked[p].(consumed := true)]),
         log := s.log + [Consented(p, form, session)])
  }

  // ---------------------------------------------------------------- expiry and the recovery epoch

  /** sweep_expired; the tokens of a family go with it. */
  function SweepRing(r: Ring, now: int): Ring {
    var kept := map f | f in r.families && r.families[f].expiresAt >= now :: r.families[f];
    r.(families := kept, refreshes := map t | t in r.refreshes && r.refreshes[t].family in kept :: r.refreshes[t])
  }

  function SweepDesk(d: Desk, now: int): Desk {
    d.(codes := map c | c in d.codes && d.codes[c].expiresAt >= now :: d.codes[c],
       parked := map p | p in d.parked && d.parked[p].expiresAt >= now :: d.parked[p],
       sessions := map x | x in d.sessions && d.sessions[x] >= now :: d.sessions[x])
  }

  function RevokeAllFamilies(families: map<nat, Family>): map<nat, Family> {
    map x | x in families :: families[x].(revoked := true)
  }

  function RevokeDesk(d: Desk): Desk {
    d.(accesses := map t | t in d.accesses :: d.accesses[t].(revoked := true),
       codes := map[], parked := map[], sessions := map[])
  }

  /** The OAuth part of advance_recovery_epoch. */
  function Advance(s: State): State {
    s.(ring := s.ring.(families := RevokeAllFamilies(s.ring.families)), desk := RevokeDesk(s.desk),
       grants := map g | g in s.grants :: s.grants[g].(revoked := true))
  }

  // ---------------------------------------------------------------- runs

  datatype Step =
    | EnableClient
    | DisableClient(client: nat)
    | SaveGrant(client: nat, scopes: set<Scope>)
    | WithdrawGrant(grant: nat)
    | WithdrawFamily(family: nat)
    | WithdrawFamilies(grant: nat)
    | OpenFamily(grant: nat, client: nat)
    | Present(token: nat)
    | BeginRetry(token: nat)
    | EndRetry(token: nat, began: int)
    | DetectReplay(token: nat)
    | SaveCode(client: nat, grant: nat, lifetime: nat)
    | RedeemCode(code: nat, client: nat)
    | SaveToken(client: nat, grant: nat, scopes: set<Scope>, lifetime: nat)
    | BeginExchange(token: nat, required: set<Scope>, binding: Binding, mutating: bool)
    | EndExchange(ask: nat)
    | SpendToken(token: nat, binding: Binding)
    | Park(lifetime: nat)
    | Show(parked: nat, session: nat)
    | Consent(parked: nat, form: nat, session: nat)
    | SignIn(lifetime: nat)
    | Sweep
    | AdvanceEpoch
    | Tick(elapsed: nat)

  function TokenA(client: nat, grant: nat, scopes: set<Scope>, now: int, lifetime: nat): Access {
    Access(client, grant, scopes, Mcp, now, now + lifetime, false, false, None, false)
  }

  /** Insert one row under a fresh identifier. */
  function Insert(s: State, desk: Desk): State {
    s.(desk := desk, next := s.next + 1)
  }

  function Apply(s: State, step: Step): State {
    var d := s.desk;
    match step
    case EnableClient => s.(clients := s.clients + {s.next}, next := s.next + 1)
    case DisableClient(c) => s.(clients := s.clients - {c})
    case SaveGrant(c, scopes) => s.(grants := s.grants[s.next := Grant(c, scopes, false)], next := s.next + 1)
    case WithdrawGrant(g) => s.(grants := RevokeGrant(s.grants, g))
    case WithdrawFamily(f) => s.(ring := s.ring.(families := RevokeFamily(s.ring.families, f)))
    case WithdrawFamilies(g) => s.(ring := s.ring.(families := RevokeFamiliesOf(s.ring.families, g)))
    case OpenFamily(g, c) =>
      if g < s.next then s.(ring := StartFamily(s.ring, g, c, s.clock, s.next), next := s.next + 2) else s
    case Present(t) => Rotate(s, t)
    case BeginRetry(t) => ReadRetry(s, t)
    case EndRetry(t, began) => WriteRetry(s, t, began)
    case DetectReplay(t) => ReplayDetected(s, t)
    case SaveCode(c, g, life) =>
      if g < s.next then Insert(s, d.(codes := d.codes[s.next := Code(c, g, s.clock + life, false)])) else s
    case RedeemCode(c, client) => TakeCode(s, c, client)
    case SaveToken(c, g, scopes, life) =>
      if g < s.next then Insert(s, d.(accesses := d.accesses[s.next := TokenA(c, g, scopes, s.clock, life)])) else s
    case BeginExchange(a, required, b, mutating) => ReadExchange(s, a, required, b, mutating)
    case EndExchange(ask) => WriteExchange(s, ask)
    case SpendToken(t, b) => Spend(s, t, b)
    case Park(life) => Insert(s, d.(parked := d.parked[s.next := Parked(None, s.next, s.clock + life, false)]))
    case Show(p, x) => BindParked(s, p, x)
    case Consent(p, form, x) => TakeParked(s, p, form, x)
    case SignIn(life) => Insert(s, d.(sessions := d.sessions[s.next := s.clock + life]))
    case Sweep => s.(ring := SweepRing(s.ring, s.clock), desk := SweepDesk(d, s.clock))
    case AdvanceEpoch => Advance(s)
    case Tick(elapsed) => s.(clock := s.clock + elapsed)
  }

  function Run(s: State, steps: seq<Step>): State
    decreases |steps|
  {
    if steps == [] then s else Run(Apply(s, steps[0]), steps[1..])
  }
}
