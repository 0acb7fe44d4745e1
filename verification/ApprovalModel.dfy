/** The control store (config-ui/control_plane.py): approvals and their receipts, standing
    windows, device authorizations, tokens, sessions and the recovery epoch. One function per
    committed statement or transaction; any interleaving of them is a run. */
module ApprovalModel {
  import opened Wrappers

  /** Seconds. */
  const APPROVAL_LIFETIME := 900
  const RECEIPT_LIFETIME := 300
  const WINDOW_RECENCY := 900
  const DEVICE_AUTH_SECONDS := 600
  const DEVICE_TOKEN_SECONDS := 2592000
  const SESSION_IDLE_SECONDS := 1800
  const SESSION_MAX_SECONDS := 43200

  const MAX_PENDING_DEVICES := 3
  const MAX_DEVICES := 20

  /** The one operation that no standing window decides. */
  const PROPOSALS_APPLY := "proposals.apply"

  type Scope = string

  // ---------------------------------------------------------------- rows

  datatype Status = Pending | Approved | Declined | Consumed

  /** What the agent asks for. */
  datatype Request = Request(grant: nat, client: nat, instance: nat, operation: string, digest: string,
                             scopes: set<Scope>)

  datatype Approval = Approval(
    request: Request, createdAt: int, expiresAt: int, status: Status, decidedAt: Option<int>,
    decidedBy: Option<nat>, window: Option<nat>, receipt: Option<nat>, consumedAt: Option<int>,
    revoked: bool, epoch: nat)

  datatype Window = Window(client: nat, instance: nat, createdBy: nat, consumed: nat, revoked: bool, epoch: nat)

  /** An agent is a client without a secret. */
  datatype Client = Client(agent: bool, disabled: bool, scopes: set<Scope>)
  datatype Grant = Grant(client: nat, scopes: set<Scope>, revoked: bool)

  /** What happens to one approval. */
  datatype Event =
    | Asked(digest: string)
    | Decided(approved: bool, at: int, window: Option<nat>)
    | Claimed(receipt: nat)
    | Redeemed(digest: string, at: int)
    | Voided

  /** What one statement did: something to one approval, or a revocation of a set of them. */
  datatype Entry = One(ref: nat, event: Event) | Swept(refs: set<nat>)

  /** Approvals by the digest of their handle, with everything that decides about them. */
  datatype Desk = Desk(
    approvals: map<nat, Approval>, windows: map<nat, Window>, clients: map<nat, Client>, grants: map<nat, Grant>,
    log: seq<Entry>)

  datatype DeviceStatus = Waiting | Allowed | Spent | Withdrawn
  datatype Device = Device(code: nat, remote: nat, expiresAt: int, status: DeviceStatus, epoch: nat)
  datatype Token = Token(expiresAt: Option<int>, revoked: bool, epoch: nat)
  datatype Session = Session(createdAt: int, lastUsed: int, epoch: nat)

  /** Credentials by the digest of their secret; `polls` are device polls that read `approved`,
      with the time they began, and `minted` lists each device with the token it produced. */
  datatype Keyring = Keyring(
    tokens: map<nat, Token>, devices: map<nat, Device>, sessions: map<nat, Session>, polls: set<(nat, int)>,
    minted: seq<(nat, nat)>)

  /** `next` numbers the secrets handed out so far: none is ever drawn twice. */
  datatype State = State(desk: Desk, keys: Keyring, epoch: nat, clock: int, next: nat)

  const Init := State(Desk(map[], map[], map[], map[], []), Keyring(map[], map[], map[], {}, []), 0, 0, 0)

  // ---------------------------------------------------------------- approvals

  /** The client standing approval that may decide this request: live, for this client and
      instance, with client and live grant agreeing and both permitting the scopes. */
  predicate Covers(d: Desk, w: nat, q: Request) {
    && w in d.windows && d.windows[w].client == q.client && d.windows[w].instance == q.instance
    && !d.windows[w].revoked
    && q.grant in d.grants && d.grants[q.grant].client == q.client && !d.grants[q.grant].revoked
    && q.client in d.clients && !d.clients[q.client].disabled && d.clients[q.client].agent
    && q.scopes <= d.grants[q.grant].scopes && q.scopes <= d.clients[q.client].scopes
  }

  predicate Decidable(d: Desk, w: nat, q: Request) {
    q.operation != PROPOSALS_APPLY && Covers(d, w, q)
  }

  function Asking(q: Request, now: int, epoch: nat): Approval {
    Approval(q, now, now + APPROVAL_LIFETIME, Pending, None, None, None, None, None, false, epoch)
  }

  /** create_approval: the window's use and the decided row are one transaction. */
  ghost function Create(d: Desk, ref: nat, q: Request, now: int, epoch: nat): Desk {
    if exists w :: Decidable(d, w, q) then
      var w :| Decidable(d, w, q);
      CreateDecided(d, ref, q, w, now, epoch)
    else d.(approvals := d.approvals[ref := Asking(q, now, epoch)], log := d.log + [One(ref, Asked(q.digest))])
  }

  function CreateDecided(d: Desk, ref: nat, q: Request, w: nat, now: int, epoch: nat): Desk
    requires w in d.windows
  {
    var row := Asking(q, now, epoch).(
      status := Approved, decidedAt := Some(now), decidedBy := Some(d.windows[w].createdBy), window := Some(w));
    d.(approvals := d.approvals[ref := row],
       windows := d.windows[w := d.windows[w].(consumed := d.windows[w].consumed + 1)],
       log := d.log + [One(ref, Asked(q.digest)), One(ref, Decided(true, now, Some(w)))])
  }

  /** decide_approval, a person's one conditional UPDATE. */
  function Decide(d: Desk, ref: nat, yes: bool, who: nat, now: int): Desk {
    if ref in d.approvals && d.approvals[ref].status == Pending && d.approvals[ref].expiresAt > now && !d.approvals[ref].revoked
    then d.(approvals := d.approvals[ref := d.approvals[ref].(
                status := if yes then Approved else Declined, decidedAt := Some(now), decidedBy := Some(who))],
            log := d.log + [One(ref, Decided(yes, now, None))])
    else d
  }

  predicate Recent(row: Approval, now: int) {
    row.decidedAt.Some? && row.decidedAt.value > now - RECEIPT_LIFETIME
  }

  predicate Claimable(d: Desk, ref: nat, now: int) {
    && ref in d.approvals && d.approvals[ref].status == Approved && d.approvals[ref].receipt.None?
    && !d.approvals[ref].revoked && Recent(d.approvals[ref], now)
  }

  /** claim_receipt, with the handle whose digest is `ref`. */
  function Claim(d: Desk, ref: nat, receipt: nat, now: int): Desk {
    if Claimable(d, ref, now)
    then d.(approvals := d.approvals[ref := d.approvals[ref].(receipt := Some(receipt))],
            log := d.log + [One(ref, Claimed(receipt))])
    else d
  }

  predicate Spendable(d: Desk, ref: nat, receipt: nat, digest: string, now: int) {
    && ref in d.approvals && d.approvals[ref].receipt == Some(receipt) && d.approvals[ref].status == Approved
    && d.approvals[ref].request.digest == digest && !d.approvals[ref].revoked && Recent(d.approvals[ref], now)
  }

  function Spend(d: Desk, ref: nat, now: int): Desk
    requires ref in d.approvals
  {
    d.(approvals := d.approvals[ref := d.approvals[ref].(status := Consumed, consumedAt := Some(now))],
       log := d.log + [One(ref, Redeemed(d.approvals[ref].request.digest, now))])
  }

  /** redeem_receipt: the conditional UPDATE is the read. */
  ghost function Redeem(d: Desk, receipt: nat, digest: string, now: int): Desk {
    if exists ref :: Spendable(d, ref, receipt, digest, now) then
      var ref :| Spendable(d, ref, receipt, digest, now);
      Spend(d, ref, now)
    else d
  }

  /** A statement that revokes every approval in a set. */
  function Void(d: Desk, refs: set<nat>): Desk {
    d.(approvals := map r | r in d.approvals :: if r in refs then d.approvals[r].(revoked := true) else d.approvals[r],
       log := d.log + [Swept(refs)])
  }

  /** Still able to become, or to be, a spendable receipt. */
  predicate Unspent(row: Approval) {
    !row.revoked && (row.status == Pending || row.status == Approved)
  }

  // ---------------------------------------------------------------- windows, grants, clients

  predicate LiveFor(w: Window, client: nat, instance: nat) {
    w.client == client && w.instance == instance && !w.revoked
  }

  predicate AgentEnabled(d: Desk, client: nat) {
    client in d.clients && !d.clients[client].disabled && d.clients[client].agent
  }

  /** open_approval_window, with the client's row locked. */
  function OpenWindow(d: Desk, id: nat, client: nat, instance: nat, who: nat, authenticatedAt: int, now: int,
                      epoch: nat): Desk {
    if authenticatedAt < now - WINDOW_RECENCY || !AgentEnabled(d, client) then d
    else if exists w :: w in d.windows && LiveFor(d.windows[w], client, instance) then d
    else d.(windows := d.windows[id := Window(client, instance, who, 0, false, epoch)])
  }

  function DecidedUnspent(approvals: map<nat, Approval>, w: nat): set<nat> {
    set r | r in approvals && approvals[r].window == Some(w) && Unspent(approvals[r])
  }

  function Close(windows: map<nat, Window>, closed: set<nat>): map<nat, Window> {
    map w | w in windows :: if w in closed then windows[w].(revoked := true) else windows[w]
  }

  /** revoke_approval_window: the window and its unspent receipts in one transaction. */
  function RevokeWindow(d: Desk, w: nat): Desk {
    if w !in d.windows || d.windows[w].revoked then d
    else Void(d, DecidedUnspent(d.approvals, w)).(windows := Close(d.windows, {w}))
  }

  function ClientUnspent(approvals: map<nat, Approval>, client: nat): set<nat> {
    set r | r in approvals && approvals[r].request.client == client && approvals[r].window.Some? && Unspent(approvals[r])
  }

  function ClientWindows(windows: map<nat, Window>, client: nat): set<nat> {
    set w | w in windows && windows[w].client == client
  }

  /** disable_oauth_client: the client, its windows and their unspent receipts together. */
  function DisableClient(d: Desk, client: nat): Desk {
    if !AgentEnabled(d, client) then d
    else
      Void(d, ClientUnspent(d.approvals, client)).(
        clients := d.clients[client := d.clients[client].(disabled := true)],
        windows := Close(d.windows, ClientWindows(d.windows, client)))
  }

  /** revoke_oauth_grant commits each of its statements on its own: first the grant, */
  function RevokeGrant(d: Desk, grant: nat): Desk {
    if grant in d.grants && !d.grants[grant].revoked
    then d.(grants := d.grants[grant := d.grants[grant].(revoked := true)]) else d
  }

  /** and later the unspent approvals made under it, as revoke_approvals_for_grant does too. */
  function RevokeGrantApprovals(d: Desk, grant: nat): Desk {
    Void(d, GrantUnspent(d.approvals, grant))
  }

  function GrantUnspent(approvals: map<nat, Approval>, grant: nat): set<nat> {
    set r | r in approvals && approvals[r].request.grant == grant && Unspent(approvals[r])
  }

  // ---------------------------------------------------------------- credentials

  function CountPending(devices: map<nat, Device>, remote: nat): nat {
    |set d | d in devices && devices[d].remote == remote && devices[d].status == Waiting|
  }

  function Unexpired(devices: map<nat, Device>, now: int): map<nat, Device> {
    map d | d in devices && devices[d].expiresAt > now :: devices[d]
  }

  /** start_device_authorization: drop what expired, then insert unless a queue is full or the
      code is already waiting (the partial unique index). */
  function StartDevice(k: Keyring, id: nat, code: nat, remote: nat, now: int, epoch: nat): Keyring {
    var live := Unexpired(k.devices, now);
    if CountPending(live, remote) >= MAX_PENDING_DEVICES || |live| >= MAX_DEVICES
       || (exists d :: d in live && live[d].code == code && live[d].status == Waiting) then k
    else k.(devices := live[id := Device(code, remote, now + DEVICE_AUTH_SECONDS, Waiting, epoch)])
  }

  function ApproveDevice(k: Keyring, code: nat, now: int): Keyring {
    k.(devices := map d | d in k.devices ::
         if k.devices[d].code == code && k.devices[d].status == Waiting && k.devices[d].expiresAt > now
         then k.devices[d].(status := Allowed) else k.devices[d])
  }

  predicate MayMint(k: Keyring, d: nat, now: int) {
    d in k.devices && k.devices[d].status == Allowed && k.devices[d].expiresAt > now
  }

  /** poll_device_authorization, up to its read of `approved`. */
  function PollRead(k: Keyring, d: nat, now: int): Keyring {
    if MayMint(k, d, now) then k.(polls := k.polls + {(d, now)}) else k
  }

  /** The rest of the poll, its own transaction, at the time the poll began: consume
      conditionally, then mint. */
  function PollMint(k: Keyring, d: nat, token: nat, began: int, epoch: nat): Keyring {
    if (d, began) !in k.polls || !MayMint(k, d, began) then k
    else k.(devices := k.devices[d := k.devices[d].(status := Spent)],
            tokens := k.tokens[token := Token(Some(began + DEVICE_TOKEN_SECONDS), false, epoch)],
            minted := k.minted + [(d, token)])
  }

  function RevokeTokens(k: Keyring, which: set<nat>): Keyring {
    k.(tokens := map t | t in k.tokens :: if t in which then k.tokens[t].(revoked := true) else k.tokens[t])
  }

  predicate TokenAuthenticates(k: Keyring, t: nat, now: int) {
    t in k.tokens && !k.tokens[t].revoked && (k.tokens[t].expiresAt.None? || k.tokens[t].expiresAt.value > now)
  }

  predicate SessionLive(x: Session, now: int) {
    x.createdAt > now - SESSION_MAX_SECONDS && x.lastUsed > now - SESSION_IDLE_SECONDS
  }

  /** session: prune, then refresh the one that is presented. */
  function UseSession(k: Keyring, id: nat, now: int): Keyring {
    var live := map x | x in k.sessions && SessionLive(k.sessions[x], now) :: k.sessions[x];
    k.(sessions := if id in live then live[id := live[id].(lastUsed := now)] else live)
  }

  /** reset_password, with or without revoke_tokens. */
  function ResetPassword(k: Keyring, revokeTokens: bool, now: int): Keyring {
    var out := k.(sessions := map[]);
    if !revokeTokens then out
    else
      RevokeTokens(out, k.tokens.Keys).(
        devices := map d | d in k.devices ::
          if k.devices[d].status == Waiting || k.devices[d].status == Allowed
          then k.devices[d].(status := Withdrawn, expiresAt := now) else k.devices[d])
  }

  // ---------------------------------------------------------------- the recovery epoch

  function SweepDesk(d: Desk): Desk {
    Void(d, Unrevoked(d.approvals)).(
      grants := map g | g in d.grants :: d.grants[g].(revoked := true),
      windows := Close(d.windows, d.windows.Keys))
  }

  function Unrevoked(approvals: map<nat, Approval>): set<nat> {
    set r | r in approvals && !approvals[r].revoked
  }

  function SweepKeys(k: Keyring): Keyring {
    RevokeTokens(k, k.tokens.Keys).(devices := map[], sessions := map[])
  }

  /** advance_recovery_epoch, one transaction. */
  function Advance(s: State): State {
    s.(desk := SweepDesk(s.desk), keys := SweepKeys(s.keys), epoch := s.epoch + 1)
  }

  // ---------------------------------------------------------------- runs

  datatype Step =
    | CreateApproval(request: Request)
    | DecideApproval(ref: nat, yes: bool, who: nat)
    | ClaimReceipt(ref: nat)
    | RedeemReceipt(receipt: nat, digest: string)
    | Open(client: nat, instance: nat, who: nat, authenticatedAt: int)
    | TurnOff(window: nat)
    | AddClient(row: Client)
    | Disable(client: nat)
    | AddGrant(client: nat, scopes: set<Scope>)
    | WithdrawGrant(grant: nat)
    | WithdrawApprovals(grant: nat)
    | Start(code: nat, remote: nat)
    | Allow(code: nat)
    | ReadPoll(device: nat)
    | MintPoll(device: nat, began: int)
    | CreateToken(expiresAt: Option<int>)
    | RevokeToken(tokens: set<nat>)
    | Login
    | Browse(session: nat)
    | Reset(revokeTokens: bool)
    | AdvanceEpoch
    | Tick(elapsed: nat)

  function Draw(s: State, desk: Desk): State {
    s.(desk := desk, next := s.next + 1)
  }

  function DrawKey(s: State, keys: Keyring): State {
    s.(keys := keys, next := s.next + 1)
  }

  ghost function Apply(s: State, step: Step): State {
    var d, k := s.desk, s.keys;
    match step
    case CreateApproval(q) => Draw(s, Create(d, s.next, q, s.clock, s.epoch))
    case DecideApproval(r, yes, who) => s.(desk := Decide(d, r, yes, who, s.clock))
    case ClaimReceipt(r) => Draw(s, Claim(d, r, s.next, s.clock))
    case RedeemReceipt(rc, digest) => s.(desk := Redeem(d, rc, digest, s.clock))
    case Open(c, i, who, at) => Draw(s, OpenWindow(d, s.next, c, i, who, at, s.clock, s.epoch))
    case TurnOff(w) => s.(desk := RevokeWindow(d, w))
    case AddClient(c) => Draw(s, d.(clients := d.clients[s.next := c]))
    case Disable(c) => s.(desk := DisableClient(d, c))
    case AddGrant(c, scopes) => Draw(s, d.(grants := d.grants[s.next := Grant(c, scopes, false)]))
    case WithdrawGrant(g) => s.(desk := RevokeGrant(d, g))
    case WithdrawApprovals(g) => s.(desk := RevokeGrantApprovals(d, g))
    case Start(code, remote) => DrawKey(s, StartDevice(k, s.next, code, remote, s.clock, s.epoch))
    case Allow(code) => s.(keys := ApproveDevice(k, code, s.clock))
    case ReadPoll(dev) => s.(keys := PollRead(k, dev, s.clock))
    case MintPoll(dev, began) => DrawKey(s, PollMint(k, dev, s.next, began, s.epoch))
    case CreateToken(until) => DrawKey(s, k.(tokens := k.tokens[s.next := Token(until, false, s.epoch)]))
    case RevokeToken(which) => s.(keys := RevokeTokens(k, which))
    case Login => DrawKey(s, k.(sessions := k.sessions[s.next := Session(s.clock, s.clock, s.epoch)]))
    case Browse(id) => s.(keys := UseSession(k, id, s.clock))
    case Reset(revokeTokens) => s.(keys := ResetPassword(k, revokeTokens, s.clock))
    case AdvanceEpoch => Advance(s)
    case Tick(elapsed) => s.(clock := s.clock + elapsed)
  }

  ghost function Run(s: State, steps: seq<Step>): State
    decreases |steps|
  {
    if steps == [] then s else Apply(Run(s, steps[..|steps| - 1]), steps[|steps| - 1])
  }

  /** What the log says happened to one approval, in order. */
  function History(log: seq<Entry>, ref: nat): seq<Event>
    decreases |log|
  {
    if log == [] then [] else History(log[..|log| - 1], ref) + Concerning(log[|log| - 1], ref)
  }

  function Concerning(e: Entry, ref: nat): seq<Event> {
    match e
    case One(r, event) => if r == ref then [event] else []
    case Swept(refs) => if ref in refs then [Voided] else []
  }

  // ---------------------------------------------------------------- what a row implies

  /** The history that a row stands for. */
  function Story(row: Approval): seq<Event> {
    [Asked(row.request.digest)]
    + (if row.decidedAt.Some? then [Decided(row.status != Declined, row.decidedAt.value, row.window)] else [])
    + (if row.receipt.Some? then [Claimed(row.receipt.value)] else [])
    + (if row.consumedAt.Some? then [Redeemed(row.request.digest, row.consumedAt.value)] else [])
    + (if row.revoked then [Voided] else [])
  }
}
