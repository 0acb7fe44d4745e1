/** The control store as the mutable object it is: each method changes the tables as its statements
    do, and says which function of the old tables that is. */
module ApprovalStore {
  import opened ApprovalModel
  import opened ApprovalInvariants
  import opened Wrappers

  class ControlStore {
    var approvals: map<nat, Approval>
    var windows: map<nat, Window>
    var clients: map<nat, Client>
    var grants: map<nat, Grant>
    var tokens: map<nat, Token>
    var devices: map<nat, Device>
    var sessions: map<nat, Session>
    var epoch: nat
    var clock: int
    var next: nat
    ghost var log: seq<Entry>
    ghost var polls: set<(nat, int)>
    ghost var minted: seq<(nat, nat)>

    ghost function Desk(): Desk
      reads this
    {
      ApprovalModel.Desk(approvals, windows, clients, grants, log)
    }

    ghost function Keys(): Keyring
      reads this
    {
      Keyring(tokens, devices, sessions, polls, minted)
    }

    ghost function State(): State
      reads this
    {
      ApprovalModel.State(Desk(), Keys(), epoch, clock, next)
    }

    ghost predicate Valid()
      reads this
    {
      Inv(State())
    }

    constructor ()
      ensures State() == Init && Valid()
    {
      approvals, windows, clients, grants := map[], map[], map[], map[];
      tokens, devices, sessions, epoch, clock, next := map[], map[], map[], 0, 0, 0;
      log, polls, minted := [], {}, [];
    }

    // -------------------------------------------------------------- approvals

    /** Record a use of the standing approval that covers the request, if there is one. */
    method ConsumeWindow(q: Request) returns (r: Option<nat>)
      modifies this`windows
      ensures r.Some? ==>
        && Covers(old(Desk()), r.value, q)
        && windows == old(windows)[r.value := old(windows)[r.value].(consumed := old(windows)[r.value].consumed + 1)]
      ensures r.None? ==> windows == old(windows) && forall w :: !Covers(old(Desk()), w, q)
    {
      var permitted := q.grant in grants && grants[q.grant].client == q.client && !grants[q.grant].revoked
        && q.client in clients && !clients[q.client].disabled && clients[q.client].agent
        && q.scopes <= grants[q.grant].scopes && q.scopes <= clients[q.client].scopes;
      var todo := windows.Keys;
      while todo != {}
        invariant todo <= windows.Keys && windows == old(windows)
        invariant forall w :: w in windows && w !in todo ==> !Covers(old(Desk()), w, q)
        decreases |todo|
      {
        var w :| w in todo;
        todo := todo - {w};
        if permitted && windows[w].client == q.client && windows[w].instance == q.instance && !windows[w].revoked {
          windows := windows[w := windows[w].(consumed := windows[w].consumed + 1)];
          return Some(w);
        }
      }
      return None;
    }

    /** Insert the row, decided if a window's use was recorded for it. */
    method InsertApproval(ref: nat, q: Request, w: Option<nat>)
      requires w.Some? ==> w.value in windows
      modifies this`approvals, this`log
      ensures approvals == old(approvals)[ref :=
        if w.None? then Asking(q, clock, epoch)
        else Asking(q, clock, epoch).(status := Approved, decidedAt := Some(clock),
                                      decidedBy := Some(windows[w.value].createdBy), window := w)]
      ensures log == old(log) + [One(ref, Asked(q.digest))] + if w.None? then [] else [One(ref, Decided(true, clock, w))]
    {
      var row := Approval(q, clock, clock + APPROVAL_LIFETIME, Pending, None, None, None, None, None, false, epoch);
      log := log + [One(ref, Asked(q.digest))];
      if w.Some? {
        row := row.(status := Approved, decidedAt := Some(clock), decidedBy := Some(windows[w.value].createdBy), window := w);
        log := log + [One(ref, Decided(true, clock, w))];
      }
      approvals := approvals[ref := row];
    }

    /** The use and the row it decides commit together. */
    method RecordRequest(ref: nat, q: Request) returns (decided: bool)
      requires OneLive(windows)
      modifies this`approvals, this`windows, this`log
      ensures Desk() == Create(old(Desk()), ref, q, clock, epoch)
      ensures decided <==> exists w :: Decidable(old(Desk()), w, q)
    {
      var w := None;
      if q.operation != PROPOSALS_APPLY {
        w := ConsumeWindow(q);
      }
      InsertApproval(ref, q, w);
      if w.Some? {
        assert log == old(log) + [One(ref, Asked(q.digest)), One(ref, Decided(true, clock, w))];
        assert Desk() == CreateDecided(old(Desk()), ref, q, w.value, clock, epoch);
        CreateOnly(old(Desk()), ref, q, w.value, clock, epoch);
      }
      return w.Some?;
    }

    /** Returns the reference that names the row. */
    method CreateApproval(q: Request) returns (ref: nat, decided: bool)
      requires Valid()
      modifies this
      ensures Valid() && State() == Apply(old(State()), ApprovalModel.CreateApproval(q))
      ensures ref == old(next)
      ensures decided <==> exists w :: Decidable(old(Desk()), w, q)
    {
      ref := next;
      decided := RecordRequest(ref, q);
      next := next + 1;
      hide Inv, Create, Decidable;
      StepKeeps(old(State()), ApprovalModel.CreateApproval(q), State());
    }

    method DecideApproval(ref: nat, yes: bool, who: nat) returns (done: bool)
      modifies this`approvals, this`log
      ensures Desk() == Decide(old(Desk()), ref, yes, who, clock)
      ensures done <==> Desk() != old(Desk())
    {
      if ref !in approvals {
        return false;
      }
      var row := approvals[ref];
      if row.status != Pending || row.expiresAt <= clock || row.revoked {
        return false;
      }
      approvals := approvals[ref := row.(status := if yes then Approved else Declined, decidedAt := Some(clock),
                                         decidedBy := Some(who))];
      log := log + [One(ref, Decided(yes, clock, None))];
      assert log != old(log);
      return true;
    }

    method ClaimReceipt(ref: nat) returns (receipt: Option<nat>)
      modifies this`approvals, this`log, this`next
      ensures State() == Apply(old(State()), ApprovalModel.ClaimReceipt(ref))
      ensures receipt == if Claimable(old(Desk()), ref, clock) then Some(old(next)) else None
    {
      var secret := next;
      next := next + 1;
      if ref !in approvals {
        return None;
      }
      var row := approvals[ref];
      if row.status != Approved || row.receipt.Some? || row.revoked || row.decidedAt.None?
         || row.decidedAt.value <= clock - RECEIPT_LIFETIME {
        return None;
      }
      approvals := approvals[ref := row.(receipt := Some(secret))];
      log := log + [One(ref, Claimed(secret))];
      return Some(secret);
    }

    /** The row that the statement matches, if there is one. */
    method FindSpendable(receipt: nat, digest: string) returns (r: Option<nat>)
      ensures r.Some? ==> Spendable(Desk(), r.value, receipt, digest, clock)
      ensures r.None? ==> forall ref :: !Spendable(Desk(), ref, receipt, digest, clock)
    {
      var todo := approvals.Keys;
      while todo != {}
        invariant todo <= approvals.Keys
        invariant forall ref :: ref in approvals && ref !in todo ==> !Spendable(Desk(), ref, receipt, digest, clock)
        decreases |todo|
      {
        var ref :| ref in todo;
        todo := todo - {ref};
        var row := approvals[ref];
        if row.receipt == Some(receipt) && row.status == Approved && row.request.digest == digest && !row.revoked
           && row.decidedAt.Some? && row.decidedAt.value > clock - RECEIPT_LIFETIME {
          return Some(ref);
        }
      }
      return None;
    }

    /** The row is found and spent in one statement; a second presentation finds nothing. */
    method RedeemReceipt(receipt: nat, digest: string) returns (r: Option<nat>)
      requires Valid()
      modifies this`approvals, this`log
      ensures Valid() && Desk() == Redeem(old(Desk()), receipt, digest, clock)
      ensures r.Some? ==> Spendable(old(Desk()), r.value, receipt, digest, clock)
      ensures r.None? ==> forall ref :: !Spendable(old(Desk()), ref, receipt, digest, clock)
      ensures forall ref :: !Spendable(Desk(), ref, receipt, digest, clock)
    {
      r := FindSpendable(receipt, digest);
      if r.Some? {
        approvals := approvals[r.value := approvals[r.value].(status := Consumed, consumedAt := Some(clock))];
        log := log + [One(r.value, Redeemed(digest, clock))];
        assert Desk() == Spend(old(Desk()), r.value, clock);
        RedeemOnly(old(Desk()), receipt, digest, clock, r.value);
      }
      hide Inv, Redeem, Spend, Spendable;
      StepKeeps(old(State()), ApprovalModel.RedeemReceipt(receipt, digest), State());
    }

    /** One UPDATE that revokes a set of approvals. */
    method RevokeApprovals(refs: set<nat>)
      modifies this`approvals, this`log
      ensures Desk() == Void(old(Desk()), refs)
    {
      approvals := map r | r in approvals :: if r in refs then approvals[r].(revoked := true) else approvals[r];
      log := log + [Swept(refs)];
    }

    // -------------------------------------------------------------- windows, clients, grants

    method OpenApprovalWindow(client: nat, instance: nat, who: nat, authenticatedAt: int) returns (ok: bool)
      modifies this`windows, this`next
      ensures State() == Apply(old(State()), Open(client, instance, who, authenticatedAt))
      ensures ok ==> exists w :: w in windows && LiveFor(windows[w], client, instance)
      ensures ok <==> authenticatedAt >= clock - WINDOW_RECENCY && AgentEnabled(Desk(), client)
    {
      var id := next;
      next := next + 1;
      if authenticatedAt < clock - WINDOW_RECENCY {
        return false;
      }
      if client !in clients || clients[client].disabled || !clients[client].agent {
        return false;
      }
      if exists w :: w in windows && windows[w].client == client && windows[w].instance == instance && !windows[w].revoked {
        var w :| w in windows && LiveFor(windows[w], client, instance);
        return true;
      }
      assert !exists w :: w in windows && LiveFor(windows[w], client, instance);
      windows := windows[id := Window(client, instance, who, 0, false, epoch)];
      assert LiveFor(windows[id], client, instance);
      return true;
    }

    method RevokeApprovalWindow(w: nat) returns (done: bool)
      modifies this`approvals, this`windows, this`log
      ensures Desk() == RevokeWindow(old(Desk()), w)
      ensures done <==> w in old(windows) && !old(windows)[w].revoked
    {
      if w !in windows || windows[w].revoked {
        return false;
      }
      RevokeApprovals(DecidedUnspent(approvals, w));
      windows := Close(windows, {w});
      return true;
    }

    method DisableOAuthClient(client: nat) returns (done: bool)
      modifies this`approvals, this`windows, this`clients, this`log
      ensures Desk() == DisableClient(old(Desk()), client)
      ensures done <==> AgentEnabled(old(Desk()), client)
    {
      if client !in clients || !clients[client].agent || clients[client].disabled {
        return false;
      }
      clients := clients[client := clients[client].(disabled := true)];
      windows := Close(windows, ClientWindows(windows, client));
      RevokeApprovals(ClientUnspent(approvals, client));
      return true;
    }

    /** Each statement commits on its own; here nothing comes between them. */
    method RevokeOAuthGrant(grant: nat) returns (done: bool)
      modifies this`approvals, this`grants, this`log
      ensures done <==> grant in old(grants) && !old(grants)[grant].revoked
      ensures Desk() == if done then RevokeGrantApprovals(RevokeGrant(old(Desk()), grant), grant) else old(Desk())
    {
      if grant !in grants || grants[grant].revoked {
        return false;
      }
      grants := grants[grant := grants[grant].(revoked := true)];
      assert Desk() == RevokeGrant(old(Desk()), grant);
      RevokeApprovals(GrantUnspent(approvals, grant));
      return true;
    }

    // -------------------------------------------------------------- credentials

    /** Drop what expired, then queue the request; a refusal rolls the drop back too. */
    method StartDeviceAuthorization(code: nat, remote: nat) returns (r: Option<nat>)
      modifies this`devices, this`next
      ensures State() == Apply(old(State()), Start(code, remote))
      ensures r.None? ==> devices == old(devices)
      ensures r.Some? ==>
        && r.value == old(next) && r.value in devices && |devices| <= MAX_DEVICES
        && forall d :: d in devices && d != r.value ==> d in old(devices) && old(devices)[d].expiresAt > clock
    {
      var id := next;
      next := next + 1;
      var live := Unexpired(devices, clock);
      if CountPending(live, remote) >= MAX_PENDING_DEVICES || |live| >= MAX_DEVICES {
        return None;
      }
      if exists d :: d in live && live[d].code == code && live[d].status == Waiting {
        return None;
      }
      devices := live[id := Device(code, remote, clock + DEVICE_AUTH_SECONDS, Waiting, epoch)];
      assert devices.Keys == live.Keys + {id};
      assert |devices.Keys| <= |live.Keys| + 1;
      return Some(id);
    }

    method ApproveDeviceAuthorization(code: nat) returns (done: bool)
      modifies this`devices
      ensures Keys() == ApproveDevice(old(Keys()), code, clock)
      ensures done <==> (exists d :: d in old(devices) && old(devices)[d].code == code
                                     && old(devices)[d].status == Waiting && old(devices)[d].expiresAt > clock)
    {
      done := exists d :: d in devices && devices[d].code == code && devices[d].status == Waiting && devices[d].expiresAt > clock;
      devices := map d | d in devices ::
        if devices[d].code == code && devices[d].status == Waiting && devices[d].expiresAt > clock
        then devices[d].(status := Allowed) else devices[d];
    }

    /** The second half of a poll that began at `began` and read `approved`. */
    method MintDeviceToken(d: nat, began: int) returns (token: Option<nat>)
      requires (d, began) in polls
      modifies this`devices, this`tokens, this`minted, this`next
      ensures State() == Apply(old(State()), MintPoll(d, began))
      ensures token == if MayMint(old(Keys()), d, began) then Some(old(next)) else None
    {
      var id := next;
      next := next + 1;
      if d !in devices || devices[d].status != Allowed || devices[d].expiresAt <= began {
        return None;
      }
      devices := devices[d := devices[d].(status := Spent)];
      tokens := tokens[id := Token(Some(began + DEVICE_TOKEN_SECONDS), false, epoch)];
      minted := minted + [(d, id)];
      return Some(id);
    }

    method AuthenticateToken(t: nat) returns (ok: bool)
      ensures ok <==> TokenAuthenticates(Keys(), t, clock)
    {
      if t !in tokens {
        return false;
      }
      var row := tokens[t];
      return !row.revoked && (row.expiresAt.None? || row.expiresAt.value > clock);
    }

    method UseSession(id: nat) returns (ok: bool)
      modifies this`sessions
      ensures Keys() == ApprovalModel.UseSession(old(Keys()), id, clock)
      ensures ok <==> id in old(sessions) && SessionLive(old(sessions)[id], clock)
    {
      sessions := map x | x in sessions && SessionLive(sessions[x], clock) :: sessions[x];
      if id !in sessions {
        return false;
      }
      sessions := sessions[id := sessions[id].(lastUsed := clock)];
      return true;
    }

    /** One transaction over every table that holds authority. */
    method AdvanceRecoveryEpoch()
      modifies this
      ensures State() == Advance(old(State()))
    {
      hide Void, Close, RevokeTokens;
      epoch := epoch + 1;
      SweepCredentials();
      SweepAuthority();
    }

    method SweepCredentials()
      modifies this`tokens, this`devices, this`sessions
      ensures Keys() == SweepKeys(old(Keys()))
    {
      tokens := map t | t in tokens :: tokens[t].(revoked := true);
      devices, sessions := map[], map[];
    }

    method SweepAuthority()
      modifies this`approvals, this`grants, this`windows, this`log
      ensures Desk() == SweepDesk(old(Desk()))
    {
      hide Void, Close;
      RevokeApprovals(Unrevoked(approvals));
      grants := map g | g in grants :: grants[g].(revoked := true);
      windows := Close(windows, windows.Keys);
    }
  }

  /** With one live window per client and instance, only one can cover a request. */
  lemma OneCovers(d: Desk, q: Request, w: nat)
    requires OneLive(d.windows) && Covers(d, w, q)
    ensures forall v :: Covers(d, v, q) ==> v == w
  {
  }

  /** With receipts unique, the statement spends the one row that was found, and leaves none to find. */
  lemma RedeemOnly(d: Desk, receipt: nat, digest: string, now: int, ref: nat)
    requires ReceiptsInv(d.approvals) && Spendable(d, ref, receipt, digest, now)
    ensures Redeem(d, receipt, digest, now) == Spend(d, ref, now)
    ensures forall r :: !Spendable(Spend(d, ref, now), r, receipt, digest, now)
  {
    assert forall r :: Spendable(d, r, receipt, digest, now) ==> r == ref;
  }

  lemma CreateOnly(d: Desk, ref: nat, q: Request, w: nat, now: int, epoch: nat)
    requires OneLive(d.windows) && Decidable(d, w, q)
    ensures Create(d, ref, q, now, epoch) == CreateDecided(d, ref, q, w, now, epoch)
  {
    OneCovers(d, q, w);
    assert forall v :: Decidable(d, v, q) ==> v == w;
  }
}
