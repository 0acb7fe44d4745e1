/** What holds of every run of the control store: one redemption per approval, with its whole
    history fixed; standing windows; grants; and the death of everything before a new epoch. */
module ApprovalTheorems {
  import opened ApprovalModel
  import opened ApprovalInvariants
  import opened Wrappers

  ghost predicate Reaches(s: State, t: State, steps: seq<Step>) {
    Run(s, steps) == t
  }

  ghost predicate Reachable(s: State) {
    exists steps :: Reaches(Init, s, steps)
  }

  lemma ReachableInv(s: State)
    requires Reachable(s)
    ensures Inv(s)
  {
    var steps :| Reaches(Init, s, steps);
    assert Inv(Init);
    RunKeeps(Init, steps);
  }

  // ---------------------------------------------------------------- one approval

  /** The whole life of an approval that was redeemed, up to a later revocation. */
  function RedeemedLife(digest: string, decidedAt: int, window: Option<nat>, receipt: nat, at: int): seq<Event> {
    [Asked(digest), Decided(true, decidedAt, window), Claimed(receipt), Redeemed(digest, at)]
  }

  ghost predicate LivedAs(h: seq<Event>, digest: string, decidedAt: int, window: Option<nat>, receipt: nat, at: int) {
    h == RedeemedLife(digest, decidedAt, window, receipt, at)
    || h == RedeemedLife(digest, decidedAt, window, receipt, at) + [Voided]
  }

  /** In every interleaving a redemption is the only one of its approval, and it follows exactly
      one approving decision less than five minutes old, exactly one claim, and no revocation, with
      the digest that was asked for. */
  lemma RedemptionHistory(s: State, ref: nat, digest: string, at: int)
    requires Reachable(s) && Redeemed(digest, at) in History(s.desk.log, ref)
    ensures exists decidedAt: int, window: Option<nat>, receipt: nat ::
      LivedAs(History(s.desk.log, ref), digest, decidedAt, window, receipt, at)
      && decidedAt <= at < decidedAt + RECEIPT_LIFETIME
  {
    ReachableInv(s);
    hide History;
    assert ref in s.desk.approvals;
    var row := s.desk.approvals[ref];
    assert RowOk(row, s.clock);
    StoryOfConsumed(row, digest, at);
    assert LivedAs(History(s.desk.log, ref), digest, row.decidedAt.value, row.window, row.receipt.value, at);
  }

  lemma StoryOfConsumed(row: Approval, digest: string, at: int)
    requires Redeemed(digest, at) in Story(row) && (row.consumedAt.Some? ==> row.receipt.Some? && row.decidedAt.Some?)
    requires row.consumedAt.Some? ==> row.status == Consumed
    ensures row.consumedAt == Some(at) && row.request.digest == digest
    ensures Story(row) == RedeemedLife(digest, row.decidedAt.value, row.window, row.receipt.value, at)
                          + if row.revoked then [Voided] else []
  {
  }

  ghost predicate ReadyToSpend(h: seq<Event>, digest: string, decidedAt: int, window: Option<nat>, receipt: nat) {
    h == [Asked(digest), Decided(true, decidedAt, window), Claimed(receipt)]
  }

  /** A receipt can be spent exactly when some approval was asked for with this digest, approved less
      than five minutes ago and claimed as this receipt, and nothing else ever happened to it. */
  lemma ReceiptSpendableIff(s: State, receipt: nat, digest: string)
    requires Reachable(s)
    ensures (exists ref :: Spendable(s.desk, ref, receipt, digest, s.clock))
      <==> exists ref: nat, decidedAt: int, window: Option<nat> ::
             ReadyToSpend(History(s.desk.log, ref), digest, decidedAt, window, receipt) && decidedAt > s.clock - RECEIPT_LIFETIME
  {
    ReachableInv(s);
    hide History, Inv;
    if exists ref :: Spendable(s.desk, ref, receipt, digest, s.clock) {
      var ref :| Spendable(s.desk, ref, receipt, digest, s.clock);
      SpendableIsReady(s, ref, receipt, digest);
    }
    if ref: nat, decidedAt: int, window: Option<nat> :|
      ReadyToSpend(History(s.desk.log, ref), digest, decidedAt, window, receipt) && decidedAt > s.clock - RECEIPT_LIFETIME
    {
      ReadyIsSpendable(s, ref, decidedAt, window, receipt, digest);
    }
  }

  lemma SpendableIsReady(s: State, ref: nat, receipt: nat, digest: string)
    requires Inv(s) && Spendable(s.desk, ref, receipt, digest, s.clock)
    ensures (var row := s.desk.approvals[ref];
      ReadyToSpend(History(s.desk.log, ref), digest, row.decidedAt.value, row.window, receipt))
  {
    hide History;
    var row := s.desk.approvals[ref];
    assert RowOk(row, s.clock);
    assert History(s.desk.log, ref) == Story(row);
    assert Story(row) == [Asked(digest), Decided(true, row.decidedAt.value, row.window), Claimed(receipt)];
  }

  lemma ReadyIsSpendable(s: State, ref: nat, decidedAt: int, window: Option<nat>, receipt: nat, digest: string)
    requires Inv(s) && ReadyToSpend(History(s.desk.log, ref), digest, decidedAt, window, receipt)
    requires decidedAt > s.clock - RECEIPT_LIFETIME
    ensures Spendable(s.desk, ref, receipt, digest, s.clock)
  {
    hide History;
    assert ref in s.desk.approvals;
    var row := s.desk.approvals[ref];
    assert RowOk(row, s.clock);
    assert History(s.desk.log, ref) == Story(row);
    StoryReady(row, digest, decidedAt, window, receipt);
  }

  lemma StoryReady(row: Approval, digest: string, decidedAt: int, window: Option<nat>, receipt: nat)
    requires Story(row) == [Asked(digest), Decided(true, decidedAt, window), Claimed(receipt)]
    requires row.status == Consumed <==> row.consumedAt.Some?
    requires row.decidedAt.None? ==> row.receipt.None? && row.consumedAt.None?
    ensures row.request.digest == digest && row.decidedAt == Some(decidedAt) && row.receipt == Some(receipt)
    ensures row.status != Declined && row.consumedAt.None? && !row.revoked
  {
    assert Story(row)[0] == Asked(digest);
    assert Story(row)[1] == Decided(true, decidedAt, window);
    assert Story(row)[2] == Claimed(receipt);
  }

  /** Two approvals never share a receipt, and the CHECKs of the table hold of every row. */
  lemma RowChecksHold(s: State)
    requires Reachable(s)
    ensures forall r :: r in s.desk.approvals ==> RowOk(s.desk.approvals[r], s.clock)
    ensures ReceiptsInv(s.desk.approvals)
  {
    ReachableInv(s);
  }

  // ---------------------------------------------------------------- what one step does to approvals

  /** Nothing more happens to a row that is spent, declined or revoked, except a revocation. */
  predicate Frozen(before: Approval, after: Approval) {
    after == before || after == before.(revoked := true)
  }

  /** Approvals and windows are never deleted, an approval's request and window are fixed when it is
      created, and a window that decides a new approval covers it at that moment. */
  ghost predicate Forward(d: Desk, q: Option<Request>, ref: nat, t: Desk) {
    && (forall r :: r in d.approvals ==>
          && r in t.approvals && t.approvals[r].window == d.approvals[r].window
          && t.approvals[r].request == d.approvals[r].request
          && (!Unspent(d.approvals[r]) ==> Frozen(d.approvals[r], t.approvals[r])))
    && (forall r :: r in t.approvals && r !in d.approvals ==>
          && r == ref && q == Some(t.approvals[r].request)
          && (t.approvals[r].window.Some? ==> Decidable(d, t.approvals[r].window.value, q.value)))
    && (forall w :: w in d.windows ==> w in t.windows && (d.windows[w].revoked ==> t.windows[w] == d.windows[w]))
  }

  function Asks(step: Step): Option<Request> {
    if step.CreateApproval? then Some(step.request) else None
  }

  lemma StepForward(s: State, step: Step, t: State)
    requires Inv(s) && t == Apply(s, step)
    ensures Forward(s.desk, Asks(step), s.next, t.desk)
  {
    KeysFresh(s);
    hide Inv, Apply, Forward;
    if AtDesk(step) {
      DeskForward(s, step, t);
    } else if step.AdvanceEpoch? {
      AdvanceForward(s, step, t);
    } else {
      KeysLeaveDesk(s, step, t);
      SameRowsForward(s.desk, s.next, t.desk);
    }
  }

  lemma KeysFresh(s: State)
    requires Inv(s)
    ensures s.next !in s.desk.approvals && s.next !in s.desk.windows
  {
  }

  lemma DeskForward(s: State, step: Step, t: State)
    requires AtDesk(step) && t == Apply(s, step)
    requires s.next !in s.desk.approvals && s.next !in s.desk.windows
    ensures Forward(s.desk, Asks(step), s.next, t.desk)
  {
    hide Create, Redeem, RevokeWindow, DisableClient, RevokeGrantApprovals, Decide, Claim, OpenWindow, Forward;
    var d := s.desk;
    match step
    case CreateApproval(q) => CreateForward(d, s.next, q, s.clock, s.epoch, t.desk);
    case DecideApproval(r, yes, who) => DecideForward(d, r, yes, who, s.clock, s.next);
    case ClaimReceipt(r) => ClaimForward(d, r, s.next, s.clock);
    case RedeemReceipt(rc, digest) => RedeemForward(d, rc, digest, s.clock, s.next, t.desk);
    case Open(c, i, who, at) => OpenForward(d, s.next, c, i, who, at, s.clock, s.epoch);
    case TurnOff(w) => TurnOffForward(d, w, s.next);
    case AddClient(_) => SameRowsForward(d, s.next, t.desk);
    case Disable(c) => DisableForward(d, c, s.next);
    case AddGrant(_, _) => SameRowsForward(d, s.next, t.desk);
    case WithdrawGrant(_) => SameRowsForward(d, s.next, t.desk);
    case WithdrawApprovals(g) => GrantApprovalsForward(d, g, s.next);
  }

  lemma AdvanceForward(s: State, step: Step, t: State)
    requires step.AdvanceEpoch? && t == Apply(s, step)
    ensures Forward(s.desk, None, s.next, t.desk)
  {
    hide Forward, Void;
    VoidForward(s.desk, Unrevoked(s.desk.approvals), s.next, t.desk);
  }

  lemma SameRowsForward(d: Desk, ref: nat, t: Desk)
    requires t.approvals == d.approvals && t.windows == d.windows
    ensures Forward(d, None, ref, t)
  {
  }

  lemma DecideForward(d: Desk, r: nat, yes: bool, who: nat, now: int, ref: nat)
    ensures Forward(d, None, ref, Decide(d, r, yes, who, now))
  {
  }

  lemma ClaimForward(d: Desk, r: nat, receipt: nat, now: int)
    ensures Forward(d, None, receipt, Claim(d, r, receipt, now))
  {
  }

  lemma OpenForward(d: Desk, id: nat, client: nat, instance: nat, who: nat, at: int, now: int, epoch: nat)
    requires id !in d.windows
    ensures Forward(d, None, id, OpenWindow(d, id, client, instance, who, at, now, epoch))
  {
  }

  /** Revoking unspent approvals and closing windows, as every withdrawal does. */
  lemma VoidForward(d: Desk, refs: set<nat>, ref: nat, t: Desk)
    requires t.approvals == Void(d, refs).approvals
    requires forall w :: w in d.windows ==> w in t.windows && (d.windows[w].revoked ==> t.windows[w] == d.windows[w])
    ensures Forward(d, None, ref, t)
  {
    VoidFrame(d, refs, Void(d, refs));
    hide Void;
  }

  lemma TurnOffForward(d: Desk, w: nat, ref: nat)
    ensures Forward(d, None, ref, RevokeWindow(d, w))
  {
    hide Forward, Close, Void;
    if w in d.windows && !d.windows[w].revoked {
      CloseFrame(d.windows, {w});
      VoidForward(d, DecidedUnspent(d.approvals, w), ref, RevokeWindow(d, w));
    } else {
      SameRowsForward(d, ref, d);
    }
  }

  lemma GrantApprovalsForward(d: Desk, grant: nat, ref: nat)
    ensures Forward(d, None, ref, RevokeGrantApprovals(d, grant))
  {
    var refs := GrantUnspent(d.approvals, grant);
    VoidFrame(d, refs, Void(d, refs));
    hide Forward, Void;
    VoidForward(d, refs, ref, Void(d, refs));
  }

  lemma DisableForward(d: Desk, client: nat, ref: nat)
    ensures Forward(d, None, ref, DisableClient(d, client))
  {
    hide Forward, Close, Void;
    if AgentEnabled(d, client) {
      CloseFrame(d.windows, ClientWindows(d.windows, client));
      VoidForward(d, ClientUnspent(d.approvals, client), ref, DisableClient(d, client));
    } else {
      SameRowsForward(d, ref, d);
    }
  }

  lemma CloseFrame(windows: map<nat, Window>, closed: set<nat>)
    ensures forall w :: w in windows ==>
      w in Close(windows, closed) && (windows[w].revoked ==> Close(windows, closed)[w] == windows[w])
  {
  }

  lemma CreateForward(d: Desk, ref: nat, q: Request, now: int, epoch: nat, t: Desk)
    requires ref !in d.approvals && t == Create(d, ref, q, now, epoch)
    ensures Forward(d, Some(q), ref, t)
  {
    if exists w :: Decidable(d, w, q) {
      var w :| Decidable(d, w, q) && t == CreateDecided(d, ref, q, w, now, epoch);
    }
  }

  lemma RedeemForward(d: Desk, receipt: nat, digest: string, now: int, ref: nat, t: Desk)
    requires t == Redeem(d, receipt, digest, now)
    ensures Forward(d, None, ref, t)
  {
    hide Forward, Spend;
    if exists r :: Spendable(d, r, receipt, digest, now) {
      var r :| Spendable(d, r, receipt, digest, now) && t == Spend(d, r, now);
      SpendForward(d, r, receipt, digest, now, ref, t);
    } else {
      SameForward(d, ref);
    }
  }

  lemma SpendForward(d: Desk, r: nat, receipt: nat, digest: string, now: int, ref: nat, t: Desk)
    requires Spendable(d, r, receipt, digest, now) && t == Spend(d, r, now)
    ensures Forward(d, None, ref, t)
  {
  }

  lemma SameForward(d: Desk, ref: nat)
    ensures Forward(d, None, ref, d)
  {
  }

  // ---------------------------------------------------------------- nothing unspent, nothing redeemed

  lemma {:induction false} RunFrozen(s: State, steps: seq<Step>, r: nat)
    requires Inv(s) && r in s.desk.approvals && !Unspent(s.desk.approvals[r])
    ensures r in Run(s, steps).desk.approvals && Frozen(s.desk.approvals[r], Run(s, steps).desk.approvals[r])
    decreases |steps|
  {
    hide Inv, Apply;
    if steps != [] {
      var u := Run(s, steps[..|steps| - 1]);
      RunKeeps(s, steps[..|steps| - 1]);
      RunFrozen(s, steps[..|steps| - 1], r);
      StepForward(u, steps[|steps| - 1], Run(s, steps));
    }
  }

  /** Nothing is decided, claimed or redeemed any more about an approval that is spent, declined or
      revoked: at most a revocation is added to its history. */
  ghost predicate OnlyVoided(before: seq<Event>, after: seq<Event>) {
    after == before || after == before + [Voided]
  }

  lemma FrozenHistory(s: State, steps: seq<Step>, r: nat)
    requires Inv(s) && r in s.desk.approvals && !Unspent(s.desk.approvals[r])
    ensures OnlyVoided(History(s.desk.log, r), History(Run(s, steps).desk.log, r))
  {
    hide History, Run;
    RunKeeps(s, steps);
    RunFrozen(s, steps, r);
    var u := Run(s, steps);
    assert History(s.desk.log, r) == Story(s.desk.approvals[r]);
    assert History(u.desk.log, r) == Story(u.desk.approvals[r]);
    if !s.desk.approvals[r].revoked {
      StoryRevoked(s.desk.approvals[r]);
    }
  }

  // ---------------------------------------------------------------- standing windows

  /** A window's count is the number of approvals it decided, and no client has two live windows
      for one instance. */
  lemma WindowsCountDecisions(s: State, w: nat)
    requires Reachable(s) && w in s.desk.windows
    ensures s.desk.windows[w].consumed == |DecidedBy(s.desk.approvals, w)|
    ensures !s.desk.windows[w].revoked ==>
      forall v :: (v in s.desk.windows && LiveFor(s.desk.windows[v], s.desk.windows[w].client, s.desk.windows[w].instance)
                   ==> v == w)
  {
    ReachableInv(s);
    assert WindowOk(s.desk.approvals, w, s.desk.windows[w], s.epoch);
  }

  /** The k-th step of a run created this approval while the window covered its request. */
  ghost predicate CoveredAt(steps: seq<Step>, k: nat, w: nat, q: Request) {
    && k < |steps| && steps[k] == CreateApproval(q)
    && Decidable(Run(Init, steps[..k]).desk, w, q)
  }

  /** Every decision a window ever made was made by a live window for the client and instance of the
      request, while a live grant and an enabled client both covered its scopes. */
  lemma {:induction false} WindowDecisionWasCovered(steps: seq<Step>, r: nat)
    requires r in Run(Init, steps).desk.approvals && Run(Init, steps).desk.approvals[r].window.Some?
    ensures exists k: nat ::
      CoveredAt(steps, k, Run(Init, steps).desk.approvals[r].window.value, Run(Init, steps).desk.approvals[r].request)
    decreases |steps|
  {
    hide Inv, Apply, Decidable;
    if steps != [] {
      var front, last := steps[..|steps| - 1], steps[|steps| - 1];
      var u, t := Run(Init, front), Run(Init, steps);
      InitInv();
      RunKeeps(Init, front);
      StepForward(u, last, t);
      if r in u.desk.approvals {
        WindowDecisionWasCovered(front, r);
        var k: nat :| CoveredAt(front, k, t.desk.approvals[r].window.value, t.desk.approvals[r].request);
        assert steps[..k] == front[..k];
        assert CoveredAt(steps, k, t.desk.approvals[r].window.value, t.desk.approvals[r].request);
      } else {
        assert CoveredAt(steps, |front|, t.desk.approvals[r].window.value, t.desk.approvals[r].request);
      }
    }
  }

  lemma InitInv()
    ensures Inv(Init)
  {
  }

  /** Since `s`, the window has been off and has decided nothing more. */
  ghost predicate OffSince(s: State, u: State, w: nat) {
    && w in s.desk.windows && w in u.desk.windows && u.desk.windows[w] == s.desk.windows[w]
    && (forall r :: r in u.desk.approvals && u.desk.approvals[r].window == Some(w) ==>
          r in s.desk.approvals && s.desk.approvals[r].window == Some(w))
  }

  lemma {:induction false} RunOff(s: State, steps: seq<Step>, w: nat)
    requires Inv(s) && w in s.desk.windows && s.desk.windows[w].revoked
    ensures OffSince(s, Run(s, steps), w)
    decreases |steps|
  {
    hide Inv, Apply;
    if steps != [] {
      var front := steps[..|steps| - 1];
      RunKeeps(s, front);
      RunOff(s, front, w);
      StepForward(Run(s, front), steps[|steps| - 1], Run(s, steps));
    }
  }

  /** Once a window is off it decides nothing more, and none of the approvals it decided is redeemed,
      or claimed, in any later run: not even the receipts that were approved and unspent. */
  lemma WindowOffNeverRedeems(s: State, w: nat, steps: seq<Step>, r: nat)
    requires Reachable(s) && w in s.desk.windows && s.desk.windows[w].revoked
    requires r in Run(s, steps).desk.approvals && Run(s, steps).desk.approvals[r].window == Some(w)
    ensures r in s.desk.approvals
    ensures OnlyVoided(History(s.desk.log, r), History(Run(s, steps).desk.log, r))
    ensures w in Run(s, steps).desk.windows && Run(s, steps).desk.windows[w].consumed == s.desk.windows[w].consumed
  {
    ReachableInv(s);
    RunOff(s, steps, w);
    assert WindowOk(s.desk.approvals, w, s.desk.windows[w], s.epoch);
    hide Inv, Run, History;
    FrozenHistory(s, steps, r);
  }

  // ---------------------------------------------------------------- grants

  lemma GrantSwept(s: State, grant: nat, r: nat, t: State)
    requires Inv(s) && t == Apply(s, WithdrawApprovals(grant))
    requires r in s.desk.approvals && s.desk.approvals[r].request.grant == grant
    ensures r in t.desk.approvals && !Unspent(t.desk.approvals[r])
    ensures History(t.desk.log, r) == History(s.desk.log, r) + (if Unspent(s.desk.approvals[r]) then [Voided] else [])
  {
    hide Inv, History;
    VoidFrame(s.desk, GrantUnspent(s.desk.approvals, grant), t.desk);
    HistoryAppend(s.desk.log, Swept(GrantUnspent(s.desk.approvals, grant)), r);
  }

  /** The statement of revoke_oauth_grant that reaches the approvals stops every one of them. */
  lemma SweptGrantNeverRedeems(s: State, grant: nat, r: nat, steps: seq<Step>)
    requires Reachable(s) && r in s.desk.approvals && s.desk.approvals[r].request.grant == grant
    ensures OnlyVoided(History(s.desk.log, r) + (if Unspent(s.desk.approvals[r]) then [Voided] else []),
                       History(Run(Apply(s, WithdrawApprovals(grant)), steps).desk.log, r))
  {
    ReachableInv(s);
    var t := Apply(s, WithdrawApprovals(grant));
    StepKeeps(s, WithdrawApprovals(grant), t);
    GrantSwept(s, grant, r, t);
    hide Inv, Run, History, Apply, Unspent, OnlyVoided;
    FrozenHistory(t, steps, r);
  }

  /** Its first statement, the one that revokes the grant, stops none: each statement commits on its
      own, and spending a receipt never looks at the grant. */
  lemma WithdrawnGrantKeepsReceipts(s: State, grant: nat, ref: nat, receipt: nat, digest: string)
    ensures Spendable(Apply(s, WithdrawGrant(grant)).desk, ref, receipt, digest, s.clock)
      <==> Spendable(s.desk, ref, receipt, digest, s.clock)
  {
  }

  const SOME_REQUEST := Request(0, 0, 0, "layer.update", "digest", {})

  /** A consent, an approval under it, its claim, the withdrawal of the consent, and the redemption. */
  const WITHDRAWN_TOO_LATE: seq<Step> :=
    [AddGrant(0, {}), CreateApproval(SOME_REQUEST), DecideApproval(1, true, 7), ClaimReceipt(1), WithdrawGrant(0),
     RedeemReceipt(2, "digest")]

  /** So revocation of a grant is not one transaction: a receipt made under it is spent after the grant
      is revoked and before its approvals are. */
  lemma RevokedGrantStillRedeems()
    ensures (var u := Run(Init, WITHDRAWN_TOO_LATE);
      && u.desk.grants == map[0 := Grant(0, {}, true)]
      && 1 in u.desk.approvals && u.desk.approvals[1].status == Consumed && u.desk.approvals[1].request.grant == 0)
  {
    var s1 := Apply(Init, AddGrant(0, {}));
    var s2 := Apply(s1, CreateApproval(SOME_REQUEST));
    assert s2.desk.approvals == map[1 := Asking(SOME_REQUEST, 0, 0)] && s2.next == 2;
    var s3 := Apply(s2, DecideApproval(1, true, 7));
    var s4 := Apply(s3, ClaimReceipt(1));
    assert s4.desk.approvals[1].receipt == Some(2);
    var s5 := Apply(s4, WithdrawGrant(0));
    assert Spendable(s5.desk, 1, 2, "digest", s5.clock);
    var s6 := Apply(s5, RedeemReceipt(2, "digest"));
    OneRowSpent(s5.desk, 1, 2, "digest", s5.clock, s6.desk);
    RunSix(Init, WITHDRAWN_TOO_LATE);
  }

  /** Asking, a person's yes, the claim of the receipt and its redemption. */
  function AskedAndSpent(q: Request, who: nat, next: nat): seq<Step> {
    [CreateApproval(q), DecideApproval(next, true, who), ClaimReceipt(next), RedeemReceipt(next + 1, q.digest)]
  }

  /** An approval asked for under a grant that is revoked already is out of reach of the sweep that
      came before it. No window decides it, but a person may, and then it is claimed and redeemed. */
  lemma RevokedGrantStillAsks(s: State, q: Request, who: nat)
    requires Reachable(s) && q.grant in s.desk.grants && s.desk.grants[q.grant].revoked
    ensures Apply(s, CreateApproval(q)).desk.approvals[s.next].status == Pending
    ensures var t := Run(s, AskedAndSpent(q, who, s.next));
      && s.next in t.desk.approvals && t.desk.approvals[s.next].status == Consumed
      && t.desk.grants == s.desk.grants
  {
    hide Inv, Run;
    ReachableInv(s);
    var s1 := Apply(s, CreateApproval(q));
    AskedPending(s, q, s1);
    StepKeeps(s, CreateApproval(q), s1);
    var s2 := Apply(s1, DecideApproval(s.next, true, who));
    StepKeeps(s1, DecideApproval(s.next, true, who), s2);
    var s3 := Apply(s2, ClaimReceipt(s.next));
    StepKeeps(s2, ClaimReceipt(s.next), s3);
    var s4 := Apply(s3, RedeemReceipt(s.next + 1, q.digest));
    DecidedClaimed(s1, q, who, s.next, s2, s3);
    RedeemedOnce(s3, s.next, s.next + 1, q.digest, s4);
    RunFour(s, AskedAndSpent(q, who, s.next));
  }

  lemma AskedPending(s: State, q: Request, t: State)
    requires q.grant in s.desk.grants && s.desk.grants[q.grant].revoked && t == Apply(s, CreateApproval(q))
    ensures t.desk.approvals == s.desk.approvals[s.next := Asking(q, s.clock, s.epoch)]
    ensures t.desk.grants == s.desk.grants && t.next == s.next + 1 && t.clock == s.clock
  {
    assert forall w :: !Decidable(s.desk, w, q);
  }

  lemma DecidedClaimed(s: State, q: Request, who: nat, ref: nat, t: State, u: State)
    requires ref in s.desk.approvals && s.desk.approvals[ref] == Asking(q, s.clock, s.epoch) && s.next == ref + 1
    requires t == Apply(s, DecideApproval(ref, true, who)) && u == Apply(t, ClaimReceipt(ref))
    ensures Spendable(u.desk, ref, ref + 1, q.digest, u.clock) && u.desk.grants == s.desk.grants
  {
    assert t.desk.approvals[ref].status == Approved && t.next == s.next && t.clock == s.clock;
    assert Claimable(t.desk, ref, t.clock);
  }

  lemma RedeemedOnce(s: State, ref: nat, receipt: nat, digest: string, t: State)
    requires Inv(s) && Spendable(s.desk, ref, receipt, digest, s.clock) && t == Apply(s, RedeemReceipt(receipt, digest))
    ensures ref in t.desk.approvals && t.desk.approvals[ref].status == Consumed && t.desk.grants == s.desk.grants
  {
    assert ReceiptsInv(s.desk.approvals);
    hide Inv;
    assert forall r :: Spendable(s.desk, r, receipt, digest, s.clock) ==> r == ref;
    assert t.desk == Spend(s.desk, ref, s.clock);
  }

  lemma RunFour(s: State, steps: seq<Step>)
    requires |steps| == 4
    ensures Run(s, steps) == Apply(Apply(Apply(Apply(s, steps[0]), steps[1]), steps[2]), steps[3])
  {
    hide Apply;
    assert steps[..3][..2] == steps[..2] && steps[..2][..1] == steps[..1] && steps[..1][..0] == [];
    assert Run(s, steps[..1]) == Apply(s, steps[0]);
    assert Run(s, steps[..2]) == Apply(Run(s, steps[..1]), steps[1]);
    assert Run(s, steps[..3]) == Apply(Run(s, steps[..2]), steps[2]);
  }

  lemma OneRowSpent(d: Desk, r: nat, receipt: nat, digest: string, now: int, t: Desk)
    requires d.approvals.Keys == {r} && Spendable(d, r, receipt, digest, now) && t == Redeem(d, receipt, digest, now)
    ensures t == Spend(d, r, now)
  {
  }

  lemma RunSix(s: State, steps: seq<Step>)
    requires |steps| == 6
    ensures Run(s, steps) ==
      Apply(Apply(Apply(Apply(Apply(Apply(s, steps[0]), steps[1]), steps[2]), steps[3]), steps[4]), steps[5])
  {
    hide Apply;
    assert steps[..5][..4] == steps[..4] && steps[..4][..3] == steps[..3] && steps[..3][..2] == steps[..2];
    assert steps[..2][..1] == steps[..1] && steps[..1][..0] == [];
    assert Run(s, steps[..1]) == Apply(s, steps[0]);
    assert Run(s, steps[..2]) == Apply(Run(s, steps[..1]), steps[1]);
    assert Run(s, steps[..3]) == Apply(Run(s, steps[..2]), steps[2]);
    assert Run(s, steps[..4]) == Apply(Run(s, steps[..3]), steps[3]);
    assert Run(s, steps[..5]) == Apply(Run(s, steps[..4]), steps[4]);
  }

  // ---------------------------------------------------------------- the recovery epoch

  /** Everything live was minted under the current epoch. */
  lemma LiveMeansCurrentEpoch(s: State)
    requires Reachable(s)
    ensures forall r :: r in s.desk.approvals && !s.desk.approvals[r].revoked ==> s.desk.approvals[r].epoch == s.epoch
    ensures forall w :: w in s.desk.windows && !s.desk.windows[w].revoked ==> s.desk.windows[w].epoch == s.epoch
    ensures forall t :: t in s.keys.tokens && !s.keys.tokens[t].revoked ==> s.keys.tokens[t].epoch == s.epoch
    ensures forall d :: d in s.keys.devices ==> s.keys.devices[d].epoch == s.epoch
    ensures forall x :: x in s.keys.sessions ==> s.keys.sessions[x].epoch == s.epoch
  {
    ReachableInv(s);
    forall w | w in s.desk.windows ensures !s.desk.windows[w].revoked ==> s.desk.windows[w].epoch == s.epoch {
      assert WindowOk(s.desk.approvals, w, s.desk.windows[w], s.epoch);
    }
  }

  /** No secret is drawn twice; nothing else is asked of a database that was just restored. */
  ghost predicate Drawn(s: State) {
    && (forall r :: r in s.desk.approvals ==> r < s.next) && (forall w :: w in s.desk.windows ==> w < s.next)
    && (forall t :: t in s.keys.tokens ==> t < s.next) && (forall d :: d in s.keys.devices ==> d < s.next)
    && (forall x :: x in s.keys.sessions ==> x < s.next)
  }

  /** Approvals and windows of `s` as they were left at `t`, in every later `u`. */
  ghost predicate DeskDead(s: Desk, t: Desk, u: Desk) {
    && (forall r :: r in s.approvals ==>
          r in u.approvals && u.approvals[r].revoked && History(u.log, r) == History(t.log, r))
    && (forall w :: w in s.windows ==>
          w in u.windows && u.windows[w].revoked && u.windows[w].consumed == s.windows[w].consumed)
  }

  /** Tokens of `s` stay revoked; its devices and sessions are gone and minted nothing since. */
  ghost predicate KeysDead(s: Keyring, u: Keyring) {
    && (forall t :: t in s.tokens ==> t in u.tokens && u.tokens[t].revoked)
    && (forall d :: d in s.devices ==> d !in u.devices)
    && (forall x :: x in s.sessions ==> x !in u.sessions)
    && |s.minted| <= |u.minted| && (forall i :: |s.minted| <= i < |u.minted| ==> u.minted[i].0 !in s.devices)
  }

  ghost predicate Dead(s: State, t: State, u: State) {
    DeskDead(s.desk, t.desk, u.desk) && KeysDead(s.keys, u.keys) && s.next <= u.next && s.epoch < u.epoch
  }

  lemma AdvanceKills(s: State)
    requires Drawn(s)
    ensures Dead(s, Advance(s), Advance(s))
  {
    hide History;
    VoidFrame(s.desk, Unrevoked(s.desk.approvals), Void(s.desk, Unrevoked(s.desk.approvals)));
  }

  /** The approval is still revoked, and nothing new is said about it. */
  ghost predicate SilentOn(d: Desk, t: Desk, r: nat) {
    r in t.approvals && t.approvals[r].revoked && History(t.log, r) == History(d.log, r)
  }

  /** A step says nothing about an approval that is already revoked. */
  lemma RevokedStays(d: Desk, step: Step, s: State, t: State, r: nat)
    requires d == s.desk && t == Apply(s, step) && r in d.approvals && d.approvals[r].revoked && r != s.next
    ensures SilentOn(d, t.desk, r)
  {
    hide History, Void;
    if AtDesk(step) {
      RevokedStaysAtDesk(d, step, s, t, r);
    } else if step.AdvanceEpoch? {
      VoidSilent(d, Unrevoked(d.approvals), r);
    } else {
      KeysLeaveDesk(s, step, t);
    }
  }

  lemma RevokedStaysAtDesk(d: Desk, step: Step, s: State, t: State, r: nat)
    requires AtDesk(step) && d == s.desk && t == Apply(s, step)
    requires r in d.approvals && d.approvals[r].revoked && r != s.next
    ensures SilentOn(d, t.desk, r)
  {
    hide History, Create, Redeem, Decide, Claim, OpenWindow, RevokeWindow, DisableClient, RevokeGrantApprovals, SilentOn;
    match step
    case CreateApproval(q) => CreateSilent(d, s.next, q, s.clock, s.epoch, t.desk, r);
    case DecideApproval(q, yes, who) => DecideSilent(d, q, yes, who, s.clock, r);
    case ClaimReceipt(q) => ClaimSilent(d, q, s.next, s.clock, r);
    case RedeemReceipt(rc, digest) => RedeemSilent(d, rc, digest, s.clock, t.desk, r);
    case Open(c, i, who, at) => OpenSilent(d, s.next, c, i, who, at, s.clock, s.epoch, r);
    case TurnOff(w) => TurnOffSilent(d, w, r);
    case AddClient(_) => UntouchedSilent(d, t.desk, r);
    case Disable(c) => DisableSilent(d, c, r);
    case AddGrant(_, _) => UntouchedSilent(d, t.desk, r);
    case WithdrawGrant(_) => UntouchedSilent(d, t.desk, r);
    case WithdrawApprovals(g) => GrantApprovalsSilent(d, g, r);
  }

  lemma DecideSilent(d: Desk, q: nat, yes: bool, who: nat, now: int, r: nat)
    requires r in d.approvals && d.approvals[r].revoked
    ensures SilentOn(d, Decide(d, q, yes, who, now), r)
  {
    AppendSilent(d.log, q, Decided(yes, now, None), r);
  }

  lemma ClaimSilent(d: Desk, q: nat, receipt: nat, now: int, r: nat)
    requires r in d.approvals && d.approvals[r].revoked
    ensures SilentOn(d, Claim(d, q, receipt, now), r)
  {
    AppendSilent(d.log, q, Claimed(receipt), r);
  }

  lemma OpenSilent(d: Desk, id: nat, client: nat, instance: nat, who: nat, at: int, now: int, epoch: nat, r: nat)
    requires r in d.approvals && d.approvals[r].revoked
    ensures SilentOn(d, OpenWindow(d, id, client, instance, who, at, now, epoch), r)
  {
  }

  lemma UntouchedSilent(d: Desk, t: Desk, r: nat)
    requires r in d.approvals && d.approvals[r].revoked && t.approvals == d.approvals && t.log == d.log
    ensures SilentOn(d, t, r)
  {
  }

  lemma GrantApprovalsSilent(d: Desk, grant: nat, r: nat)
    requires r in d.approvals && d.approvals[r].revoked
    ensures SilentOn(d, RevokeGrantApprovals(d, grant), r)
  {
    VoidSilent(d, GrantUnspent(d.approvals, grant), r);
  }

  lemma TurnOffSilent(d: Desk, w: nat, r: nat)
    requires r in d.approvals && d.approvals[r].revoked
    ensures SilentOn(d, RevokeWindow(d, w), r)
  {
    hide Void, Close;
    VoidSilent(d, DecidedUnspent(d.approvals, w), r);
  }

  lemma DisableSilent(d: Desk, client: nat, r: nat)
    requires r in d.approvals && d.approvals[r].revoked
    ensures SilentOn(d, DisableClient(d, client), r)
  {
    hide Void, Close;
    VoidSilent(d, ClientUnspent(d.approvals, client), r);
  }

  lemma AppendSilent(log: seq<Entry>, q: nat, event: Event, r: nat)
    ensures q != r ==> History(log + [One(q, event)], r) == History(log, r)
  {
    HistoryAppend(log, One(q, event), r);
  }

  lemma VoidSilent(d: Desk, refs: set<nat>, r: nat)
    requires r in d.approvals && d.approvals[r].revoked && r !in refs
    ensures SilentOn(d, Void(d, refs), r)
  {
    HistoryAppend(d.log, Swept(refs), r);
  }

  lemma CreateSilent(d: Desk, ref: nat, q: Request, now: int, epoch: nat, t: Desk, r: nat)
    requires t == Create(d, ref, q, now, epoch) && r in d.approvals && d.approvals[r].revoked && r != ref
    ensures SilentOn(d, t, r)
  {
    if exists w :: Decidable(d, w, q) {
      var w :| Decidable(d, w, q) && t == CreateDecided(d, ref, q, w, now, epoch);
      CreateDecidedSilent(d, ref, q, w, now, epoch, t, r);
    } else {
      AppendSilent(d.log, ref, Asked(q.digest), r);
    }
  }

  lemma CreateDecidedSilent(d: Desk, ref: nat, q: Request, w: nat, now: int, epoch: nat, t: Desk, r: nat)
    requires w in d.windows && t == CreateDecided(d, ref, q, w, now, epoch) && r in d.approvals && r != ref
    ensures r in t.approvals && t.approvals[r] == d.approvals[r] && History(t.log, r) == History(d.log, r)
  {
    assert t.log == d.log + [One(ref, Asked(q.digest)), One(ref, Decided(true, now, Some(w)))];
    AppendTwoSilent(d.log, ref, Asked(q.digest), Decided(true, now, Some(w)), r);
  }

  lemma AppendTwoSilent(log: seq<Entry>, q: nat, first: Event, second: Event, r: nat)
    requires q != r
    ensures History(log + [One(q, first), One(q, second)], r) == History(log, r)
  {
    AppendSilent(log, q, first, r);
    AppendSilent(log + [One(q, first)], q, second, r);
    assert log + [One(q, first), One(q, second)] == log + [One(q, first)] + [One(q, second)];
  }

  lemma RedeemSilent(d: Desk, receipt: nat, digest: string, now: int, t: Desk, r: nat)
    requires t == Redeem(d, receipt, digest, now) && r in d.approvals && d.approvals[r].revoked
    ensures SilentOn(d, t, r)
  {
    if exists ref :: Spendable(d, ref, receipt, digest, now) {
      var ref :| Spendable(d, ref, receipt, digest, now) && t == Spend(d, ref, now);
      AppendSilent(d.log, ref, Redeemed(d.approvals[ref].request.digest, now), r);
    }
  }

  /** A step leaves a revoked window as it is. */
  lemma RevokedWindowStays(s: State, step: Step, t: State, w: nat)
    requires t == Apply(s, step) && w in s.desk.windows && s.desk.windows[w].revoked && w != s.next
    ensures w in t.desk.windows && t.desk.windows[w] == s.desk.windows[w]
  {
    hide Create, Redeem, Void;
    var d := s.desk;
    match step
    case CreateApproval(q) =>
      CreateSparesRevoked(d, s.next, q, s.clock, s.epoch, t.desk, w);
    case RedeemReceipt(rc, digest) => RedeemSparesWindows(d, rc, digest, s.clock, t.desk);
    case TurnOff(v) => VoidFrame(d, DecidedUnspent(d.approvals, v), Void(d, DecidedUnspent(d.approvals, v)));
    case Disable(c) => VoidFrame(d, ClientUnspent(d.approvals, c), Void(d, ClientUnspent(d.approvals, c)));
    case WithdrawApprovals(g) => VoidFrame(d, GrantUnspent(d.approvals, g), Void(d, GrantUnspent(d.approvals, g)));
    case AdvanceEpoch => VoidFrame(d, Unrevoked(d.approvals), Void(d, Unrevoked(d.approvals)));
    case _ =>
  }

  lemma CreateSparesRevoked(d: Desk, ref: nat, q: Request, now: int, epoch: nat, t: Desk, w: nat)
    requires t == Create(d, ref, q, now, epoch) && w in d.windows && d.windows[w].revoked
    ensures w in t.windows && t.windows[w] == d.windows[w]
  {
    if exists v :: Decidable(d, v, q) {
      var v :| Decidable(d, v, q) && t == CreateDecided(d, ref, q, v, now, epoch);
    }
  }

  lemma RedeemSparesWindows(d: Desk, receipt: nat, digest: string, now: int, t: Desk)
    requires t == Redeem(d, receipt, digest, now)
    ensures t.windows == d.windows
  {
    if exists ref :: Spendable(d, ref, receipt, digest, now) {
      var ref :| Spendable(d, ref, receipt, digest, now) && t == Spend(d, ref, now);
    }
  }

  lemma KeysStayDead(s: Keyring, u: State, step: Step, v: State)
    requires KeysDead(s, u.keys) && v == Apply(u, step)
    requires forall t :: t in s.tokens ==> t < u.next
    requires forall d :: d in s.devices ==> d < u.next
    requires forall x :: x in s.sessions ==> x < u.next
    ensures KeysDead(s, v.keys)
  {
    hide Create, Redeem, Decide, Claim, OpenWindow, RevokeWindow, DisableClient, RevokeGrantApprovals, SweepDesk,
      StartDevice, PollMint;
    match step
    case Start(code, remote) => StartStaysDead(s, u.keys, u.next, code, remote, u.clock, u.epoch);
    case MintPoll(d, began) => MintStaysDead(s, u.keys, d, u.next, began, u.epoch);
    case _ =>
  }

  lemma StartStaysDead(s: Keyring, k: Keyring, id: nat, code: nat, remote: nat, now: int, epoch: nat)
    requires KeysDead(s, k) && id !in s.devices
    ensures KeysDead(s, StartDevice(k, id, code, remote, now, epoch))
  {
    hide CountPending;
  }

  lemma MintStaysDead(s: Keyring, k: Keyring, d: nat, token: nat, began: int, epoch: nat)
    requires KeysDead(s, k) && token !in s.tokens
    ensures KeysDead(s, PollMint(k, d, token, began, epoch))
  {
  }

  lemma StepStaysDead(s: State, t: State, u: State, step: Step, v: State)
    requires Drawn(s) && Dead(s, t, u) && v == Apply(u, step)
    ensures Dead(s, t, v)
  {
    hide History, Apply, KeysDead;
    NextGrows(u, step, v);
    forall r | r in s.desk.approvals
      ensures r in v.desk.approvals && v.desk.approvals[r].revoked
      ensures History(v.desk.log, r) == History(t.desk.log, r)
    {
      RevokedStays(u.desk, step, u, v, r);
    }
    forall w | w in s.desk.windows
      ensures w in v.desk.windows && v.desk.windows[w].revoked && v.desk.windows[w].consumed == s.desk.windows[w].consumed
    {
      RevokedWindowStays(u, step, v, w);
    }
    KeysStayDead(s.keys, u, step, v);
  }

  lemma NextGrows(u: State, step: Step, v: State)
    requires v == Apply(u, step)
    ensures u.next <= v.next && u.epoch <= v.epoch
  {
    hide Create, Redeem;
  }

  lemma {:induction false} RunStaysDead(s: State, steps: seq<Step>)
    requires Drawn(s)
    ensures Dead(s, Advance(s), Run(Advance(s), steps))
    decreases |steps|
  {
    hide Apply, Dead, Drawn, Advance;
    AdvanceKills(s);
    if steps != [] {
      RunStaysDead(s, steps[..|steps| - 1]);
      StepStaysDead(s, Advance(s), Run(Advance(s), steps[..|steps| - 1]), steps[|steps| - 1], Run(Advance(s), steps));
    }
  }

  /** After the epoch advances, whatever the database held before, no later run lets any of it act:
      nothing is decided, claimed or redeemed on its approvals, its windows decide nothing, its
      tokens and sessions do not authenticate, and its device authorizations mint nothing, not even
      through a poll that had read `approved`. The epoch is strictly larger. */
  lemma NothingSurvivesTheEpoch(s: State, steps: seq<Step>)
    requires Drawn(s)
    ensures (var u := Run(Advance(s), steps);
      && s.epoch < u.epoch
      && (forall r :: r in s.desk.approvals ==> History(u.desk.log, r) == History(Advance(s).desk.log, r))
      && (forall w, q :: w in s.desk.windows ==> !Decidable(u.desk, w, q))
      && (forall t :: t in s.keys.tokens ==> !TokenAuthenticates(u.keys, t, u.clock))
      && (forall x :: x in s.keys.sessions ==> x !in u.keys.sessions)
      && (forall d, began :: d in s.keys.devices ==> !MayMint(u.keys, d, began))
      && (forall i :: |s.keys.minted| <= i < |u.keys.minted| ==> u.keys.minted[i].0 !in s.keys.devices))
  {
    hide History, Run, Advance;
    RunStaysDead(s, steps);
  }

  /** One device authorization mints at most one token, whatever polls race. */
  lemma DeviceMintsOnce(s: State, i: nat, j: nat)
    requires Reachable(s) && i < |s.keys.minted| && j < |s.keys.minted| && s.keys.minted[i].0 == s.keys.minted[j].0
    ensures i == j
  {
    ReachableInv(s);
  }
}
