/** What every interleaving keeps: the history of an approval is exactly what its row says, the
    row CHECKs hold, windows count their decisions, and live authority carries the current epoch. */
module ApprovalInvariants {
  import opened ApprovalModel
  import opened Wrappers

  // ---------------------------------------------------------------- the desk

  /** The row CHECKs of the approvals table, and the times they are about. */
  predicate RowOk(row: Approval, clock: int) {
    && (row.status == Pending <==> row.decidedAt.None?)
    && (row.status == Consumed <==> row.consumedAt.Some?)
    && (row.receipt.Some? ==> row.status == Approved || row.status == Consumed)
    && (row.status == Consumed ==> row.receipt.Some?)
    && (row.decidedBy.Some? <==> row.decidedAt.Some?)
    && row.createdAt <= clock && row.expiresAt == row.createdAt + APPROVAL_LIFETIME
    && (row.decidedAt.Some? ==> row.createdAt <= row.decidedAt.value <= clock && row.decidedAt.value < row.expiresAt)
    && (row.consumedAt.Some? ==>
          row.decidedAt.value <= row.consumedAt.value <= clock
          && row.consumedAt.value < row.decidedAt.value + RECEIPT_LIFETIME)
    && (row.window.Some? ==>
          (row.status == Approved || row.status == Consumed) && row.request.operation != PROPOSALS_APPLY)
  }

  ghost predicate RowsInv(approvals: map<nat, Approval>, epoch: nat, clock: int, next: nat) {
    && (forall r :: r in approvals ==> r < next && RowOk(approvals[r], clock))
    && (forall r :: r in approvals ==> !approvals[r].revoked ==> approvals[r].epoch == epoch)
    && (forall r :: r in approvals ==> approvals[r].receipt.Some? ==> approvals[r].receipt.value < next)
  }

  /** The unique index on receipts. */
  ghost predicate ReceiptsInv(approvals: map<nat, Approval>) {
    forall r, q :: (r in approvals && q in approvals && approvals[r].receipt.Some?
                    && approvals[r].receipt == approvals[q].receipt) ==> r == q
  }

  ghost predicate StoryInv(approvals: map<nat, Approval>, log: seq<Entry>) {
    && (forall r :: r in approvals ==> History(log, r) == Story(approvals[r]))
    && (forall r: nat :: r !in approvals ==> History(log, r) == [])
  }

  function DecidedBy(approvals: map<nat, Approval>, w: nat): set<nat> {
    set r | r in approvals && approvals[r].window == Some(w)
  }

  /** A window counts its decisions, each for its own client and instance; once it is off none of
      them is left unspent. */
  ghost predicate WindowOk(approvals: map<nat, Approval>, w: nat, row: Window, epoch: nat) {
    && row.consumed == |DecidedBy(approvals, w)|
    && (!row.revoked ==> row.epoch == epoch)
    && (forall r :: r in approvals && approvals[r].window == Some(w) ==>
          && approvals[r].request.client == row.client && approvals[r].request.instance == row.instance
          && (row.revoked ==> !Unspent(approvals[r])))
  }

  ghost predicate WindowsInv(approvals: map<nat, Approval>, windows: map<nat, Window>, epoch: nat, next: nat) {
    && (forall w :: w in windows ==> w < next && WindowOk(approvals, w, windows[w], epoch))
    && (forall r :: r in approvals && approvals[r].window.Some? ==> approvals[r].window.value in windows)
  }

  /** The unique index on live client windows. */
  ghost predicate OneLive(windows: map<nat, Window>) {
    forall v, w :: (v in windows && w in windows && LiveFor(windows[v], windows[w].client, windows[w].instance)
                    && !windows[w].revoked) ==> v == w
  }

  ghost predicate DeskInv(d: Desk, epoch: nat, clock: int, next: nat) {
    && RowsInv(d.approvals, epoch, clock, next) && ReceiptsInv(d.approvals)
    && StoryInv(d.approvals, d.log)
    && WindowsInv(d.approvals, d.windows, epoch, next) && OneLive(d.windows)
    && (forall g :: g in d.grants ==> g < next) && (forall c :: c in d.clients ==> c < next)
  }

  // ---------------------------------------------------------------- histories

  lemma HistoryAppend(log: seq<Entry>, e: Entry, ref: nat)
    ensures History(log + [e], ref) == History(log, ref) + Concerning(e, ref)
  {
    assert (log + [e])[..|log|] == log;
  }

  lemma HistoryAppendOne(log: seq<Entry>, ref: nat, event: Event)
    ensures History(log + [One(ref, event)], ref) == History(log, ref) + [event]
    ensures forall r: nat :: r != ref ==> History(log + [One(ref, event)], r) == History(log, r)
  {
    forall r: nat ensures History(log + [One(ref, event)], r) == History(log, r) + Concerning(One(ref, event), r) {
      HistoryAppend(log, One(ref, event), r);
    }
  }

  lemma HistoryAppendSwept(log: seq<Entry>, refs: set<nat>)
    ensures forall r: nat :: History(log + [Swept(refs)], r) == History(log, r) + (if r in refs then [Voided] else [])
  {
    forall r: nat ensures History(log + [Swept(refs)], r) == History(log, r) + (if r in refs then [Voided] else []) {
      HistoryAppend(log, Swept(refs), r);
    }
  }

  /** One row changed so that its story gained one event, and the log says so. */
  lemma StoryStep(approvals: map<nat, Approval>, log: seq<Entry>, ref: nat, row: Approval, event: Event)
    requires StoryInv(approvals, log)
    requires Story(row) == (if ref in approvals then Story(approvals[ref]) else []) + [event]
    ensures StoryInv(approvals[ref := row], log + [One(ref, event)])
  {
    hide Story, History;
    HistoryAppendOne(log, ref, event);
    var before := if ref in approvals then Story(approvals[ref]) else [];
    assert History(log, ref) == before;
  }

  /** Every row in a set was revoked, and the log says so. */
  lemma StoryVoid(approvals: map<nat, Approval>, log: seq<Entry>, refs: set<nat>, after: map<nat, Approval>)
    requires StoryInv(approvals, log)
    requires forall r :: r in refs ==> r in approvals && !approvals[r].revoked
    requires after == map r | r in approvals :: if r in refs then approvals[r].(revoked := true) else approvals[r]
    ensures StoryInv(after, log + [Swept(refs)])
  {
    hide Story, History;
    HistoryAppendSwept(log, refs);
    forall r | r in refs ensures Story(after[r]) == Story(approvals[r]) + [Voided] {
      StoryRevoked(approvals[r]);
    }
  }

  lemma StoryRevoked(row: Approval)
    requires !row.revoked
    ensures Story(row.(revoked := true)) == Story(row) + [Voided]
  {
  }

  // ---------------------------------------------------------------- steps of the desk

  /** A row that keeps its window and request leaves the windows' counts alone. */
  lemma CountsKept(before: map<nat, Approval>, after: map<nat, Approval>, w: nat)
    requires before.Keys == after.Keys
    requires forall r :: r in before ==> before[r].window == after[r].window
    ensures DecidedBy(before, w) == DecidedBy(after, w)
  {
  }

  lemma WindowsKept(before: map<nat, Approval>, after: map<nat, Approval>, windows: map<nat, Window>, epoch: nat,
                    next: nat)
    requires WindowsInv(before, windows, epoch, next)
    requires before.Keys == after.Keys
    requires forall r :: r in before ==>
      before[r].window == after[r].window && before[r].request == after[r].request
      && (Unspent(after[r]) ==> Unspent(before[r]))
    ensures WindowsInv(after, windows, epoch, next)
  {
    hide DecidedBy;
    forall w | w in windows ensures WindowOk(after, w, windows[w], epoch) {
      assert WindowOk(before, w, windows[w], epoch);
      CountsKept(before, after, w);
    }
  }

  /** One row moves on by one event; its request, window and epoch stay. */
  lemma RowStepKeeps(d: Desk, ref: nat, row: Approval, event: Event, now: int, epoch: nat, next: nat, t: Desk)
    requires DeskInv(d, epoch, now, next) && ref in d.approvals && RowOk(row, now)
    requires Story(row) == Story(d.approvals[ref]) + [event]
    requires row.request == d.approvals[ref].request && row.window == d.approvals[ref].window
    requires row.epoch == d.approvals[ref].epoch && row.revoked == d.approvals[ref].revoked
    requires Unspent(row) ==> Unspent(d.approvals[ref])
    requires row.receipt == d.approvals[ref].receipt || row.receipt == Some(next)
    requires t == d.(approvals := d.approvals[ref := row], log := d.log + [One(ref, event)])
    ensures DeskInv(t, epoch, now, next + 1)
    ensures row.receipt == d.approvals[ref].receipt ==> DeskInv(t, epoch, now, next)
  {
    hide StoryInv, Story, RowsInv, ReceiptsInv, RowOk, WindowsInv, OneLive;
    StoryStep(d.approvals, d.log, ref, row, event);
    RowReplaced(d.approvals, ref, row, epoch, now, next);
    WindowsKept(d.approvals, t.approvals, d.windows, epoch, next);
    WindowsLater(t.approvals, t.windows, epoch, next);
  }

  lemma RowReplaced(approvals: map<nat, Approval>, ref: nat, row: Approval, epoch: nat, now: int, next: nat)
    requires RowsInv(approvals, epoch, now, next) && ReceiptsInv(approvals)
    requires ref in approvals && RowOk(row, now)
    requires row.epoch == approvals[ref].epoch && row.revoked == approvals[ref].revoked
    requires row.receipt == approvals[ref].receipt || row.receipt == Some(next)
    ensures RowsInv(approvals[ref := row], epoch, now, next + 1) && ReceiptsInv(approvals[ref := row])
    ensures row.receipt == approvals[ref].receipt ==> RowsInv(approvals[ref := row], epoch, now, next)
  {
    hide RowOk;
  }

  lemma RowAdded(approvals: map<nat, Approval>, row: Approval, epoch: nat, now: int, next: nat)
    requires RowsInv(approvals, epoch, now, next) && ReceiptsInv(approvals)
    requires RowOk(row, now) && row.epoch == epoch && row.receipt.None?
    ensures RowsInv(approvals[next := row], epoch, now, next + 1) && ReceiptsInv(approvals[next := row])
  {
    hide RowOk;
  }

  lemma WindowsPending(approvals: map<nat, Approval>, windows: map<nat, Window>, row: Approval, epoch: nat, next: nat)
    requires WindowsInv(approvals, windows, epoch, next) && next !in approvals && row.window.None?
    ensures WindowsInv(approvals[next := row], windows, epoch, next + 1)
  {
    var after := approvals[next := row];
    forall w | w in windows ensures WindowOk(after, w, windows[w], epoch) {
      assert WindowOk(approvals, w, windows[w], epoch);
      assert DecidedBy(after, w) == DecidedBy(approvals, w);
    }
  }

  lemma WindowsDecided(approvals: map<nat, Approval>, windows: map<nat, Window>, row: Approval, w: nat, epoch: nat,
                       next: nat, after: map<nat, Window>)
    requires WindowsInv(approvals, windows, epoch, next) && next !in approvals
    requires row.window == Some(w) && w in windows && !windows[w].revoked
    requires row.request.client == windows[w].client && row.request.instance == windows[w].instance
    requires after == windows[w := windows[w].(consumed := windows[w].consumed + 1)]
    ensures WindowsInv(approvals[next := row], after, epoch, next + 1)
  {
    var rows := approvals[next := row];
    forall v | v in after ensures WindowOk(rows, v, after[v], epoch) {
      assert WindowOk(approvals, v, windows[v], epoch);
      DecidedGrows(approvals, next, row, w, v);
      hide DecidedBy;
    }
  }

  lemma DecidedGrows(approvals: map<nat, Approval>, ref: nat, row: Approval, w: nat, v: nat)
    requires ref !in approvals && row.window == Some(w)
    ensures |DecidedBy(approvals[ref := row], v)| == |DecidedBy(approvals, v)| + (if v == w then 1 else 0)
  {
    var before, after := DecidedBy(approvals, v), DecidedBy(approvals[ref := row], v);
    if v == w {
      assert after == before + {ref};
    } else {
      assert after == before;
    }
  }

  lemma DecideKeeps(d: Desk, ref: nat, yes: bool, who: nat, now: int, epoch: nat, next: nat, t: Desk)
    requires DeskInv(d, epoch, now, next) && t == Decide(d, ref, yes, who, now)
    ensures DeskInv(t, epoch, now, next)
  {
    if t != d {
      var row := t.approvals[ref];
      DeskRowOk(d, ref, epoch, now, next);
      hide DeskInv;
      assert Story(row) == Story(d.approvals[ref]) + [Decided(yes, now, None)];
      RowStepKeeps(d, ref, row, Decided(yes, now, None), now, epoch, next, t);
    }
  }

  lemma DeskRowOk(d: Desk, ref: nat, epoch: nat, now: int, next: nat)
    requires DeskInv(d, epoch, now, next) && ref in d.approvals
    ensures RowOk(d.approvals[ref], now)
  {
  }

  lemma ClaimKeeps(d: Desk, ref: nat, receipt: nat, now: int, epoch: nat, next: nat, t: Desk)
    requires DeskInv(d, epoch, now, next) && t == Claim(d, ref, receipt, now) && receipt == next
    ensures DeskInv(t, epoch, now, next + 1)
  {
    if Claimable(d, ref, now) {
      var row := t.approvals[ref];
      DeskRowOk(d, ref, epoch, now, next);
      hide DeskInv;
      assert Story(row) == Story(d.approvals[ref]) + [Claimed(receipt)];
      RowStepKeeps(d, ref, row, Claimed(receipt), now, epoch, next, t);
    } else {
      DeskLater(d, epoch, now, next, now, next + 1);
    }
  }

  lemma WindowsLater(approvals: map<nat, Approval>, windows: map<nat, Window>, epoch: nat, next: nat)
    requires WindowsInv(approvals, windows, epoch, next)
    ensures WindowsInv(approvals, windows, epoch, next + 1)
  {
  }

  lemma SpendKeeps(d: Desk, ref: nat, receipt: nat, digest: string, now: int, epoch: nat, next: nat, t: Desk)
    requires DeskInv(d, epoch, now, next) && Spendable(d, ref, receipt, digest, now) && t == Spend(d, ref, now)
    ensures DeskInv(t, epoch, now, next)
  {
    var row := t.approvals[ref];
    DeskRowOk(d, ref, epoch, now, next);
    hide DeskInv;
    assert Story(row) == Story(d.approvals[ref]) + [Redeemed(digest, now)];
    RowStepKeeps(d, ref, row, Redeemed(digest, now), now, epoch, next, t);
  }

  lemma RedeemKeeps(d: Desk, receipt: nat, digest: string, now: int, epoch: nat, next: nat, t: Desk)
    requires DeskInv(d, epoch, now, next) && t == Redeem(d, receipt, digest, now)
    ensures DeskInv(t, epoch, now, next)
  {
    hide DeskInv;
    if exists ref :: Spendable(d, ref, receipt, digest, now) {
      var ref :| Spendable(d, ref, receipt, digest, now) && t == Spend(d, ref, now);
      SpendKeeps(d, ref, receipt, digest, now, epoch, next, t);
    }
  }

  lemma RowsVoided(before: map<nat, Approval>, after: map<nat, Approval>, epoch: nat, now: int, next: nat)
    requires RowsInv(before, epoch, now, next) && ReceiptsInv(before) && before.Keys == after.Keys
    requires forall r :: r in before ==> after[r] == before[r] || after[r] == before[r].(revoked := true)
    ensures RowsInv(after, epoch, now, next) && ReceiptsInv(after)
    ensures (forall r :: r in after ==> after[r].revoked) ==> RowsInv(after, epoch + 1, now, next)
  {
    forall r | r in after ensures RowOk(after[r], now) {
      assert RowOk(before[r], now);
    }
    hide RowOk;
  }

  lemma VoidKeeps(d: Desk, refs: set<nat>, now: int, epoch: nat, next: nat, t: Desk)
    requires DeskInv(d, epoch, now, next) && t == Void(d, refs)
    requires forall r :: r in refs ==> r in d.approvals && !d.approvals[r].revoked
    ensures DeskInv(t, epoch, now, next)
  {
    hide WindowsInv, StoryInv, RowsInv, ReceiptsInv, OneLive;
    StoryVoid(d.approvals, d.log, refs, t.approvals);
    VoidFrame(d, refs, t);
    RowsVoided(d.approvals, t.approvals, epoch, now, next);
    WindowsKept(d.approvals, t.approvals, d.windows, epoch, next);
  }

  /** Closing windows keeps the desk, provided nothing unspent is left behind any of them. */
  lemma CloseKeeps(d: Desk, closed: set<nat>, now: int, epoch: nat, next: nat, t: Desk)
    requires DeskInv(d, epoch, now, next)
    requires t == d.(windows := Close(d.windows, closed), clients := t.clients, grants := t.grants)
    requires t.clients.Keys == d.clients.Keys && t.grants.Keys == d.grants.Keys
    requires forall r :: (r in d.approvals && d.approvals[r].window.Some? && d.approvals[r].window.value in closed
                          ==> !Unspent(d.approvals[r]))
    ensures DeskInv(t, epoch, now, next)
  {
    hide RowsInv, ReceiptsInv, StoryInv, DecidedBy;
    forall w | w in t.windows ensures WindowOk(t.approvals, w, t.windows[w], epoch) {
      assert WindowOk(d.approvals, w, d.windows[w], epoch);
    }
  }

  lemma VoidFrame(d: Desk, refs: set<nat>, t: Desk)
    requires t == Void(d, refs)
    ensures t.windows == d.windows && t.clients == d.clients && t.grants == d.grants
    ensures t.approvals.Keys == d.approvals.Keys
    ensures forall r :: r in d.approvals ==>
      t.approvals[r] == if r in refs then d.approvals[r].(revoked := true) else d.approvals[r]
    ensures forall r :: r in d.approvals && r in refs ==> !Unspent(t.approvals[r])
  {
  }

  lemma RevokeWindowKeeps(d: Desk, w: nat, now: int, epoch: nat, next: nat, t: Desk)
    requires DeskInv(d, epoch, now, next) && t == RevokeWindow(d, w)
    ensures DeskInv(t, epoch, now, next)
  {
    hide DeskInv, Void, Close;
    if w in d.windows && !d.windows[w].revoked {
      var refs := DecidedUnspent(d.approvals, w);
      var u := Void(d, refs);
      VoidKeeps(d, refs, now, epoch, next, u);
      VoidFrame(d, refs, u);
      CloseKeeps(u, {w}, now, epoch, next, t);
    }
  }

  /** The approvals that a client's windows decided name that client. */
  lemma WindowNamesClient(d: Desk, r: nat, epoch: nat, now: int, next: nat)
    requires DeskInv(d, epoch, now, next) && r in d.approvals && d.approvals[r].window.Some?
    ensures d.approvals[r].window.value in d.windows
    ensures d.approvals[r].request.client == d.windows[d.approvals[r].window.value].client
  {
    var w := d.approvals[r].window.value;
    assert WindowOk(d.approvals, w, d.windows[w], epoch);
  }

  lemma DisableClientKeeps(d: Desk, client: nat, now: int, epoch: nat, next: nat, t: Desk)
    requires DeskInv(d, epoch, now, next) && t == DisableClient(d, client)
    ensures DeskInv(t, epoch, now, next)
  {
    hide DeskInv, Void, Close;
    if AgentEnabled(d, client) {
      var refs, closed := ClientUnspent(d.approvals, client), ClientWindows(d.windows, client);
      var u := Void(d, refs);
      VoidKeeps(d, refs, now, epoch, next, u);
      VoidFrame(d, refs, u);
      forall r | r in u.approvals && u.approvals[r].window.Some? && u.approvals[r].window.value in closed
        ensures !Unspent(u.approvals[r])
      {
        WindowNamesClient(d, r, epoch, now, next);
      }
      CloseKeeps(u, closed, now, epoch, next, t);
    }
  }

  lemma RevokeGrantApprovalsKeeps(d: Desk, grant: nat, now: int, epoch: nat, next: nat, t: Desk)
    requires DeskInv(d, epoch, now, next) && t == RevokeGrantApprovals(d, grant)
    ensures DeskInv(t, epoch, now, next)
  {
    hide DeskInv, Void;
    VoidKeeps(d, GrantUnspent(d.approvals, grant), now, epoch, next, t);
  }

  lemma OpenWindowKeeps(d: Desk, client: nat, instance: nat, who: nat, at: int, now: int, epoch: nat, next: nat,
                        t: Desk)
    requires DeskInv(d, epoch, now, next) && t == OpenWindow(d, next, client, instance, who, at, now, epoch)
    ensures DeskInv(t, epoch, now, next + 1)
  {
    hide StoryInv;
    if t != d {
      assert next !in d.windows;
      assert DecidedBy(d.approvals, next) == {};
      forall w | w in t.windows ensures WindowOk(t.approvals, w, t.windows[w], epoch) {
        assert w != next ==> WindowOk(d.approvals, w, d.windows[w], epoch);
      }
      forall v | v in d.windows && !d.windows[v].revoked
        ensures !(d.windows[v].client == client && d.windows[v].instance == instance)
      {
        assert !LiveFor(d.windows[v], client, instance);
      }
    }
  }

  lemma CreatePendingKeeps(d: Desk, q: Request, now: int, epoch: nat, next: nat, t: Desk)
    requires DeskInv(d, epoch, now, next)
    requires t == d.(approvals := d.approvals[next := Asking(q, now, epoch)], log := d.log + [One(next, Asked(q.digest))])
    ensures DeskInv(t, epoch, now, next + 1)
  {
    hide History;
    assert next !in d.approvals;
    var row := Asking(q, now, epoch);
    assert Story(row) == [] + [Asked(q.digest)];
    StoryStep(d.approvals, d.log, next, row, Asked(q.digest));
    hide StoryInv, Story;
    RowAdded(d.approvals, row, epoch, now, next);
    hide RowsInv, ReceiptsInv;
    WindowsPending(d.approvals, d.windows, row, epoch, next);
    hide WindowsInv;
  }

  lemma CreateDecidedKeeps(d: Desk, q: Request, w: nat, now: int, epoch: nat, next: nat, t: Desk)
    requires DeskInv(d, epoch, now, next) && Decidable(d, w, q) && t == CreateDecided(d, next, q, w, now, epoch)
    ensures DeskInv(t, epoch, now, next + 1)
  {
    assert next !in d.approvals;
    var row := t.approvals[next];
    assert t.approvals == d.approvals[next := row];
    hide StoryInv, Story, History;
    DecidedStory(d, q, row, w, now, epoch, next, t.log);
    RowAdded(d.approvals, row, epoch, now, next);
    hide RowsInv, ReceiptsInv;
    WindowsDecided(d.approvals, d.windows, row, w, epoch, next, t.windows);
    hide WindowsInv;
  }

  lemma DecidedStory(d: Desk, q: Request, row: Approval, w: nat, now: int, epoch: nat, next: nat, log: seq<Entry>)
    requires StoryInv(d.approvals, d.log) && next !in d.approvals
    requires row.request == q && row.decidedAt == Some(now) && row.status == Approved && row.window == Some(w)
    requires row.receipt.None? && row.consumedAt.None? && !row.revoked
    requires log == d.log + [One(next, Asked(q.digest)), One(next, Decided(true, now, Some(w)))]
    ensures StoryInv(d.approvals[next := row], log)
  {
    hide History;
    var asking := row.(decidedAt := None, status := Pending);
    StoryStep(d.approvals, d.log, next, asking, Asked(q.digest));
    var asked := d.log + [One(next, Asked(q.digest))];
    StoryStep(d.approvals[next := asking], asked, next, row, Decided(true, now, Some(w)));
    assert log == asked + [One(next, Decided(true, now, Some(w)))];
    assert d.approvals[next := asking][next := row] == d.approvals[next := row];
  }

  lemma CreateKeeps(d: Desk, q: Request, now: int, epoch: nat, next: nat, t: Desk)
    requires DeskInv(d, epoch, now, next) && t == Create(d, next, q, now, epoch)
    ensures DeskInv(t, epoch, now, next + 1)
  {
    hide DeskInv;
    if exists w :: Decidable(d, w, q) {
      var w :| Decidable(d, w, q) && t == CreateDecided(d, next, q, w, now, epoch);
      CreateDecidedKeeps(d, q, w, now, epoch, next, t);
    } else {
      CreatePendingKeeps(d, q, now, epoch, next, t);
    }
  }

  /** The epoch's sweep leaves no live row behind, so the desk is sound at the next epoch too. */
  lemma SweepDeskKeeps(d: Desk, now: int, epoch: nat, next: nat, t: Desk)
    requires DeskInv(d, epoch, now, next) && t == SweepDesk(d)
    ensures DeskInv(t, epoch + 1, now, next)
  {
    hide DeskInv, Void, Close;
    var u := Void(d, Unrevoked(d.approvals));
    VoidFrame(d, Unrevoked(d.approvals), u);
    VoidKeeps(d, Unrevoked(d.approvals), now, epoch, next, u);
    SweptKeeps(u, now, epoch, next, t);
  }

  lemma SweptKeeps(d: Desk, now: int, epoch: nat, next: nat, t: Desk)
    requires DeskInv(d, epoch, now, next) && forall r :: r in d.approvals ==> d.approvals[r].revoked
    requires t == d.(grants := t.grants, windows := Close(d.windows, d.windows.Keys)) && t.grants.Keys == d.grants.Keys
    ensures DeskInv(t, epoch + 1, now, next)
  {
    hide StoryInv, RowsInv, ReceiptsInv, WindowsInv, OneLive;
    WindowsClosed(d.approvals, d.windows, epoch, next, t.windows);
    RowsVoided(d.approvals, d.approvals, epoch, now, next);
    NoneLive(t.windows);
  }

  lemma NoneLive(windows: map<nat, Window>)
    requires forall w :: w in windows ==> windows[w].revoked
    ensures OneLive(windows)
  {
  }

  lemma WindowsClosed(approvals: map<nat, Approval>, windows: map<nat, Window>, epoch: nat, next: nat,
                      after: map<nat, Window>)
    requires WindowsInv(approvals, windows, epoch, next)
    requires forall r :: r in approvals ==> approvals[r].revoked
    requires after == Close(windows, windows.Keys)
    ensures WindowsInv(approvals, after, epoch + 1, next)
  {
    hide DecidedBy;
    forall w | w in after ensures WindowOk(approvals, w, after[w], epoch + 1) {
      assert WindowOk(approvals, w, windows[w], epoch);
    }
  }

  // ---------------------------------------------------------------- the credentials

  ghost predicate DevicesInv(devices: map<nat, Device>, minted: seq<(nat, nat)>, epoch: nat, next: nat) {
    && (forall d :: d in devices ==> d < next && devices[d].epoch == epoch)
    && (forall i :: 0 <= i < |minted| ==> minted[i].0 < next && (minted[i].0 in devices ==> devices[minted[i].0].status == Spent))
    && (forall i, j :: 0 <= i < j < |minted| ==> minted[i].0 != minted[j].0)
  }

  ghost predicate CodesInv(devices: map<nat, Device>) {
    forall d, e :: (d in devices && e in devices && devices[d].status == Waiting && devices[e].status == Waiting
                    && devices[d].code == devices[e].code) ==> d == e
  }

  ghost predicate TokensInv(tokens: map<nat, Token>, epoch: nat, next: nat) {
    forall t :: t in tokens ==> t < next && (!tokens[t].revoked ==> tokens[t].epoch == epoch)
  }

  ghost predicate KeysInv(k: Keyring, epoch: nat, next: nat) {
    && DevicesInv(k.devices, k.minted, epoch, next) && CodesInv(k.devices)
    && TokensInv(k.tokens, epoch, next)
    && (forall x :: x in k.sessions ==> x < next && k.sessions[x].epoch == epoch)
    && (forall p :: p in k.polls ==> p.0 < next)
  }

  lemma StartDeviceKeeps(k: Keyring, code: nat, remote: nat, now: int, epoch: nat, next: nat, t: Keyring)
    requires KeysInv(k, epoch, next) && t == StartDevice(k, next, code, remote, now, epoch)
    ensures KeysInv(t, epoch, next + 1)
  {
  }

  lemma ApproveDeviceKeeps(k: Keyring, code: nat, now: int, epoch: nat, next: nat, t: Keyring)
    requires KeysInv(k, epoch, next) && t == ApproveDevice(k, code, now)
    ensures KeysInv(t, epoch, next)
  {
  }

  lemma PollMintKeeps(k: Keyring, d: nat, began: int, epoch: nat, next: nat, t: Keyring)
    requires KeysInv(k, epoch, next) && t == PollMint(k, d, next, began, epoch)
    ensures KeysInv(t, epoch, next + 1)
  {
  }

  lemma ResetKeeps(k: Keyring, revokeTokens: bool, now: int, epoch: nat, next: nat, t: Keyring)
    requires KeysInv(k, epoch, next) && t == ResetPassword(k, revokeTokens, now)
    ensures KeysInv(t, epoch, next)
  {
  }

  lemma SweepKeysKeeps(k: Keyring, epoch: nat, next: nat, t: Keyring)
    requires KeysInv(k, epoch, next) && t == SweepKeys(k)
    ensures KeysInv(t, epoch + 1, next)
  {
  }

  // ---------------------------------------------------------------- every step

  ghost predicate Inv(s: State) {
    DeskInv(s.desk, s.epoch, s.clock, s.next) && KeysInv(s.keys, s.epoch, s.next)
  }

  lemma DeskLater(d: Desk, epoch: nat, clock: int, next: nat, later: int, more: nat)
    requires DeskInv(d, epoch, clock, next) && clock <= later && next <= more
    ensures DeskInv(d, epoch, later, more)
  {
    hide StoryInv, WindowOk;
  }

  lemma KeysLater(k: Keyring, epoch: nat, next: nat, more: nat)
    requires KeysInv(k, epoch, next) && next <= more
    ensures KeysInv(k, epoch, more)
  {
  }

  predicate AtDesk(step: Step) {
    step.CreateApproval? || step.DecideApproval? || step.ClaimReceipt? || step.RedeemReceipt? || step.Open?
    || step.TurnOff? || step.AddClient? || step.Disable? || step.AddGrant? || step.WithdrawGrant? || step.WithdrawApprovals?
  }

  lemma DeskStepKeeps(s: State, step: Step, t: State)
    requires Inv(s) && AtDesk(step) && t == Apply(s, step)
    ensures DeskInv(t.desk, t.epoch, t.clock, t.next)
  {
    hide RowsInv, ReceiptsInv, StoryInv, WindowsInv, OneLive, Create, Decide, Claim, Redeem, OpenWindow, RevokeWindow,
      DisableClient, RevokeGrantApprovals;
    var d := s.desk;
    match step
    case CreateApproval(q) => CreateKeeps(d, q, s.clock, s.epoch, s.next, t.desk);
    case DecideApproval(r, yes, who) => DecideKeeps(d, r, yes, who, s.clock, s.epoch, s.next, t.desk);
    case ClaimReceipt(r) => ClaimKeeps(d, r, s.next, s.clock, s.epoch, s.next, t.desk);
    case RedeemReceipt(rc, digest) => RedeemKeeps(d, rc, digest, s.clock, s.epoch, s.next, t.desk);
    case Open(c, i, who, at) => OpenWindowKeeps(d, c, i, who, at, s.clock, s.epoch, s.next, t.desk);
    case TurnOff(w) => RevokeWindowKeeps(d, w, s.clock, s.epoch, s.next, t.desk);
    case AddClient(_) => DeskLater(d, s.epoch, s.clock, s.next, s.clock, s.next + 1);
    case Disable(c) => DisableClientKeeps(d, c, s.clock, s.epoch, s.next, t.desk);
    case AddGrant(_, _) => DeskLater(d, s.epoch, s.clock, s.next, s.clock, s.next + 1);
    case WithdrawGrant(_) =>
    case WithdrawApprovals(g) => RevokeGrantApprovalsKeeps(d, g, s.clock, s.epoch, s.next, t.desk);
  }

  lemma KeyStepKeeps(s: State, step: Step, t: State)
    requires Inv(s) && !AtDesk(step) && t == Apply(s, step)
    ensures KeysInv(t.keys, t.epoch, t.next)
  {
    hide DeskInv, StartDevice, ApproveDevice, PollMint, ResetPassword, SweepKeys, SweepDesk;
    var k := s.keys;
    match step
    case Start(code, remote) => StartDeviceKeeps(k, code, remote, s.clock, s.epoch, s.next, t.keys);
    case Allow(code) => ApproveDeviceKeeps(k, code, s.clock, s.epoch, s.next, t.keys);
    case ReadPoll(_) =>
    case MintPoll(dev, began) => PollMintKeeps(k, dev, began, s.epoch, s.next, t.keys);
    case CreateToken(_) => KeysLater(k, s.epoch, s.next, s.next + 1);
    case RevokeToken(_) =>
    case Login => KeysLater(k, s.epoch, s.next, s.next + 1);
    case Browse(_) =>
    case Reset(revokeTokens) => ResetKeeps(k, revokeTokens, s.clock, s.epoch, s.next, t.keys);
    case AdvanceEpoch => SweepKeysKeeps(k, s.epoch, s.next, t.keys);
    case Tick(_) =>
  }

  lemma StepKeeps(s: State, step: Step, t: State)
    requires Inv(s) && t == Apply(s, step)
    ensures Inv(t)
  {
    hide DeskInv, KeysInv;
    if AtDesk(step) {
      DeskStepKeeps(s, step, t);
      DeskLeavesKeys(s, step, t);
      KeysLater(s.keys, s.epoch, s.next, t.next);
    } else {
      KeyStepKeeps(s, step, t);
      if step.AdvanceEpoch? {
        SweepDeskKeeps(s.desk, s.clock, s.epoch, s.next, t.desk);
      } else {
        KeysLeaveDesk(s, step, t);
        DeskLater(s.desk, s.epoch, s.clock, s.next, t.clock, t.next);
      }
    }
  }

  lemma DeskLeavesKeys(s: State, step: Step, t: State)
    requires AtDesk(step) && t == Apply(s, step)
    ensures t.keys == s.keys && t.epoch == s.epoch && t.clock == s.clock && s.next <= t.next <= s.next + 1
  {
  }

  lemma KeysLeaveDesk(s: State, step: Step, t: State)
    requires !AtDesk(step) && !step.AdvanceEpoch? && t == Apply(s, step)
    ensures t.desk == s.desk && t.epoch == s.epoch && s.clock <= t.clock && s.next <= t.next <= s.next + 1
  {
  }

  lemma {:induction false} RunKeeps(s: State, steps: seq<Step>)
    requires Inv(s)
    ensures Inv(Run(s, steps))
    decreases |steps|
  {
    hide Inv, Apply;
    if steps != [] {
      RunKeeps(s, steps[..|steps| - 1]);
      StepKeeps(Run(s, steps[..|steps| - 1]), steps[|steps| - 1], Run(s, steps));
    }
  }
}
