/** The delivery guarantees of the outbox: per-name order, who may claim, how profiles follow
    events, and exactly when a name can be drained. */
module OutboxTheorems {
  import opened Wrappers
  import opened OutboxModel
  import opened OutboxInvariants

  ghost predicate Reachable(s: State) {
    exists steps :: s == Run(Empty, steps)
  }

  lemma ReachableInv(s: State)
    requires Reachable(s)
    ensures Inv(s, false)
  {
    var steps :| s == Run(Empty, steps);
    RunKeeps(Empty, steps, false);
  }

  // ---------------------------------------------------------------- order

  /** The delivered events of every name are a prefix of the name's creation order; at most
      one event of a name holds a claim, and everything after an undelivered event is untouched. */
  lemma DeliveredPrefix(s: State, i: nat, j: nat)
    requires Reachable(s) && i < j < |s.outbox| && s.outbox[i].name == s.outbox[j].name
    ensures s.outbox[j].status == Delivered ==> s.outbox[i].status == Delivered
    ensures s.outbox[i].claim.None? || s.outbox[j].claim.None?
    ensures s.outbox[i].status != Delivered ==> s.outbox[j].status == Pending && s.outbox[j].claim.None?
  {
    ReachableInv(s);
    if Touched(s.outbox[j]) {
      assert EarlierDelivered(s.outbox, j);
      assert Sound(s.outbox[i], s.nextClaim);
    }
    assert Sound(s.outbox[j], s.nextClaim);
  }

  /** A successor registration is not reached before every event of its predecessor asset,
      in particular its archive, has been delivered. */
  lemma SuccessorWaits(s: State, i: nat, j: nat)
    requires Reachable(s) && i < |s.outbox| && j < |s.outbox|
    requires s.outbox[i].predecessor == Some(s.outbox[j].asset) && Touched(s.outbox[i])
    ensures s.outbox[j].status == Delivered
  {
    ReachableInv(s);
    assert ClosedBefore(s, s.outbox[j].asset, i);
    assert EarlierDelivered(s.outbox, i);
  }

  // ---------------------------------------------------------------- claiming

  /** Event i is the earliest undelivered event of its name. */
  ghost predicate Head(o: seq<Event>, i: nat)
    requires i < |o|
  {
    Undelivered(o[i]) && EarlierDelivered(o, i)
  }

  /** Register i and archive j of one name, of different assets, neither delivered, the
      archive created later. */
  predicate Waits(o: seq<Event>, i: nat, j: nat) {
    && i < j < |o| && o[i].name == o[j].name && o[i].typ == Register && o[j].typ == Archive
    && o[i].asset != o[j].asset && Undelivered(o[i]) && Undelivered(o[j])
  }

  lemma ClaimableIff(s: State, i: nat)
    requires Reachable(s) && i < |s.outbox|
    ensures Claimable(s.outbox, s.clock, i) <==>
      (&& Head(s.outbox, i) && Live(s.outbox[i]) && s.outbox[i].availableAt <= s.clock
       && LeaseFree(s.outbox[i], s.clock) && !exists j :: Waits(s.outbox, i, j))
  {
    ReachableInv(s);
    if NameClear(s.outbox, i) {
      ClearedIsEarliest(s.outbox, i);
      forall j | Waits(s.outbox, i, j)
        ensures false
      {
        assert Obstructs(s.outbox, j, i);
      }
    }
    if Head(s.outbox, i) && !exists j :: Waits(s.outbox, i, j) {
      HeadIsClear(s, i);
    }
  }

  lemma HeadIsClear(s: State, i: nat)
    requires AssetsOrdered(s) && i < |s.outbox| && Head(s.outbox, i)
    requires !exists j :: Waits(s.outbox, i, j)
    ensures GenerationClear(s.outbox, i) && NameClear(s.outbox, i)
  {
    forall j: nat | j < |s.outbox| && Obstructs(s.outbox, j, i)
      ensures false
    {
      assert Waits(s.outbox, i, j);
    }
  }

  // ---------------------------------------------------------------- profiles

  /** Every definition has exactly one event of its asset and generation, and its status and
      revision follow that event. */
  lemma ProfilesFollowEvents(s: State, n: Name) returns (i: nat)
    requires Reachable(s) && n in s.defs
    ensures i < |s.outbox| && IsCurrent(s.defs[n], s.outbox[i]) && s.outbox[i].name == n
    ensures forall j :: 0 <= j < |s.outbox| && IsCurrent(s.defs[n], s.outbox[j]) ==> j == i
    ensures s.defs[n].status == Ready <==> s.outbox[i].status == Delivered && s.outbox[i].typ != Archive
    ensures s.defs[n].status == Archived <==> s.outbox[i].status == Delivered && s.outbox[i].typ == Archive
    ensures s.defs[n].status == Registering <==> Live(s.outbox[i]) && s.outbox[i].typ != Archive
    ensures s.outbox[i].status == RepairRequired ==> s.defs[n].status == NeedsRepair
    ensures s.defs[n].revision == s.outbox[i].revision
    ensures s.defs[n].revision.Some? <==> s.defs[n].status == Ready || s.defs[n].status == Archived
  {
    ReachableInv(s);
    i :| Announces(s, n, i);
    assert Agrees(s.defs[n], s.outbox[i], false) && Sound(s.outbox[i], s.nextClaim);
    forall j: nat | j < |s.outbox| && IsCurrent(s.defs[n], s.outbox[j])
      ensures j == i
    {
      OneEvent(s, i, j);
    }
  }

  function Expected(e: Event): ProfileStatus {
    match e.status
    case Delivered => DeliveredStatus(e)
    case RepairRequired => NeedsRepair
    case _ => WaitingStatus(e)
  }

  /** Every definition has the one status its current event calls for. */
  ghost predicate ExactProfiles(s: State) {
    forall n, i :: n in s.defs && 0 <= i < |s.outbox| && IsCurrent(s.defs[n], s.outbox[i])
      ==> s.defs[n].status == Expected(s.outbox[i])
  }

  lemma ExactRun(steps: seq<Step>)
    requires RequeueRepairs !in steps
    ensures ExactProfiles(Run(Empty, steps))
  {
    RunKeeps(Empty, steps, true);
    var s := Run(Empty, steps);
    forall n, i | n in s.defs && 0 <= i < |s.outbox| && IsCurrent(s.defs[n], s.outbox[i])
      ensures s.defs[n].status == Expected(s.outbox[i])
    {
      assert Agrees(s.defs[n], s.outbox[i], true);
    }
  }

  /** Requeuing parked archives leaves the definition rows alone, so the statuses stay exact
      precisely when no definition was waiting on a parked archive. */
  lemma RequeueExactIff(s: State)
    requires Inv(s, true)
    ensures ExactProfiles(RequeueStep(s)) <==> !ParkedCurrent(s)
  {
    var t := RequeueStep(s);
    if ParkedCurrent(s) {
      var n, i :| n in s.defs && 0 <= i < |s.outbox| && IsCurrent(s.defs[n], s.outbox[i]) && ParkedArchive(s.outbox[i]);
      assert Agrees(s.defs[n], s.outbox[i], true);
      assert IsCurrent(t.defs[n], t.outbox[i]) && t.outbox[i].status == Pending;
    } else {
      forall n, i | n in t.defs && 0 <= i < |t.outbox| && IsCurrent(t.defs[n], t.outbox[i])
        ensures t.defs[n].status == Expected(t.outbox[i])
      {
        assert IsCurrent(s.defs[n], s.outbox[i]);
        assert Agrees(s.defs[n], s.outbox[i], true);
      }
    }
  }

  /** Opening the maintenance gate means that every definition whose current event is a
      recovery registration is ready, with every event of its name delivered. */
  lemma GateOpensRecovered(s: State, owner: nat, n: Name, i: nat)
    requires Reachable(s) && s.gate.Some? && CompleteStep(s, owner).gate.None?
    requires n in s.defs && i < |s.outbox| && IsCurrent(s.defs[n], s.outbox[i])
    requires s.outbox[i].typ == Register && s.outbox[i].actor == RESET_RECOVERY
    ensures s.gate == Some(owner) && s.outbox[i].status == Delivered && s.defs[n].status == Ready
    ensures forall j :: 0 <= j < |s.outbox| && s.outbox[j].name == n ==> s.outbox[j].status == Delivered
  {
    assert !Incomplete(s, n);
    var k := ProfilesFollowEvents(s, n);
  }
}
