/** What the preflight of a data reset is for. Archives queued over a parked registration trap
    its name for good; archives queued only once everything is delivered never trap any. */
module OutboxPreflight {
  import opened Wrappers
  import opened OutboxModel
  import opened OutboxInvariants
  import opened OutboxTheorems
  import opened OutboxProgress
  import opened OutboxRecovery

  // ---------------------------------------------------------------- without the preflight

  /** Queueing archives leaves a parked registration behind its definition. */
  lemma ArchivingStrands(s: State, actor: string, t: State, n: Name, i: nat)
    requires Inv(s, false) && t == QueueStep(s, actor) && n in s.defs && i < |s.outbox|
    requires IsCurrent(s.defs[n], s.outbox[i]) && ParkedOther(s.outbox[i])
    ensures Stranded(t, i) && t.outbox[i] == s.outbox[i] && n in t.defs && Archiving(t.defs[n])
  {
    var names := Sorted(s.defs.Keys);
    QueueAllEffect(s, names, actor, t);
    QueueAllKeeps(s, names, actor, false);
    assert Agrees(s.defs[n], s.outbox[i], false);
    var k := QueueAllReaches(s, names, actor, n);
    assert t.outbox[i] == s.outbox[i];
    CurrentIsOwn(s, n, i);
    forall m | m in t.defs && IsCurrent(t.defs[m], t.outbox[i])
      ensures false
    {
      CurrentIsOwn(t, m, i);
    }
  }

  lemma ArchivingSucceeded(s: State, t: State, n: Name)
    requires Recovered(s, RESET_RECOVERY, t) && n in s.defs && Archiving(s.defs[n])
    ensures n in t.defs && t.defs[n].asset >= s.nextAsset
  {
    hide RetriesRegister, Successions, Sorted;
    assert NeedsSuccessor(s, n) && RowRecovered(s, n, t);
  }

  lemma FreshIsRegister(s: State, t: State, c: nat)
    requires AssetsOrdered(s) && Recovered(s, RESET_RECOVERY, t)
    requires c < |t.outbox| && t.outbox[c].asset >= s.nextAsset
    ensures t.outbox[c].typ == Register && t.outbox[c].actor == RESET_RECOVERY && t.outbox[c].status == Pending
  {
    hide RetriesRegister, Successions, Sorted, NeedsSuccessor;
    assert c >= |s.outbox|;
    assert NewRegister(s, Sorted(Successions(s)), RESET_RECOVERY, t.outbox[c]);
  }

  /** Recovery makes a registration of its own current. */
  lemma SuccessorRegisters(s: State, t: State, n: Name) returns (c: nat)
    requires AssetsOrdered(s) && Inv(t, false) && Recovered(s, RESET_RECOVERY, t)
    requires n in s.defs && Archiving(s.defs[n])
    ensures c < |t.outbox| && n in t.defs && IsCurrent(t.defs[n], t.outbox[c])
    ensures t.outbox[c].typ == Register && t.outbox[c].actor == RESET_RECOVERY
    ensures t.defs[n].asset >= s.nextAsset && !Archiving(t.defs[n])
  {
    hide Recovered;
    ArchivingSucceeded(s, t, n);
    c :| Announces(t, n, c);
    FreshIsRegister(s, t, c);
    assert Agrees(t.defs[n], t.outbox[c], false);
  }

  lemma StrandedAfterRecovery(s: State, t: State, n: Name, i: nat)
    requires AssetsOrdered(s) && Inv(t, false) && Recovered(s, RESET_RECOVERY, t)
    requires n in t.defs && t.defs[n].asset >= s.nextAsset && Stranded(s, i) && s.outbox[i].name == n
    ensures i < |t.outbox| && t.outbox[i] == s.outbox[i] && Stranded(t, i) && s.outbox[i].asset < s.nextAsset
    ensures t.gate == s.gate
  {
    hide NeedsSuccessor, Successions, Sorted;
    assert t.outbox[i] == s.outbox[i];
    forall m | m in t.defs && IsCurrent(t.defs[m], t.outbox[i])
      ensures false
    {
      CurrentIsOwn(t, m, i);
    }
  }

  /** The successor that recovery gives the definition holds the gate on its own account. */
  lemma RecoveryTraps(s: State, t: State, n: Name, i: nat)
    requires AssetsOrdered(s) && Inv(t, false) && s.gate.Some? && Recovered(s, RESET_RECOVERY, t)
    requires n in s.defs && Archiving(s.defs[n])
    requires Stranded(s, i) && s.outbox[i].name == n && s.outbox[i].typ == Register
    ensures Trap(t, i, i) && t.outbox[i].name == n
  {
    hide RetriesRegister, Incomplete, Recovered, Inv;
    var c := SuccessorRegisters(s, t, n);
    StrandedAfterRecovery(s, t, n, i);
    StillIncomplete(t, n, c, i);
    assert HoldsGate(t, n);
  }

  lemma RunThree(s: State, a: Step, b: Step, c: Step)
    ensures Run(s, [a, b, c]) == Apply(Apply(Apply(s, a), b), c)
  {
    assert [a, b, c] == [a] + ([b] + [c]);
    RunAppend(s, [a], [b] + [c]);
    RunOne(s, a);
    RunAppend(Apply(s, a), [b], [c]);
    RunOne(Apply(s, a), b);
    RunOne(Apply(Apply(s, a), b), c);
  }

  /** A registration that was parked when a reset began is lost: once archives are queued and
      recovery has run, no continuation whatever delivers it or drains its name. */
  lemma ParkedRegistrationIsLost(s: State, n: Name, i: nat, owner: nat, steps: seq<Step>)
    requires Reachable(s) && s.gate.None? && n in s.defs && i < |s.outbox|
    requires IsCurrent(s.defs[n], s.outbox[i]) && s.outbox[i].typ == Register && s.outbox[i].status == RepairRequired
    ensures var t := Run(s, [BeginReset(owner), QueueArchives(RESET_DATA), RecoverReset(RESET_RECOVERY, None)]);
      Trap(t, i, i)
    ensures var t := Run(s, [BeginReset(owner), QueueArchives(RESET_DATA), RecoverReset(RESET_RECOVERY, None)]);
      i < |Run(t, steps).outbox| && Undelivered(Run(t, steps).outbox[i]) && !Drained(Run(t, steps).outbox, n)
  {
    hide Trap, Recovered, Inv, QueueStep, RecoverStep;
    var begin, queue, recover := BeginReset(owner), QueueArchives(RESET_DATA), RecoverReset(RESET_RECOVERY, None);
    RunThree(s, begin, queue, recover);
    ReachableInv(s);
    var s1 := Apply(s, begin);
    StepKeeps(s, begin, false);
    var s2 := Apply(s1, queue);
    StepKeeps(s1, queue, false);
    ArchivingStrands(s1, RESET_DATA, s2, n, i);
    CurrentIsOwn(s, n, i);
    GateKept(s1, RESET_DATA, s2);
    var t := Apply(s2, recover);
    RecoveryTrapsStep(s2, t, n, i);
    StepKeeps(s2, recover, false);
    ReachableStep(s, begin);
    ReachableStep(s1, queue);
    ReachableStep(s2, recover);
    TrappedIsLost(t, n, i, steps);
  }

  lemma TrappedIsLost(t: State, n: Name, i: nat, steps: seq<Step>)
    requires Reachable(t) && Trap(t, i, i) && t.outbox[i].name == n
    ensures i < |Run(t, steps).outbox| && Undelivered(Run(t, steps).outbox[i]) && !Drained(Run(t, steps).outbox, n)
  {
    hide Inv, GateStuck;
    ReachableInv(t);
    DoomedNeverDelivered(t, steps, i, i);
    DeliveredForGood(t, steps);
    assert SameEvent(t.outbox[i], Run(t, steps).outbox[i]);
  }

  lemma GateKept(s: State, actor: string, t: State)
    requires t == QueueStep(s, actor)
    ensures t.gate == s.gate && t.defs.Keys == s.defs.Keys
  {
    QueueAllEffect(s, Sorted(s.defs.Keys), actor, t);
  }

  lemma RecoveryTrapsStep(s: State, t: State, n: Name, i: nat)
    requires Inv(s, false) && s.gate.Some? && t == RecoverStep(s, RESET_RECOVERY, None)
    requires n in s.defs && Archiving(s.defs[n])
    requires Stranded(s, i) && s.outbox[i].name == n && s.outbox[i].typ == Register
    ensures Trap(t, i, i) && t.outbox[i].name == n
  {
    hide Stranded, Trap, Recovered, Inv, RecoverStep;
    var step := RecoverReset(RESET_RECOVERY, None);
    assert t == Apply(s, step);
    StepKeeps(s, step, false);
    RecoverEffect(s, RESET_RECOVERY, None, t);
    Ordered(s);
    RecoveryTraps(s, t, n, i);
  }

  lemma Ordered(s: State)
    requires Inv(s, false)
    ensures AssetsOrdered(s)
  {
  }

  // ---------------------------------------------------------------- with the preflight

  ghost predicate AllDelivered(o: seq<Event>) {
    forall i :: 0 <= i < |o| ==> o[i].status == Delivered
  }

  /** Archives are queued only while nothing is undelivered, and only recovery acts as
      recovery. */
  ghost predicate Careful(s: State, step: Step) {
    && (step.QueueArchives? ==> AllDelivered(s.outbox))
    && (step.Create? ==> step.actor != RESET_RECOVERY)
  }

  ghost predicate CarefulRun(s: State, steps: seq<Step>)
    decreases |steps|
  {
    steps == [] || (Careful(s, steps[0]) && CarefulRun(Apply(s, steps[0]), steps[1..]))
  }

  /** An archive, or a registration that recovery made. */
  predicate OfReset(e: Event) {
    e.typ == Archive || (e.typ == Register && e.actor == RESET_RECOVERY)
  }

  /** Beside a definition's own reset event c, only older archives of the name wait. */
  ghost predicate OnlyArchivesWait(s: State, n: Name, c: nat)
    requires c < |s.outbox|
  {
    forall j :: 0 <= j < |s.outbox| && s.outbox[j].name == n && Undelivered(s.outbox[j])
      ==> j == c || (j < c && s.outbox[j].typ == Archive)
  }

  ghost predicate Tidy(s: State) {
    forall n, c: nat :: n in s.defs && c < |s.outbox| && IsCurrent(s.defs[n], s.outbox[c]) && OfReset(s.outbox[c])
      ==> OnlyArchivesWait(s, n, c)
  }

  /** The event of a definition is the only one that can be its reset event. */
  lemma Tidied(t: State, n: Name, k: nat)
    requires Inv(t, false) && n in t.defs && k < |t.outbox| && IsCurrent(t.defs[n], t.outbox[k])
    requires OfReset(t.outbox[k]) ==> OnlyArchivesWait(t, n, k)
    ensures forall c: nat ::
      c < |t.outbox| && IsCurrent(t.defs[n], t.outbox[c]) && OfReset(t.outbox[c]) ==> OnlyArchivesWait(t, n, c)
  {
    forall c: nat | c < |t.outbox| && IsCurrent(t.defs[n], t.outbox[c])
      ensures c == k
    {
      OneEvent(t, c, k);
    }
  }

  /** Appending an event under one name leaves the other names tidy. */
  lemma AnnouncementTidy(s: State, t: State, n: Name, k: nat)
    requires Tidy(s) && Inv(t, false) && k == |s.outbox| && |t.outbox| == k + 1 && s.outbox <= t.outbox
    requires t.outbox[k].name == n && t.defs.Keys - {n} <= s.defs.Keys
    requires forall m :: m in t.defs && m != n ==> t.defs[m] == s.defs[m]
    requires n in t.defs ==> IsCurrent(t.defs[n], t.outbox[k]) && (OfReset(t.outbox[k]) ==> OnlyArchivesWait(t, n, k))
    ensures Tidy(t)
  {
    forall m, c: nat | m in t.defs && c < |t.outbox| && IsCurrent(t.defs[m], t.outbox[c]) && OfReset(t.outbox[c])
      ensures OnlyArchivesWait(t, m, c)
    {
      if m == n {
        Tidied(t, n, k);
      } else {
        CurrentIsOwn(t, m, c);
        assert c < k && t.outbox[c] == s.outbox[c];
        assert OnlyArchivesWait(s, m, c);
      }
    }
  }

  /** Rewriting events in place, with delivered ones left alone, keeps everything tidy. */
  lemma RewriteTidy(s: State, t: State)
    requires Tidy(s) && SameRows(s, t) && SameEvents(s.outbox, t.outbox)
    requires forall i :: 0 <= i < |s.outbox| && s.outbox[i].status == Delivered ==> t.outbox[i].status == Delivered
    ensures Tidy(t)
  {
    forall m, c: nat | m in t.defs && c < |t.outbox| && IsCurrent(t.defs[m], t.outbox[c]) && OfReset(t.outbox[c])
      ensures OnlyArchivesWait(t, m, c)
    {
      assert SameEvent(s.outbox[c], t.outbox[c]);
      assert OnlyArchivesWait(s, m, c);
      forall j | 0 <= j < |t.outbox| && t.outbox[j].name == m && Undelivered(t.outbox[j])
        ensures j == c || (j < c && t.outbox[j].typ == Archive)
      {
        assert SameEvent(s.outbox[j], t.outbox[j]);
      }
    }
  }

  lemma QueueOneTidy(s: State, n: Name, actor: string)
    requires Inv(s, false) && Tidy(s)
    requires forall j :: 0 <= j < |s.outbox| && s.outbox[j].name == n ==> s.outbox[j].status == Delivered
    ensures Inv(QueueOne(s, n, actor), false) && Tidy(QueueOne(s, n, actor))
  {
    hide Inv, Tidy;
    if n in s.defs && !Archiving(s.defs[n]) {
      BumpKeeps(s, n, Bumped(s.defs[n], PendingArchive), Archive, actor, false);
      AnnouncementTidy(s, QueueOne(s, n, actor), n, |s.outbox|);
    }
  }

  lemma {:induction false} QueueAllTidy(s: State, names: seq<Name>, actor: string)
    requires Inv(s, false) && Tidy(s) && (forall i, j :: 0 <= i < j < |names| ==> names[i] < names[j])
    requires forall j :: 0 <= j < |s.outbox| && s.outbox[j].name in names ==> s.outbox[j].status == Delivered
    ensures Tidy(QueueAll(s, names, actor))
    decreases |names|
  {
    hide Inv, Tidy;
    if names != [] {
      QueueOneTidy(s, names[0], actor);
      var t := QueueOne(s, names[0], actor);
      assert names[0] !in names[1..];
      QueueAllTidy(t, names[1..], actor);
    }
  }

  /** The current event of definition n is an archive. */
  ghost predicate OnArchive(s: State, n: Name) {
    n in s.defs && exists c: nat :: Announces(s, n, c) && s.outbox[c].typ == Archive
  }

  lemma SucceedOneTidy(s: State, n: Name, actor: string)
    requires Inv(s, false) && Tidy(s) && OnArchive(s, n)
    ensures Inv(SucceedOne(s, n, actor), false) && Tidy(SucceedOne(s, n, actor))
  {
    hide Inv;
    SucceedOneKeeps(s, n, actor, false);
    var t := SucceedOne(s, n, actor);
    var c: nat :| Announces(s, n, c) && s.outbox[c].typ == Archive;
    assert OnlyArchivesWait(s, n, c);
    AnnouncementTidy(s, t, n, |s.outbox|);
  }

  lemma OnArchiveKept(s: State, m: Name, actor: string, n: Name)
    requires Inv(s, false) && m in s.defs && OnArchive(s, n) && m != n
    ensures OnArchive(SucceedOne(s, m, actor), n)
  {
    var t := SucceedOne(s, m, actor);
    var c: nat :| Announces(s, n, c) && s.outbox[c].typ == Archive;
    assert Announces(t, n, c) && t.outbox[c].typ == Archive;
  }

  lemma {:induction false} SucceedAllTidy(s: State, names: seq<Name>, actor: string)
    requires Inv(s, false) && Tidy(s) && (forall i, j :: 0 <= i < j < |names| ==> names[i] < names[j])
    requires forall n :: n in names ==> OnArchive(s, n)
    ensures Tidy(SucceedAll(s, names, actor))
    decreases |names|
  {
    hide Inv, Tidy, OnArchive;
    if names != [] {
      assert OnArchive(s, names[0]);
      SucceedOneTidy(s, names[0], actor);
      forall n | n in names[1..]
        ensures OnArchive(SucceedOne(s, names[0], actor), n)
      {
        InDefs(s, names[0]);
        OnArchiveKept(s, names[0], actor, n);
      }
      SucceedAllTidy(SucceedOne(s, names[0], actor), names[1..], actor);
    }
  }

  lemma InDefs(s: State, n: Name)
    requires OnArchive(s, n)
    ensures n in s.defs
  {
  }

  lemma SuccessionOnArchive(s: State, n: Name)
    requires Inv(s, false) && n in s.defs && NeedsSuccessor(s, n)
    ensures OnArchive(s, n)
  {
    var c: nat :| Announces(s, n, c);
    if s.outbox[c].typ != Archive {
      NotSucceeded(s, n, c);
    }
  }

  lemma RecoverTidy(s: State, actor: string, owner: Option<nat>, t: State)
    requires Inv(s, false) && Tidy(s) && t == RecoverStep(s, actor, owner)
    ensures Tidy(t)
  {
    hide Inv, Tidy, OnArchive, NeedsSuccessor, SucceedAll, RetryArchives, RetryRegisters;
    if s.gate.Some? && (owner.Some? ==> owner == s.gate) {
      var names := Sorted(Successions(s));
      forall n | n in names
        ensures OnArchive(s, n)
      {
        SuccessionOnArchive(s, n);
      }
      SucceedAllTidy(s, names, actor);
      var u := SucceedAll(s, names, actor);
      RetriesTidy(u, RetryRegisters(RetryArchives(u)));
    }
  }

  lemma RetriesTidy(u: State, t: State)
    requires Tidy(u) && t == RetryRegisters(RetryArchives(u))
    ensures Tidy(t)
  {
    hide Tidy, RetriesArchive, RetriesRegister;
    RetryEffect(u, RetryArchives(u), t);
    forall k: nat | k < |u.outbox|
      ensures SameEvent(u.outbox[k], t.outbox[k])
      ensures u.outbox[k].status == Delivered ==> t.outbox[k].status == Delivered
    {
      DeliveredNotRetried(u, k);
    }
    RewriteTidy(u, t);
  }

  lemma DeliveredNotRetried(u: State, k: nat)
    requires k < |u.outbox|
    ensures u.outbox[k].status == Delivered ==> !RetriesArchive(u, k) && !RetriesRegister(u, k)
  {
  }

  lemma CreateTidy(s: State, step: Step, t: State)
    requires Inv(s, false) && Tidy(s) && Careful(s, step) && t == Apply(s, step)
    requires step.Create? || step.RefreshLayer? || step.ReplaceLayer? || step.Drop?
    ensures Tidy(t)
  {
    hide Inv, Tidy;
    StepKeeps(s, step, false);
    if t != s {
      AnnouncementTidy(s, t, step.name, |s.outbox|);
    }
  }

  lemma StepTidy(s: State, step: Step, t: State)
    requires Inv(s, false) && Tidy(s) && Careful(s, step) && t == Apply(s, step)
    ensures Tidy(t)
  {
    hide Tidy, RecoverStep, QueueStep, Chosen, Inv, CompleteStep, SetProfiles;
    match step
    case Create(_, _, _) => CreateTidy(s, step, t);
    case RefreshLayer(_, _) => CreateTidy(s, step, t);
    case ReplaceLayer(_, _, _) => CreateTidy(s, step, t);
    case Drop(_, _) => CreateTidy(s, step, t);
    case Claim(_, _) => RewriteTidy(s, t);
    case QueueArchives(a) => QueueTidy(s, a, t);
    case RecoverReset(a, o) => RecoverTidy(s, a, o, t);
    case BeginReset(_) => RewriteTidy(s, t);
    case CompleteReset(o) =>
      OnlyGateMoves(s, o);
      RewriteTidy(s, t);
    case Tick(_) => RewriteTidy(s, t);
    case _ => ReportTidy(s, step, t);
  }

  lemma OnlyGateMoves(s: State, owner: nat)
    ensures CompleteStep(s, owner) == s.(gate := CompleteStep(s, owner).gate)
  {
  }

  lemma ReportTidy(s: State, step: Step, t: State)
    requires Inv(s, false) && Tidy(s) && t == Apply(s, step)
    requires step.MarkDelivered? || step.MarkRetry? || step.MarkRepair? || step.Repair? || step.RequeueRepairs?
    ensures Tidy(t)
  {
    hide Tidy, Inv, RepairStep, RequeueStep, DeliveredStep, RetryStep, ParkStep;
    ReportInPlace(s, step, t);
    ReportQuiet(s, step, t);
    assert forall i :: 0 <= i < |s.outbox| ==> Quiet(s.outbox[i], t.outbox[i]);
    RewriteTidy(s, t);
  }

  lemma ReportInPlace(s: State, step: Step, t: State)
    requires t == Apply(s, step)
    requires step.MarkDelivered? || step.MarkRetry? || step.MarkRepair? || step.Repair? || step.RequeueRepairs?
    ensures SameRows(s, t) && |t.outbox| == |s.outbox|
  {
  }

  lemma ReportQuiet(s: State, step: Step, t: State)
    requires Inv(s, false) && t == Apply(s, step) && !step.Claim?
    ensures QuietEvents(s.outbox, t.outbox)
  {
    StepQuiet(s, step);
  }

  lemma QueueTidy(s: State, actor: string, t: State)
    requires Inv(s, false) && Tidy(s) && AllDelivered(s.outbox) && t == QueueStep(s, actor)
    ensures Tidy(t)
  {
    hide Tidy, Inv;
    QueueAllTidy(s, Sorted(s.defs.Keys), actor);
  }

  lemma {:induction false} CarefulRunTidy(s: State, steps: seq<Step>)
    requires Inv(s, false) && Tidy(s) && CarefulRun(s, steps)
    ensures Tidy(Run(s, steps))
    decreases |steps|
  {
    hide Tidy, Inv, Careful;
    if steps != [] {
      StepTidy(s, steps[0], Apply(s, steps[0]));
      StepKeeps(s, steps[0], false);
      CarefulRunTidy(Apply(s, steps[0]), steps[1..]);
    }
  }

  lemma TidyGateOpens(s: State, m: Name)
    requires Tidy(s) && m in s.defs && Incomplete(s, m)
    ensures !HoldsGate(s, m)
  {
    var c: nat :| c < |s.outbox| && IsCurrent(s.defs[m], s.outbox[c]) && s.outbox[c].typ == Register
      && s.outbox[c].actor == RESET_RECOVERY;
    assert OnlyArchivesWait(s, m, c);
    forall i: nat, j: nat | Deadlock(s.outbox, i, j)
      ensures s.outbox[i].name != m
    {
    }
    forall k: nat | Stranded(s, k)
      ensures s.outbox[k].name != m
    {
    }
  }

  /** When archives are queued only over a delivered outbox, the gate never gets stuck, so
      nothing but two waiting rounds keeps a name from draining. */
  lemma PreflightNeverTraps(steps: seq<Step>, n: Name)
    requires CarefulRun(Empty, steps)
    ensures !GateStuck(Run(Empty, steps))
    ensures (exists more :: Drains(Run(Empty, steps), more, n)) <==> !Deadlocked(Run(Empty, steps).outbox, n)
  {
    hide Tidy, Inv, Drains;
    var s := Run(Empty, steps);
    EmptyTidy();
    CarefulRunTidy(Empty, steps);
    forall m
      ensures !HoldsGate(s, m)
    {
      if m in s.defs && Incomplete(s, m) {
        TidyGateOpens(s, m);
      }
    }
    assert Reachable(s);
    DrainsIff(s, n);
  }

  lemma EmptyTidy()
    ensures Tidy(Empty) && Inv(Empty, false)
  {
  }
}
