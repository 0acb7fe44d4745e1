/** Exactly when the outbox can still drain a name, over every reachable state: two undelivered
    rounds of one name block each other for good, and a registration parked outside the reach
    of the reset can hold the maintenance gate shut against its own repair. */
module OutboxRecovery {
  import opened Wrappers
  import opened OutboxModel
  import opened OutboxInvariants
  import opened OutboxTheorems
  import opened OutboxProgress

  // ---------------------------------------------------------------- the trap

  predicate ParkedOther(e: Event) {
    e.status == RepairRequired && e.typ != Archive
  }

  /** A parked event that no requeue reaches while the gate is closed. */
  ghost predicate Stranded(s: State, i: nat) {
    i < |s.outbox| && ParkedOther(s.outbox[i]) && !RetriesRegister(s, i)
  }

  /** Queueing archives once more would put behind register r the archive of another asset. */
  predicate Threatened(s: State, r: nat) {
    && r < |s.outbox| && Undelivered(s.outbox[r]) && s.outbox[r].typ == Register && s.outbox[r].name in s.defs
    && s.defs[s.outbox[r].name].asset != s.outbox[r].asset
    && s.defs[s.outbox[r].name].status != PendingArchive && s.defs[s.outbox[r].name].status != Archived
  }

  ghost predicate StrandedUnder(s: State, m: Name) {
    exists k: nat :: Stranded(s, k) && s.outbox[k].name == m
  }

  /** A definition that keeps the gate closed and that no worker can complete. */
  ghost predicate HoldsGate(s: State, m: Name) {
    m in s.defs && Incomplete(s, m) && (Deadlocked(s.outbox, m) || StrandedUnder(s, m))
  }

  ghost predicate GateStuck(s: State) {
    exists m :: HoldsGate(s, m)
  }

  /** Event i waits for the gate, the gate waits for a definition that cannot be completed,
      and archiving that definition instead would deadlock register r, of the same name as i. */
  ghost predicate Trap(s: State, i: nat, r: nat) {
    && s.gate.Some? && Stranded(s, i) && Threatened(s, r) && s.outbox[r].name == s.outbox[i].name
    && GateStuck(s)
  }

  // ---------------------------------------------------------------- parked events

  /** Only the earliest undelivered event of a name is ever parked. */
  lemma ParkedIsHead(s: State, i: nat, j: nat)
    requires Inv(s, false) && i < |s.outbox| && j < |s.outbox| && s.outbox[i].name == s.outbox[j].name
    requires s.outbox[i].status == RepairRequired && Undelivered(s.outbox[j])
    ensures i <= j && s.outbox[i].claim.None? && (j != i ==> !Touched(s.outbox[j]))
  {
    assert Sound(s.outbox[i], s.nextClaim);
    assert Touched(s.outbox[i]) && EarlierDelivered(s.outbox, i);
    assert j != i ==> !Touched(s.outbox[j]);
  }

  /** The event a definition is current on. */
  lemma CurrentIsOwn(s: State, n: Name, i: nat)
    requires Inv(s, false) && n in s.defs && i < |s.outbox| && IsCurrent(s.defs[n], s.outbox[i])
    ensures s.outbox[i].name == n && Announces(s, n, i)
  {
    var k: nat :| Announces(s, n, k);
    OneEvent(s, i, k);
  }

  /** A definition whose current event is no archive is not succeeded. */
  lemma NotSucceeded(s: State, n: Name, i: nat)
    requires Inv(s, false) && n in s.defs && i < |s.outbox| && IsCurrent(s.defs[n], s.outbox[i])
    requires s.outbox[i].typ != Archive
    ensures !NeedsSuccessor(s, n)
  {
    assert Agrees(s.defs[n], s.outbox[i], false);
    forall k: nat | k < |s.outbox| && IsCurrent(s.defs[n], s.outbox[k])
      ensures !ParkedArchive(s.outbox[k])
    {
      OneEvent(s, i, k);
    }
  }

  lemma IncompleteNotSucceeded(s: State, m: Name)
    requires Inv(s, false) && m in s.defs && Incomplete(s, m)
    ensures !NeedsSuccessor(s, m)
  {
    var i: nat :| i < |s.outbox| && IsCurrent(s.defs[m], s.outbox[i]) && s.outbox[i].typ == Register;
    NotSucceeded(s, m, i);
  }

  // ---------------------------------------------------------------- what queueing archives does

  predicate Archiving(d: Definition) {
    d.status == PendingArchive || d.status == Archived
  }

  /** A new event of QueueAll: the archive of a definition that had none. */
  predicate NewArchive(s: State, e: Event) {
    && e.typ == Archive && e.status == Pending && e.claim.None?
    && e.name in s.defs && e.asset == s.defs[e.name].asset && !Archiving(s.defs[e.name])
  }

  lemma {:induction false} QueueAllEffect(s: State, names: seq<Name>, actor: string, t: State)
    requires t == QueueAll(s, names, actor) && (forall n :: n in names ==> n in s.defs)
    ensures t.gate == s.gate && t.defs.Keys == s.defs.Keys && s.outbox <= t.outbox
    ensures forall n :: n in s.defs && (n !in names || Archiving(s.defs[n])) ==> t.defs[n] == s.defs[n]
    ensures forall n :: n in names ==> Archiving(t.defs[n])
    ensures forall k :: |s.outbox| <= k < |t.outbox| ==> NewArchive(s, t.outbox[k])
    decreases |names|
  {
    if names != [] {
      var u := QueueOne(s, names[0], actor);
      QueueAllEffect(u, names[1..], actor, t);
      assert s.outbox <= u.outbox;
      forall k | |s.outbox| <= k < |t.outbox|
        ensures NewArchive(s, t.outbox[k])
      {
        if k >= |u.outbox| {
          assert NewArchive(u, t.outbox[k]);
        }
      }
      forall n | n in names
        ensures Archiving(t.defs[n])
      {
        assert n == names[0] || n in names[1..];
      }
    }
  }

  /** Every definition that is not yet archiving gets its archive. */
  lemma {:induction false} QueueAllReaches(s: State, names: seq<Name>, actor: string, n: Name) returns (k: nat)
    requires n in names && (forall m :: m in names ==> m in s.defs) && !Archiving(s.defs[n])
    ensures |s.outbox| <= k < |QueueAll(s, names, actor).outbox|
    ensures QueueAll(s, names, actor).outbox[k].name == n && NewArchive(s, QueueAll(s, names, actor).outbox[k])
    decreases |names|
  {
    var u := QueueOne(s, names[0], actor);
    if names[0] == n {
      k := |s.outbox|;
      QueueAllEffect(u, names[1..], actor, QueueAll(s, names, actor));
      assert u.outbox[k] == QueueAll(s, names, actor).outbox[k];
    } else {
      k := QueueAllReaches(u, names[1..], actor, n);
    }
  }

  /** Nothing that is still archiving keeps the gate closed. */
  lemma ArchivingCompletes(t: State, m: Name)
    requires Inv(t, false) && m in t.defs && Archiving(t.defs[m])
    ensures !Incomplete(t, m)
  {
    forall i: nat | i < |t.outbox| && IsCurrent(t.defs[m], t.outbox[i])
      ensures t.outbox[i].typ == Archive
    {
      assert Agrees(t.defs[m], t.outbox[i], false);
    }
  }

  // ---------------------------------------------------------------- what reset recovery does

  predicate NewRegister(s: State, names: seq<Name>, actor: string, e: Event) {
    && e.typ == Register && e.status == Pending && e.claim.None? && e.actor == actor
    && e.name in names && e.asset >= s.nextAsset
  }

  lemma {:induction false} SucceedAllEffect(s: State, names: seq<Name>, actor: string, t: State)
    requires t == SucceedAll(s, names, actor)
    ensures t.gate == s.gate && t.clock == s.clock && t.defs.Keys == s.defs.Keys && s.outbox <= t.outbox
    ensures t.nextAsset >= s.nextAsset
    ensures forall n :: n in s.defs && n !in names ==> t.defs[n] == s.defs[n]
    ensures forall n :: n in s.defs && n in names ==> t.defs[n].asset >= s.nextAsset
    ensures forall k :: |s.outbox| <= k < |t.outbox| ==> NewRegister(s, names, actor, t.outbox[k])
    decreases |names|
  {
    if names != [] {
      var u := SucceedOne(s, names[0], actor);
      SucceedAllEffect(u, names[1..], actor, t);
      assert s.outbox <= u.outbox;
      forall k | |s.outbox| <= k < |t.outbox|
        ensures NewRegister(s, names, actor, t.outbox[k])
      {
        if k >= |u.outbox| {
          assert NewRegister(u, names[1..], actor, t.outbox[k]);
        }
      }
    }
  }

  /** Parked registrations of the reset are the same before and after the successions. */
  lemma SameRetries(s: State, actor: string, u: State, k: nat)
    requires Inv(s, false) && u == SucceedAll(s, Sorted(Successions(s)), actor) && k < |s.outbox| <= |u.outbox|
    ensures RetriesRegister(u, k) <==> RetriesRegister(s, k)
  {
    SucceedAllEffect(s, Sorted(Successions(s)), actor, u);
    if RetriesRegister(s, k) {
      var n :| n in s.defs && IsCurrent(s.defs[n], s.outbox[k]);
      NotSucceeded(s, n, k);
      assert n !in Sorted(Successions(s));
    }
    assert s.outbox[k].asset < s.nextAsset;
  }

  /** Recovery changes old events only by requeuing parked ones, among them every parked
      registration of the reset that a definition is current on. */
  ghost predicate Recovered(s: State, actor: string, t: State) {
    && t.gate == s.gate && t.defs.Keys == s.defs.Keys && |s.outbox| <= |t.outbox|
    && (forall k :: 0 <= k < |s.outbox| ==>
          (t.outbox[k] == s.outbox[k]
           || (s.outbox[k].status == RepairRequired && t.outbox[k] == Requeued(s.outbox[k], s.clock))))
    && (forall k: nat :: k < |s.outbox| && RetriesRegister(s, k) ==> t.outbox[k].status == Pending)
    && (forall k: nat :: Stranded(s, k) ==> t.outbox[k] == s.outbox[k])
    && (forall k :: |s.outbox| <= k < |t.outbox| ==> NewRegister(s, Sorted(Successions(s)), actor, t.outbox[k]))
    && (forall n :: n in s.defs ==> RowRecovered(s, n, t))
  }

  ghost predicate RowRecovered(s: State, n: Name, t: State)
    requires n in s.defs && n in t.defs
  {
    if NeedsSuccessor(s, n) then t.defs[n].asset >= s.nextAsset
    else
      && t.defs[n].asset == s.defs[n].asset && t.defs[n].generation == s.defs[n].generation
      && (t.defs[n].status == s.defs[n].status || t.defs[n].status == Registering)
  }

  function Retried(u: State, k: nat): Event
    requires k < |u.outbox|
  {
    if RetriesArchive(u, k) || RetriesRegister(u, k) then Requeued(u.outbox[k], u.clock) else u.outbox[k]
  }

  /** The two requeues of recovery, after its successions. */
  lemma RetryEffect(u: State, v: State, t: State)
    requires v == RetryArchives(u) && t == RetryRegisters(v)
    ensures t.gate == u.gate && t.defs.Keys == u.defs.Keys && |t.outbox| == |u.outbox|
    ensures forall k: nat :: k < |u.outbox| ==> t.outbox[k] == Retried(u, k)
    ensures forall n :: n in u.defs ==>
      t.defs[n].asset == u.defs[n].asset && t.defs[n].generation == u.defs[n].generation
    ensures forall n :: n in u.defs ==> t.defs[n].status == u.defs[n].status || t.defs[n].status == Registering
  {
    forall k: nat | k < |u.outbox|
      ensures RetriesRegister(v, k) <==> RetriesRegister(u, k)
    {
    }
  }

  lemma RecoverEffect(s: State, actor: string, owner: Option<nat>, t: State)
    requires Inv(s, false) && s.gate.Some? && (owner.Some? ==> owner == s.gate) && t == RecoverStep(s, actor, owner)
    ensures Recovered(s, actor, t)
  {
    hide RetriesArchive, RetriesRegister, Requeued, RetryArchives, RetryRegisters, SucceedAll, NeedsSuccessor, Inv;
    var names := Sorted(Successions(s));
    var u := SucceedAll(s, names, actor);
    SucceedAllEffect(s, names, actor, u);
    RetryEffect(u, RetryArchives(u), t);
    OldEventsRecovered(s, actor, u, t);
    forall n | n in s.defs
      ensures RowRecovered(s, n, t)
    {
      assert n in names <==> NeedsSuccessor(s, n);
    }
    forall k: nat | |s.outbox| <= k < |t.outbox|
      ensures NewRegister(s, names, actor, t.outbox[k])
    {
      assert NewRegister(s, names, actor, u.outbox[k]);
      NewNotRetried(u, k);
    }
  }

  lemma NewNotRetried(u: State, k: nat)
    requires k < |u.outbox| && u.outbox[k].status != RepairRequired
    ensures !RetriesArchive(u, k) && !RetriesRegister(u, k)
  {
  }

  lemma OldEventsRecovered(s: State, actor: string, u: State, t: State)
    requires Inv(s, false) && u == SucceedAll(s, Sorted(Successions(s)), actor)
    requires s.outbox <= u.outbox && u.clock == s.clock && |t.outbox| == |u.outbox|
    requires forall k: nat :: k < |u.outbox| ==> t.outbox[k] == Retried(u, k)
    ensures forall k: nat :: k < |s.outbox| ==>
      (t.outbox[k] == s.outbox[k]
       || (s.outbox[k].status == RepairRequired && t.outbox[k] == Requeued(s.outbox[k], s.clock)))
    ensures forall k: nat :: k < |s.outbox| && RetriesRegister(s, k) ==> t.outbox[k].status == Pending
    ensures forall k: nat :: Stranded(s, k) ==> t.outbox[k] == s.outbox[k]
  {
    forall k: nat | k < |s.outbox|
      ensures t.outbox[k] == s.outbox[k]
        || (s.outbox[k].status == RepairRequired && t.outbox[k] == Requeued(s.outbox[k], s.clock))
      ensures RetriesRegister(s, k) ==> t.outbox[k].status == Pending
      ensures Stranded(s, k) ==> t.outbox[k] == s.outbox[k]
    {
      SameRetries(s, actor, u, k);
      assert u.outbox[k] == s.outbox[k];
    }
  }

  // ---------------------------------------------------------------- what reset recovery reports

  ghost predicate Distinct(names: seq<Name>) {
    forall j, k :: 0 <= j < k < |names| ==> names[j] != names[k]
  }

  lemma {:induction false} AddMissingLists(listed: seq<Name>, names: seq<Name>)
    ensures forall n :: n in AddMissing(listed, names) <==> n in listed || n in names
    ensures listed <= AddMissing(listed, names)
    ensures Distinct(listed) ==> Distinct(AddMissing(listed, names))
    decreases |names|
  {
    if names != [] {
      AddMissingLists(if names[0] in listed then listed else listed + [names[0]], names[1..]);
      assert forall n :: n in names <==> n == names[0] || n in names[1..];
    }
  }

  ghost predicate Requeues(s: State, t: State, n: Name) {
    exists j: nat :: j < |s.outbox| && j < |t.outbox| && s.outbox[j].name == n
      && s.outbox[j].status == RepairRequired && t.outbox[j].status == Pending
  }

  lemma ArchiveNamesRequeued(u: State, t: State, n: Name)
    requires Inv(u, false) && t == RetryRegisters(RetryArchives(u))
    ensures |t.outbox| == |u.outbox|
    ensures n in ArchiveNames(u) || n in RegisterNames(RetryArchives(u)) <==> n in u.defs && Requeues(u, t, n)
  {
    hide RetriesArchive, RetryArchives, RetryRegisters, RetriesRegister, Inv;
    var v := RetryArchives(u);
    RetryEffect(u, v, t);
    RegisterNamesParked(u, v, n);
    if n in ArchiveNames(u) {
      var j :| 0 <= j < |u.outbox| && RetriesArchive(u, j) && u.outbox[j].name == n;
      RetriedIsParked(u, j);
      assert t.outbox[j] == Retried(u, j);
    } else if n in RegisterNames(v) {
      var j: nat :| RegisterOf(u, n, j);
      ParkedRegisterOf(u, n, j);
      assert t.outbox[j] == Retried(u, j);
    }
    if Requeues(u, t, n) && n in u.defs {
      var j: nat :| j < |u.outbox| && u.outbox[j].name == n && u.outbox[j].status == RepairRequired
        && t.outbox[j].status == Pending;
      assert t.outbox[j] == Retried(u, j);
      if RetriesRegister(u, j) {
        assert RegisterOf(u, n, j);
      } else {
        assert RetriesArchive(u, j);
      }
    }
  }

  lemma ParkedRegisterOf(u: State, n: Name, j: nat)
    requires RegisterOf(u, n, j)
    ensures u.outbox[j].name == n && u.outbox[j].status == RepairRequired && RetriesRegister(u, j)
  {
  }

  lemma RetriedIsParked(u: State, j: nat)
    requires j < |u.outbox| && RetriesArchive(u, j)
    ensures u.outbox[j].status == RepairRequired && u.outbox[j].name in u.defs
  {
  }

  lemma RegisterNamesParked(u: State, v: State, n: Name)
    requires Inv(u, false) && v == RetryArchives(u)
    ensures n in RegisterNames(v) <==> n in u.defs && exists j: nat :: RegisterOf(u, n, j)
  {
    hide Inv, RetriesArchive;
    if n in RegisterNames(v) {
      var j: nat :| j < |v.outbox| && IsCurrent(v.defs[n], v.outbox[j]) && RetriesRegister(v, j);
      SameParkedRegister(u, v, j);
      CurrentIsOwn(u, n, j);
      assert RegisterOf(u, n, j);
    }
    if j: nat :| RegisterOf(u, n, j) && n in u.defs {
      var m :| m in u.defs && IsCurrent(u.defs[m], u.outbox[j]);
      CurrentIsOwn(u, m, j);
      SameParkedRegister(u, v, j);
      assert IsCurrent(v.defs[n], v.outbox[j]) && RetriesRegister(v, j);
    }
  }

  lemma SameParkedRegister(u: State, v: State, j: nat)
    requires v == RetryArchives(u) && j < |u.outbox|
    ensures RetriesRegister(v, j) <==> RetriesRegister(u, j)
    ensures SameEvent(u.outbox[j], v.outbox[j])
  {
  }

  ghost predicate RegisterOf(u: State, n: Name, j: nat) {
    j < |u.outbox| && RetriesRegister(u, j) && u.outbox[j].name == n
  }

  /** Recovery lists, once each, the definitions it re-registered, in name order, and then the
      others of which it requeued an event. */
  lemma RecoveryReports(s: State, actor: string, owner: Option<nat>, t: State)
    requires Inv(s, false) && s.gate.Some? && (owner.Some? ==> owner == s.gate) && t == RecoverStep(s, actor, owner)
    ensures Distinct(RecoveredNames(s, actor)) && Sorted(Successions(s)) <= RecoveredNames(s, actor)
    ensures forall n :: n in RecoveredNames(s, actor) <==> n in s.defs && (NeedsSuccessor(s, n) || Requeues(s, t, n))
  {
    hide Inv, NeedsSuccessor, ArchiveNames, RegisterNames, RetryArchives, RetryRegisters, SucceedAll;
    var names := Sorted(Successions(s));
    var u := SucceedAll(s, names, actor);
    SucceedAllKeeps(s, names, actor, false);
    SucceedAllEffect(s, names, actor, u);
    var archives, registers := Sorted(ArchiveNames(u)), Sorted(RegisterNames(RetryArchives(u)));
    AddMissingLists(names, archives);
    AddMissingLists(AddMissing(names, archives), registers);
    forall n
      ensures n in RecoveredNames(s, actor) <==> n in s.defs && (NeedsSuccessor(s, n) || Requeues(s, t, n))
    {
      ArchiveNamesRequeued(u, t, n);
      SameRequeues(s, u, t, actor, n);
      assert n in names <==> n in s.defs && NeedsSuccessor(s, n);
    }
  }

  lemma SameRequeues(s: State, u: State, t: State, actor: string, n: Name)
    requires s.outbox <= u.outbox && |t.outbox| == |u.outbox|
    requires forall k :: |s.outbox| <= k < |u.outbox| ==> u.outbox[k].status == Pending
    ensures Requeues(s, t, n) <==> Requeues(u, t, n)
  {
    if Requeues(u, t, n) {
      var j: nat :| j < |u.outbox| && u.outbox[j].name == n && u.outbox[j].status == RepairRequired
        && t.outbox[j].status == Pending;
      assert j < |s.outbox| && u.outbox[j] == s.outbox[j];
    }
  }

  /** Recovery makes no two events wait for each other. */
  lemma RecoveryNoNewDeadlock(s: State, actor: string, t: State, i: nat, j: nat)
    requires Inv(s, false) && Recovered(s, actor, t) && Deadlock(t.outbox, i, j)
    ensures Deadlock(s.outbox, i, j)
  {
    assert j < |s.outbox|;
    assert Sound(s.outbox[i], s.nextClaim) && Sound(s.outbox[j], s.nextClaim);
  }

  // ---------------------------------------------------------------- a trapped name stays trapped

  /** What a step must leave in place for a trap to persist. */
  ghost predicate Carries(s: State, t: State, i: nat, r: nat)
    requires i < |s.outbox| && r < |s.outbox|
  {
    && t.gate == s.gate && |s.outbox| <= |t.outbox|
    && (forall k :: 0 <= k < |s.outbox| ==> SameEvent(s.outbox[k], t.outbox[k]))
    && (forall n :: n in t.defs ==> SameRow(s, t, n) || t.defs[n].asset >= s.nextAsset)
    && (forall m :: m in s.defs && Incomplete(s, m) ==> SameRow(s, t, m))
    && SameRow(s, t, s.outbox[r].name) && !Archiving(t.defs[s.outbox[r].name])
    && (forall k: nat :: Stranded(s, k) ==> t.outbox[k].status == RepairRequired)
    && Undelivered(t.outbox[r])
  }

  predicate SameRow(s: State, t: State, n: Name) {
    n in s.defs && n in t.defs && t.defs[n].asset == s.defs[n].asset && t.defs[n].generation == s.defs[n].generation
  }

  lemma StrandedCarried(s: State, t: State, i: nat, r: nat, k: nat)
    requires Inv(s, false) && r < |s.outbox| && i < |s.outbox| && Carries(s, t, i, r) && Stranded(s, k)
    ensures Stranded(t, k) && t.outbox[k].name == s.outbox[k].name
  {
    assert SameEvent(s.outbox[k], t.outbox[k]) && s.outbox[k].asset < s.nextAsset;
    forall n | n in t.defs && IsCurrent(t.defs[n], t.outbox[k])
      ensures n in s.defs && IsCurrent(s.defs[n], s.outbox[k])
    {
    }
  }

  /** A recovery registration with an undelivered event of its name keeps the gate closed. */
  lemma StillIncomplete(t: State, m: Name, c: nat, k: nat)
    requires m in t.defs && c < |t.outbox| && IsCurrent(t.defs[m], t.outbox[c])
    requires t.outbox[c].typ == Register && t.outbox[c].actor == RESET_RECOVERY
    requires k < |t.outbox| && t.outbox[k].name == m && Undelivered(t.outbox[k])
    ensures Incomplete(t, m)
  {
  }

  lemma HoldingCarried(s: State, t: State, i: nat, r: nat, m: Name)
    requires Inv(s, false) && r < |s.outbox| && i < |s.outbox| && Carries(s, t, i, r) && HoldsGate(s, m)
    requires forall a: nat, b: nat :: Deadlock(s.outbox, a, b) ==> Deadlock(t.outbox, a, b)
    ensures HoldsGate(t, m)
  {
    hide Inv, RetriesRegister;
    var c: nat :| c < |s.outbox| && IsCurrent(s.defs[m], s.outbox[c]) && s.outbox[c].typ == Register
      && s.outbox[c].actor == RESET_RECOVERY;
    assert SameEvent(s.outbox[c], t.outbox[c]) && SameRow(s, t, m);
    if Deadlocked(s.outbox, m) {
      var a: nat, b: nat :| Deadlock(s.outbox, a, b) && s.outbox[a].name == m;
      assert Deadlock(t.outbox, a, b) && SameEvent(s.outbox[a], t.outbox[a]);
      StillIncomplete(t, m, c, a);
    } else {
      var k: nat :| Stranded(s, k) && s.outbox[k].name == m;
      StrandedCarried(s, t, i, r, k);
      StrandedWaits(t, k);
      StillIncomplete(t, m, c, k);
    }
  }

  lemma StrandedWaits(s: State, k: nat)
    requires Stranded(s, k)
    ensures k < |s.outbox| && Undelivered(s.outbox[k])
  {
  }

  lemma TrapCarried(s: State, t: State, i: nat, r: nat)
    requires Inv(s, false) && Trap(s, i, r) && Carries(s, t, i, r)
    requires forall a: nat, b: nat :: Deadlock(s.outbox, a, b) ==> Deadlock(t.outbox, a, b)
    ensures Trap(t, i, r)
  {
    var m :| HoldsGate(s, m);
    HoldingCarried(s, t, i, r, m);
    StrandedCarried(s, t, i, r, i);
    assert SameEvent(s.outbox[r], t.outbox[r]);
  }

  /** Rewriting events in place carries the trap unless it reaches a parked event or register
      r, or gives the definition an archive's status. */
  lemma RewriteCarries(s: State, t: State, i: nat, r: nat)
    requires i < |s.outbox| && r < |s.outbox| && Threatened(s, r) && t.gate == s.gate
    requires SameRows(s, t) && SameEvents(s.outbox, t.outbox) && Undelivered(t.outbox[r])
    requires !Archiving(t.defs[s.outbox[r].name])
    requires forall k: nat :: k < |s.outbox| && ParkedOther(s.outbox[k]) ==> ParkedOther(t.outbox[k])
    ensures Carries(s, t, i, r)
  {
    hide Incomplete, RetriesRegister;
    forall n | n in s.defs
      ensures SameRow(s, t, n)
    {
    }
  }

  /** While event i of a name is parked, no worker holds an event of the name. */
  lemma NoneHeld(s: State, i: nat, r: nat, x: nat, claim: nat)
    requires Inv(s, false) && Trap(s, i, r) && Holds(s, x, claim)
    ensures s.outbox[x].name != s.outbox[r].name && !IsCurrent(s.defs[s.outbox[r].name], s.outbox[x])
  {
    hide GateStuck, RetriesRegister;
    var n := s.outbox[r].name;
    if s.outbox[x].name == n {
      ParkedIsHead(s, i, x);
    }
    if IsCurrent(s.defs[n], s.outbox[x]) {
      CurrentIsOwn(s, n, x);
    }
  }

  lemma ReportsPassBy(s: State, step: Step, t: State, i: nat, r: nat)
    requires Inv(s, false) && Trap(s, i, r) && t == Apply(s, step)
    requires step.MarkDelivered? || step.MarkRetry? || step.MarkRepair?
    ensures Carries(s, t, i, r)
  {
    hide GateStuck, RetriesRegister, Inv;
    if Holds(s, step.event, step.claim) {
      NoneHeld(s, i, r, step.event, step.claim);
    }
    RewriteCarries(s, t, i, r);
  }

  /** A definition with a parked event that is no archive is not succeeded, unless it is
      archiving. */
  lemma ParkedNotSucceeded(s: State, i: nat, n: Name)
    requires Inv(s, false) && Stranded(s, i) && s.outbox[i].name == n && n in s.defs && !Archiving(s.defs[n])
    ensures !NeedsSuccessor(s, n)
  {
    forall k: nat | k < |s.outbox| && IsCurrent(s.defs[n], s.outbox[k])
      ensures !ParkedArchive(s.outbox[k])
    {
      CurrentIsOwn(s, n, k);
      if s.outbox[k].status == RepairRequired {
        ParkedIsHead(s, i, k);
        ParkedIsHead(s, k, i);
      }
    }
  }

  lemma RecoveryCarries(s: State, actor: string, t: State, i: nat, r: nat)
    requires Inv(s, false) && Trap(s, i, r) && Recovered(s, actor, t)
    ensures Carries(s, t, i, r)
  {
    hide Incomplete, RetriesRegister, NeedsSuccessor, GateStuck, Inv, Successions, Sorted;
    var n := s.outbox[r].name;
    ParkedNotSucceeded(s, i, n);
    assert RowRecovered(s, n, t);
    forall m | m in s.defs && Incomplete(s, m)
      ensures SameRow(s, t, m)
    {
      IncompleteNotSucceeded(s, m);
      assert RowRecovered(s, m, t);
    }
    forall m | m in t.defs
      ensures SameRow(s, t, m) || t.defs[m].asset >= s.nextAsset
    {
      assert RowRecovered(s, m, t);
    }
    RegisterKeptByRecovery(s, actor, t, r);
  }

  lemma RegisterKeptByRecovery(s: State, actor: string, t: State, r: nat)
    requires Recovered(s, actor, t) && r < |s.outbox| && Undelivered(s.outbox[r])
    ensures Undelivered(t.outbox[r])
  {
  }

  /** Queueing archives frees the gate, and deadlocks the register instead. */
  lemma ArchivingDeadlocks(s: State, actor: string, i: nat, r: nat) returns (j: nat)
    requires Inv(s, false) && Trap(s, i, r)
    ensures Deadlock(QueueStep(s, actor).outbox, r, j)
  {
    var n := s.outbox[r].name;
    QueueAllEffect(s, Sorted(s.defs.Keys), actor, QueueStep(s, actor));
    j := QueueAllReaches(s, Sorted(s.defs.Keys), actor, n);
    ParkedIsHead(s, i, r);
    assert QueueStep(s, actor).outbox[r] == s.outbox[r];
  }

  ghost predicate Doomed(s: State, i: nat, r: nat) {
    Trap(s, i, r) || exists j :: Deadlock(s.outbox, r, j)
  }

  lemma StepDooms(s: State, step: Step, i: nat, r: nat)
    requires Inv(s, false) && Doomed(s, i, r)
    ensures Doomed(Apply(s, step), i, r)
  {
    hide Apply, Inv, Trap, Carries, Deadlock;
    var t := Apply(s, step);
    if j :| Deadlock(s.outbox, r, j) {
      DeadlockStays(s, step, r, j);
    } else if step.QueueArchives? {
      var j := ArchivingDeadlocks(s, step.actor, i, r);
      QueueIsApplied(s, step);
    } else {
      StepCarries(s, step, t, i, r);
      forall a: nat, b: nat | Deadlock(s.outbox, a, b)
        ensures Deadlock(t.outbox, a, b)
      {
        DeadlockStays(s, step, a, b);
      }
      TrapCarried(s, t, i, r);
    }
  }

  /** With the gate closed nobody changes a definition, and a stuck gate is not opened. */
  lemma RefusedWhileTrapped(s: State, step: Step, i: nat, r: nat)
    requires Trap(s, i, r)
    requires step.Create? || step.RefreshLayer? || step.ReplaceLayer? || step.Drop? || step.Repair?
      || step.BeginReset? || step.CompleteReset?
    ensures Apply(s, step) == s
  {
    hide Stranded, Threatened;
    if step.CompleteReset? {
      var m :| HoldsGate(s, m);
      assert Incomplete(s, m);
    }
  }

  lemma QueueIsApplied(s: State, step: Step)
    requires step.QueueArchives?
    ensures Apply(s, step) == QueueStep(s, step.actor)
  {
  }

  lemma StepCarries(s: State, step: Step, t: State, i: nat, r: nat)
    requires Inv(s, false) && Trap(s, i, r) && !step.QueueArchives? && t == Apply(s, step)
    ensures Carries(s, t, i, r)
  {
    hide GateStuck, RetriesRegister, Inv, RecoverStep, Incomplete, Chosen;
    match step
    case MarkDelivered(_, _, _) => ReportsPassBy(s, step, t, i, r);
    case MarkRetry(_, _, _) => ReportsPassBy(s, step, t, i, r);
    case MarkRepair(_, _) => ReportsPassBy(s, step, t, i, r);
    case Claim(_, _) => RewriteCarries(s, t, i, r);
    case RequeueRepairs => RewriteCarries(s, t, i, r);
    case Tick(_) => RewriteCarries(s, t, i, r);
    case RecoverReset(a, o) =>
      if o.Some? && o != s.gate {
        RecoveryRefused(s, a, o);
        RewriteCarries(s, t, i, r);
      } else {
        RecoverEffect(s, a, o, t);
        RecoveryCarries(s, a, t, i, r);
      }
    case _ =>
      RefusedWhileTrapped(s, step, i, r);
      RewriteCarries(s, t, i, r);
  }

  lemma RecoveryRefused(s: State, actor: string, owner: Option<nat>)
    requires owner.Some? && owner != s.gate
    ensures RecoverStep(s, actor, owner) == s
  {
  }

  lemma {:induction false} DoomedForever(s: State, steps: seq<Step>, i: nat, r: nat)
    requires Inv(s, false) && Doomed(s, i, r)
    ensures Doomed(Run(s, steps), i, r)
    decreases |steps|
  {
    if steps != [] {
      StepDooms(s, steps[0], i, r);
      StepKeeps(s, steps[0], false);
      DoomedForever(Apply(s, steps[0]), steps[1..], i, r);
    }
  }

  // ---------------------------------------------------------------- opening the gate

  /** The definitions that keep the gate closed can all be completed by the workers. */
  ghost predicate Completable(s: State) {
    forall m :: m in s.defs && Incomplete(s, m) ==> ParkedRepairable(s, m) && !Deadlocked(s.outbox, m)
  }

  /** The recovery registration and the undelivered event that make a definition incomplete. */
  lemma WaitsFor(t: State, m: Name) returns (c: nat, k: nat)
    requires Inv(t, false) && m in t.defs && Incomplete(t, m)
    ensures c < |t.outbox| && IsCurrent(t.defs[m], t.outbox[c])
    ensures t.outbox[c].typ == Register && t.outbox[c].actor == RESET_RECOVERY
    ensures k < |t.outbox| && t.outbox[k].name == m && Undelivered(t.outbox[k])
  {
    c :| c < |t.outbox| && IsCurrent(t.defs[m], t.outbox[c]) && t.outbox[c].typ == Register
      && t.outbox[c].actor == RESET_RECOVERY;
    CurrentIsOwn(t, m, c);
    assert Agrees(t.defs[m], t.outbox[c], false);
    k := c;
    if t.defs[m].status == Ready {
      k :| k < |t.outbox| && t.outbox[k].name == m && Undelivered(t.outbox[k]);
    }
  }

  /** A run of requeues, claims and deliveries makes no definition incomplete. */
  lemma IncompleteBefore(s: State, t: State, m: Name)
    requires Inv(t, false) && AdvancedTo(s, t) && m in t.defs && Incomplete(t, m)
    ensures Incomplete(s, m)
  {
    var c, k := WaitsFor(t, m);
    assert Advanced(s.outbox[c], t.outbox[c]) && Advanced(s.outbox[k], t.outbox[k]);
    StillIncomplete(s, m, c, k);
  }

  lemma DrainedIsComplete(t: State, m: Name)
    requires Inv(t, false) && m in t.defs && Drained(t.outbox, m)
    ensures !Incomplete(t, m)
  {
    forall c: nat | c < |t.outbox| && IsCurrent(t.defs[m], t.outbox[c]) && t.outbox[c].typ == Register
      ensures t.defs[m].status == Ready
    {
      CurrentIsOwn(t, m, c);
      assert Agrees(t.defs[m], t.outbox[c], false);
    }
  }

  ghost function IncompleteNames(s: State): set<Name> {
    set m | m in s.defs && Incomplete(s, m)
  }

  /** Draining the incomplete definitions one after the other completes them all. */
  lemma {:induction false} CompleteAll(s: State) returns (steps: seq<Step>)
    requires Inv(s, false) && Completable(s)
    ensures AdvancedTo(s, Run(s, steps)) && IncompleteNames(Run(s, steps)) == {}
    decreases |IncompleteNames(s)|
  {
    if IncompleteNames(s) == {} {
      steps := [];
    } else {
      var m :| m in IncompleteNames(s);
      var first := Drain(s, m);
      var t := Run(s, first);
      RunKeeps(s, first, false);
      StillCompletable(s, t, m);
      var rest := CompleteAll(t);
      steps := first + rest;
      RunAppend(s, first, rest);
      AdvancedTrans(s, t, Run(t, rest));
    }
  }

  lemma StillCompletable(s: State, t: State, m: Name)
    requires Inv(t, false) && AdvancedTo(s, t) && Completable(s)
    requires m in IncompleteNames(s) && Drained(t.outbox, m)
    ensures Completable(t) && |IncompleteNames(t)| < |IncompleteNames(s)|
  {
    hide Incomplete, Inv;
    forall x | x in t.defs && Incomplete(t, x)
      ensures x in IncompleteNames(s) && ParkedRepairable(t, x) && !Deadlocked(t.outbox, x)
    {
      IncompleteBefore(s, t, x);
      StillDrainable(s, t, x);
    }
    DrainedIsComplete(t, m);
    BelowSmaller(IncompleteNames(t), IncompleteNames(s));
  }

  /** After one recovery by an operator, the gate can be worked open unless it is stuck. */
  lemma RecoveryCompletable(s: State, actor: string, t: State)
    requires Inv(s, false) && Inv(t, false) && !GateStuck(s) && actor != RESET_RECOVERY && Recovered(s, actor, t)
    ensures Completable(t)
  {
    forall m | m in t.defs && Incomplete(t, m)
      ensures ParkedRepairable(t, m) && !Deadlocked(t.outbox, m)
    {
      IncompleteBeforeRecovery(s, actor, t, m);
      assert !HoldsGate(s, m);
      NotHeldAfterRecovery(s, actor, t, m);
    }
  }

  lemma IncompleteBeforeRecovery(s: State, actor: string, t: State, m: Name)
    requires Inv(s, false) && Inv(t, false) && actor != RESET_RECOVERY && Recovered(s, actor, t)
    requires m in t.defs && Incomplete(t, m)
    ensures Incomplete(s, m) && !NeedsSuccessor(s, m)
  {
    hide NeedsSuccessor, RetriesRegister, Incomplete, Recovered;
    var c, k := WaitsFor(t, m);
    OldRegistration(s, actor, t, m, c);
    OldEvent(s, actor, t, m, k);
    StillIncomplete(s, m, c, k);
  }

  lemma OldRegistration(s: State, actor: string, t: State, m: Name, c: nat)
    requires AssetsOrdered(s) && actor != RESET_RECOVERY && Recovered(s, actor, t) && m in t.defs
    requires c < |t.outbox| && IsCurrent(t.defs[m], t.outbox[c]) && t.outbox[c].actor == RESET_RECOVERY
    ensures m in s.defs && !NeedsSuccessor(s, m)
    ensures c < |s.outbox| && SameEvent(s.outbox[c], t.outbox[c]) && IsCurrent(s.defs[m], s.outbox[c])
  {
    hide NeedsSuccessor, RetriesRegister;
    assert c < |s.outbox|;
    assert RowRecovered(s, m, t);
  }

  lemma OldEvent(s: State, actor: string, t: State, m: Name, k: nat)
    requires Recovered(s, actor, t) && m in s.defs && !NeedsSuccessor(s, m)
    requires k < |t.outbox| && t.outbox[k].name == m && Undelivered(t.outbox[k])
    ensures k < |s.outbox| && s.outbox[k].name == m && Undelivered(s.outbox[k])
  {
    hide NeedsSuccessor, RetriesRegister;
    NoNewEvent(s, actor, t, m);
  }

  lemma NoNewEvent(s: State, actor: string, t: State, m: Name)
    requires Recovered(s, actor, t) && m in s.defs && !NeedsSuccessor(s, m)
    ensures forall k :: |s.outbox| <= k < |t.outbox| ==> t.outbox[k].name != m
  {
    hide NeedsSuccessor, RetriesRegister;
    forall k | |s.outbox| <= k < |t.outbox|
      ensures t.outbox[k].name != m
    {
      assert NewRegister(s, Sorted(Successions(s)), actor, t.outbox[k]);
    }
  }

  lemma NotHeldAfterRecovery(s: State, actor: string, t: State, m: Name)
    requires Inv(s, false) && Recovered(s, actor, t) && m in s.defs && !NeedsSuccessor(s, m)
    requires !Deadlocked(s.outbox, m) && !StrandedUnder(s, m)
    ensures ParkedRepairable(t, m) && !Deadlocked(t.outbox, m)
  {
    hide NeedsSuccessor, RetriesRegister, Inv;
    NoNewEvent(s, actor, t, m);
    forall i: nat, j: nat | Deadlock(t.outbox, i, j) && t.outbox[i].name == m
      ensures false
    {
      RecoveryNoNewDeadlock(s, actor, t, i, j);
    }
    forall k: nat | k < |t.outbox| && t.outbox[k].name == m
      ensures Repairable(t, k)
    {
      assert !Stranded(s, k);
    }
  }

  // ---------------------------------------------------------------- reaching a parked head

  /** Once the gate no longer stands in its way, event i is delivered or can be repaired, and
      no register of interest, nor any new one, waits for anything it did not wait for. */
  ghost predicate Freed(s: State, t: State, i: nat, rs: set<nat>)
    requires i < |s.outbox|
  {
    && |s.outbox| <= |t.outbox| && (forall k :: 0 <= k < |s.outbox| ==> SameEvent(s.outbox[k], t.outbox[k]))
    && ParkedRepairable(t, s.outbox[i].name)
    && (t.outbox[i].status == Delivered || Head(t.outbox, i))
    && forall r: nat, j: nat :: Deadlock(t.outbox, r, j) && (r in rs || r >= |s.outbox|) ==> Deadlock(s.outbox, r, j)
  }

  /** Nothing of a name is parked but its head. */
  lemma OnlyHeadParked(s: State, i: nat)
    requires Inv(s, false) && i < |s.outbox| && Head(s.outbox, i) && Repairable(s, i)
    ensures ParkedRepairable(s, s.outbox[i].name)
  {
    forall k: nat | k < |s.outbox| && s.outbox[k].name == s.outbox[i].name
      ensures Repairable(s, k)
    {
      if s.outbox[k].status == RepairRequired {
        ParkedIsHead(s, k, i);
        assert EarlierDelivered(s.outbox, i);
      }
    }
  }

  /** The parked registration of the reset itself is requeued by recovery. */
  lemma FreeByRecovery(s: State, i: nat, rs: set<nat>) returns (steps: seq<Step>)
    requires Inv(s, false) && i < |s.outbox| && Head(s.outbox, i) && s.gate.Some? && RetriesRegister(s, i)
    ensures Inv(Run(s, steps), false) && Freed(s, Run(s, steps), i, rs)
  {
    hide RetriesRegister, NeedsSuccessor;
    var step := RecoverReset("operator", None);
    steps := [step];
    RunOne(s, step);
    var t := Apply(s, step);
    StepKeeps(s, step, false);
    RecoverEffect(s, "operator", None, t);
    HeadAfterRecovery(s, "operator", t, i);
    OnlyHeadParked(t, i);
    DeadlocksAfterRecovery(s, "operator", t);
  }

  lemma HeadAfterRecovery(s: State, actor: string, t: State, i: nat)
    requires i < |s.outbox| && Head(s.outbox, i) && Recovered(s, actor, t)
    ensures Head(t.outbox, i)
  {
  }

  lemma DeadlocksAfterRecovery(s: State, actor: string, t: State)
    requires Inv(s, false) && Recovered(s, actor, t)
    ensures forall r: nat, j: nat :: Deadlock(t.outbox, r, j) ==> Deadlock(s.outbox, r, j)
  {
    forall r: nat, j: nat | Deadlock(t.outbox, r, j)
      ensures Deadlock(s.outbox, r, j)
    {
      RecoveryNoNewDeadlock(s, actor, t, r, j);
    }
  }

  /** A gate that is not stuck is worked open: recover, complete the waiting definitions, close
      the reset. */
  lemma FreeByCompleting(s: State, i: nat, rs: set<nat>) returns (steps: seq<Step>)
    requires Inv(s, false) && i < |s.outbox| && Head(s.outbox, i) && s.gate.Some? && !GateStuck(s)
    ensures Inv(Run(s, steps), false) && Freed(s, Run(s, steps), i, rs)
  {
    hide Inv, GateStuck, Incomplete, Recovered;
    var step := RecoverReset("operator", None);
    var t := Apply(s, step);
    RunOne(s, step);
    StepKeeps(s, step, false);
    RecoverEffect(s, "operator", None, t);
    RecoveryCompletable(s, "operator", t);
    var work := CompleteAll(t);
    var u := Run(t, work);
    RunKeeps(t, work, false);
    var close := CompleteReset(s.gate.value);
    var v := Apply(u, close);
    StepKeeps(u, close, false);
    RunOne(u, close);
    steps := [step] + (work + [close]);
    RunAppend(s, [step], work + [close]);
    RunAppend(t, work, [close]);
    FreedByCompleting(s, t, u, v, i, rs);
  }

  lemma FreedByCompleting(s: State, t: State, u: State, v: State, i: nat, rs: set<nat>)
    requires Inv(s, false) && i < |s.outbox| && Head(s.outbox, i) && s.gate.Some? && Recovered(s, "operator", t)
    requires AdvancedTo(t, u) && IncompleteNames(u) == {} && v == CompleteStep(u, s.gate.value)
    ensures Freed(s, v, i, rs)
  {
    hide RetriesRegister, NeedsSuccessor, Incomplete, Inv;
    forall m | m in u.defs
      ensures !Incomplete(u, m)
    {
      assert m !in IncompleteNames(u);
    }
    assert v == u.(gate := None);
    HeadAfterRecovery(s, "operator", t, i);
    if Undelivered(u.outbox[i]) {
      HeadStays(t, u, i);
    }
    DeadlocksAfterRecovery(s, "operator", t);
    forall r: nat, j: nat | Deadlock(u.outbox, r, j)
      ensures Deadlock(s.outbox, r, j)
    {
      NoNewDeadlock(t, u, r, j);
    }
    forall k: nat | k < |s.outbox|
      ensures SameEvent(s.outbox[k], v.outbox[k])
    {
      assert Advanced(t.outbox[k], u.outbox[k]);
    }
  }

  /** Archiving everything once more opens any gate. */
  lemma FreeByArchiving(s: State, i: nat, rs: set<nat>) returns (steps: seq<Step>)
    requires Inv(s, false) && i < |s.outbox| && Head(s.outbox, i) && s.gate.Some?
    requires forall r :: r in rs ==> !Threatened(s, r)
    ensures Inv(Run(s, steps), false) && Freed(s, Run(s, steps), i, rs)
  {
    hide Incomplete, Apply, Inv, Freed, Threatened, NewArchive;
    var queue := QueueArchives("operator");
    var t := Apply(s, queue);
    StepKeeps(s, queue, false);
    QueueIsApplied(s, queue);
    QueueAllEffect(s, Sorted(s.defs.Keys), "operator", t);
    var close := CompleteReset(s.gate.value);
    forall m | m in t.defs
      ensures !Incomplete(t, m)
    {
      ArchivingCompletes(t, m);
    }
    NoneIncompleteCloses(t, s.gate.value);
    StepKeeps(t, close, false);
    steps := [queue] + [close];
    RunAppend(s, [queue], [close]);
    RunOne(s, queue);
    RunOne(t, close);
    FreedByArchiving(s, t, i, rs);
  }

  lemma NoneIncompleteCloses(t: State, owner: nat)
    requires t.gate == Some(owner) && forall m :: m in t.defs ==> !Incomplete(t, m)
    ensures Apply(t, CompleteReset(owner)) == t.(gate := None)
  {
    hide Incomplete;
  }

  lemma FreedByArchiving(s: State, t: State, i: nat, rs: set<nat>)
    requires i < |s.outbox| && Head(s.outbox, i) && s.outbox <= t.outbox
    requires forall k :: |s.outbox| <= k < |t.outbox| ==> NewArchive(s, t.outbox[k])
    requires forall r :: r in rs ==> !Threatened(s, r)
    ensures Freed(s, t.(gate := None), i, rs)
  {
    forall k: nat | k < |s.outbox|
      ensures t.outbox[k] == s.outbox[k]
    {
    }
    forall r: nat, j: nat | Deadlock(t.outbox, r, j)
      ensures r < |s.outbox| && (Deadlock(s.outbox, r, j) || Threatened(s, r))
    {
      ArchiveThreatens(s, t, r, j);
    }
  }

  lemma ArchiveThreatens(s: State, t: State, r: nat, j: nat)
    requires s.outbox <= t.outbox && Deadlock(t.outbox, r, j)
    requires forall k :: |s.outbox| <= k < |t.outbox| ==> NewArchive(s, t.outbox[k])
    ensures r < |s.outbox| && (Deadlock(s.outbox, r, j) || Threatened(s, r))
  {
    assert r < |s.outbox|;
    assert t.outbox[r] == s.outbox[r];
    if j < |s.outbox| {
      assert t.outbox[j] == s.outbox[j];
    } else {
      assert NewArchive(s, t.outbox[j]);
    }
  }

  /** A head is freed without harm to registers that are not trapped with it. */
  lemma Free(s: State, i: nat, rs: set<nat>) returns (steps: seq<Step>)
    requires Inv(s, false) && i < |s.outbox| && Head(s.outbox, i)
    requires forall r :: r in rs ==> r < |s.outbox| && s.outbox[r].name == s.outbox[i].name && !Trap(s, i, r)
    ensures Inv(Run(s, steps), false) && Freed(s, Run(s, steps), i, rs)
  {
    hide GateStuck, RetriesRegister, Inv;
    if Repairable(s, i) {
      OnlyHeadParked(s, i);
      steps := [];
    } else if RetriesRegister(s, i) {
      steps := FreeByRecovery(s, i, rs);
    } else if GateStuck(s) {
      steps := FreeByArchiving(s, i, rs);
    } else {
      steps := FreeByCompleting(s, i, rs);
    }
  }

  // ---------------------------------------------------------------- exactly when a name drains

  /** Some event of the name is stranded behind the gate that a register of the name holds. */
  ghost predicate Trapped(s: State, n: Name) {
    exists i: nat, r: nat :: Trap(s, i, r) && s.outbox[i].name == n
  }

  function EventsOf(s: State, n: Name): set<nat> {
    set r: nat | r < |s.outbox| && s.outbox[r].name == n
  }

  lemma FreedStillDeadlocked(s: State, t: State, i: nat, n: Name)
    requires i < |s.outbox| && Freed(s, t, i, EventsOf(s, n)) && Deadlocked(t.outbox, n)
    ensures Deadlocked(s.outbox, n)
  {
    var r: nat, j: nat :| Deadlock(t.outbox, r, j) && t.outbox[r].name == n;
    if r < |s.outbox| {
      assert SameEvent(s.outbox[r], t.outbox[r]) && r in EventsOf(s, n);
    }
    assert Deadlock(s.outbox, r, j);
  }

  lemma DrainFreed(s: State, n: Name) returns (steps: seq<Step>)
    requires Inv(s, false) && !Deadlocked(s.outbox, n) && !Trapped(s, n)
    ensures Drained(Run(s, steps).outbox, n)
  {
    hide Trap, Inv;
    NoneLeft(s.outbox, n, |s.outbox|);
    if Left(s.outbox, n, |s.outbox|) == 0 {
      steps := [];
    } else {
      var i := EarliestLeft(s.outbox, n, |s.outbox|);
      var rs := EventsOf(s, n);
      var first := Free(s, i, rs);
      var t := Run(s, first);
      if Deadlocked(t.outbox, n) {
        FreedStillDeadlocked(s, t, i, n);
      }
      var rest := Drain(t, n);
      steps := first + rest;
      RunAppend(s, first, rest);
    }
  }

  /** In every reachable state a name has a run that delivers all its events exactly when no
      unclaimed register of it waits for a later archive of another asset, and none of its
      events is trapped behind the gate. */
  lemma DrainsIff(s: State, n: Name)
    requires Reachable(s)
    ensures (exists steps :: Drains(s, steps, n)) <==> !Deadlocked(s.outbox, n) && !Trapped(s, n)
  {
    hide Trap, Inv;
    ReachableInv(s);
    if Deadlocked(s.outbox, n) || Trapped(s, n) {
      var r := DoomedRegister(s, n);
      forall steps
        ensures !Drains(s, steps, n)
      {
        DoomedNeverDelivered(s, steps, r.0, r.1);
        DeliveredForGood(s, steps);
        assert SameEvent(s.outbox[r.1], Run(s, steps).outbox[r.1]);
      }
    } else {
      var steps := DrainFreed(s, n);
      assert Drains(s, steps, n);
    }
  }

  lemma DoomedRegister(s: State, n: Name) returns (ir: (nat, nat))
    requires Deadlocked(s.outbox, n) || Trapped(s, n)
    ensures Doomed(s, ir.0, ir.1) && ir.1 < |s.outbox| && s.outbox[ir.1].name == n
  {
    if Deadlocked(s.outbox, n) {
      var i: nat, j: nat :| Deadlock(s.outbox, i, j) && s.outbox[i].name == n;
      ir := (i, i);
    } else {
      var i: nat, r: nat :| Trap(s, i, r) && s.outbox[i].name == n;
      ir := (i, r);
    }
  }

  lemma DoomedNeverDelivered(s: State, steps: seq<Step>, i: nat, r: nat)
    requires Inv(s, false) && Doomed(s, i, r)
    ensures r < |Run(s, steps).outbox| && Undelivered(Run(s, steps).outbox[r])
  {
    DoomedForever(s, steps, i, r);
  }

  /** In every reachable state the earliest undelivered event of a name has a run that
      delivers it exactly when it neither waits unclaimed for a later archive of another asset
      nor holds the gate against its own repair. */
  lemma HeadDeliversIff(s: State, i: nat)
    requires Reachable(s) && i < |s.outbox| && Head(s.outbox, i)
    ensures (exists steps :: Delivers(s, steps, i)) <==> !(exists j :: Deadlock(s.outbox, i, j)) && !Trap(s, i, i)
  {
    hide Trap, Inv;
    ReachableInv(s);
    if Doomed(s, i, i) {
      forall steps
        ensures !Delivers(s, steps, i)
      {
        DoomedNeverDelivered(s, steps, i, i);
      }
    } else {
      var first := Free(s, i, {i});
      var t := Run(s, first);
      if t.outbox[i].status == Delivered {
        assert Delivers(s, first, i);
      } else {
        var rest := DeliverHead(t, i);
        RunAppend(s, first, rest);
        assert Delivers(s, first + rest, i);
      }
    }
  }
}
