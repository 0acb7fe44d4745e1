/** The derived-layer store as the mutable object it is: one method per transaction, each
    taking the tables from one state to the next. */
module OutboxStore {
  import opened Wrappers
  import opened OutboxModel

  datatype StoreError = ChangesPaused | AlreadyExists | NotFound | NotMaterialized | NothingToRepair
                      | InvalidClaim | ResetInProgress | WrongOwner | NoReset | StillWaiting

  // ---------------------------------------------------------------- what the loops have done so far

  /** The rows once these events have been given the lease. */
  function LeasedRows(o: seq<Event>, claimed: seq<nat>, lease: Lease): seq<Event> {
    seq(|o|, k requires 0 <= k < |o| => if k in claimed then ClaimOne(o[k], lease) else o[k])
  }

  lemma LeaseOneMore(o: seq<Event>, clock: int, limit: nat, i: nat, lease: Lease)
    requires i < |o|
    ensures var claimed := Candidates(o, clock, limit, i);
      if |claimed| < limit && Claimable(o, clock, i) then
        && Candidates(o, clock, limit, i + 1) == claimed + [i]
        && LeasedRows(o, claimed + [i], lease) == LeasedRows(o, claimed, lease)[i := ClaimOne(o[i], lease)]
      else
        Candidates(o, clock, limit, i + 1) == claimed
  {
    var claimed := Candidates(o, clock, limit, i);
    assert Chosen(o, clock, limit, i) <==> |claimed| < limit && Claimable(o, clock, i);
    if Chosen(o, clock, limit, i) {
      assert forall k :: k in claimed + [i] <==> k in claimed || k == i;
    }
  }

  lemma LeasedRowsMean(o: seq<Event>, claimed: seq<nat>, lease: Lease)
    ensures |LeasedRows(o, claimed, lease)| == |o|
    ensures forall i: nat :: i < |o| && i !in claimed ==> LeasedRows(o, claimed, lease)[i] == o[i]
    ensures forall i: nat :: i < |o| && i in claimed ==> LeasedRows(o, claimed, lease)[i] == o[i].(claim := Some(lease))
  {
  }

  lemma LeasedIsClaimed(o: seq<Event>, clock: int, limit: nat, lease: Lease)
    ensures LeasedRows(o, Candidates(o, clock, limit, |o|), lease) == ClaimAll(o, clock, limit, lease)
    ensures LeasedRows(o, [], lease) == o
  {
    hide Chosen;
  }

  /** The rows once the parked reset archives of these names have been requeued. */
  function ArchivesRetried(s: State, names: seq<Name>): (r: seq<Event>)
    ensures |r| == |s.outbox|
  {
    seq(|s.outbox|, j requires 0 <= j < |s.outbox| =>
      if RetriesArchive(s, j) && s.outbox[j].name in names then Requeued(s.outbox[j], s.clock) else s.outbox[j])
  }

  lemma RetryOneMore(s: State, names: seq<Name>, n: Name, table: seq<Event>)
    requires |table| == |s.outbox|
    requires forall j: nat :: j < |table| ==>
      table[j] == if RetriesArchive(s, j) && s.outbox[j].name == n then Requeued(s.outbox[j], s.clock)
                  else ArchivesRetried(s, names)[j]
    ensures table == ArchivesRetried(s, names + [n])
  {
    hide RetriesArchive;
    assert forall m :: m in names + [n] <==> m in names || m == n;
  }

  lemma AllRetried(s: State)
    ensures ArchivesRetried(s, []) == s.outbox
    ensures s.(outbox := ArchivesRetried(s, Sorted(ArchiveNames(s)))) == RetryArchives(s)
  {
    hide RetriesArchive;
    forall j: nat | j < |s.outbox| && RetriesArchive(s, j)
      ensures s.outbox[j].name in Sorted(ArchiveNames(s))
    {
      assert s.outbox[j].name in ArchiveNames(s);
    }
  }

  predicate RetriedFor(s: State, names: seq<Name>, e: Event) {
    ParkedRecovery(e) && exists n :: n in names && n in s.defs && IsCurrent(s.defs[n], e)
  }

  /** The definitions and the rows once the parked registrations of these definitions have
      been requeued. */
  function RegistersRetried(s: State, names: seq<Name>): (r: State)
    ensures |r.outbox| == |s.outbox| && r.defs.Keys == s.defs.Keys
  {
    s.(outbox := seq(|s.outbox|, j requires 0 <= j < |s.outbox| =>
         if RetriedFor(s, names, s.outbox[j])
         then Requeued(s.outbox[j], s.clock)
         else s.outbox[j]),
       defs := map n | n in s.defs :: if n in names then Marked(s.defs[n], Registering, Some(None)) else s.defs[n])
  }

  /** Requeue the parked registrations that definition n is current on, and mark it. */
  function RetryDefinition(s: State, t: State, n: Name): State
    requires n in s.defs && n in t.defs && |t.outbox| == |s.outbox|
  {
    t.(outbox := seq(|s.outbox|, j requires 0 <= j < |s.outbox| =>
         if ParkedRecovery(s.outbox[j]) && IsCurrent(s.defs[n], s.outbox[j]) then Requeued(s.outbox[j], s.clock)
         else t.outbox[j]),
       defs := t.defs[n := t.defs[n].(status := Registering, revision := None)])
  }

  lemma RetryDefinitionOneMore(s: State, names: seq<Name>, n: Name)
    requires n in s.defs && n !in names
    ensures RetryDefinition(s, RegistersRetried(s, names), n) == RegistersRetried(s, names + [n])
  {
    assert forall m :: m in names + [n] <==> m in names || m == n;
    var t := RegistersRetried(s, names);
    var u := RetryDefinition(s, t, n);
    var v := RegistersRetried(s, names + [n]);
    assert u.defs == v.defs;
    forall j: nat | j < |s.outbox|
      ensures u.outbox[j] == v.outbox[j]
    {
      assert IsCurrent(s.defs[n], s.outbox[j]) ==> n in names + [n];
    }
    assert u.outbox == v.outbox;
  }

  lemma AllRegistersRetried(s: State)
    ensures RegistersRetried(s, []) == s
    ensures RegistersRetried(s, Sorted(RegisterNames(s))) == RetryRegisters(s)
  {
    var names := Sorted(RegisterNames(s));
    forall j: nat | j < |s.outbox|
      ensures RetriesRegister(s, j) <==> RetriedFor(s, names, s.outbox[j])
      ensures !RetriedFor(s, [], s.outbox[j])
    {
      RetriedForAll(s, j);
    }
    SameButRetried(s, names);
  }

  lemma RetriedForAll(s: State, j: nat)
    requires j < |s.outbox|
    ensures RetriesRegister(s, j) <==> RetriedFor(s, Sorted(RegisterNames(s)), s.outbox[j])
  {
    if RetriesRegister(s, j) {
      var n :| n in s.defs && IsCurrent(s.defs[n], s.outbox[j]);
      assert RetriesDefinition(s, n);
      assert n in RegisterNames(s);
    }
  }

  lemma SameButRetried(s: State, names: seq<Name>)
    requires names == Sorted(RegisterNames(s))
    requires forall j: nat :: j < |s.outbox| ==> (RetriesRegister(s, j) <==> RetriedFor(s, names, s.outbox[j]))
    requires forall j: nat :: j < |s.outbox| ==> !RetriedFor(s, [], s.outbox[j])
    ensures RegistersRetried(s, []) == s && RegistersRetried(s, names) == RetryRegisters(s)
  {
    hide RetriesRegister, RetriedFor, RetriesDefinition;
    assert forall n :: n in s.defs ==> (n in names <==> n in RegisterNames(s));
    assert RegistersRetried(s, []).defs == s.defs && RegistersRetried(s, []).outbox == s.outbox;
    assert RegistersRetried(s, names).defs == RetryRegisters(s).defs;
    assert RegistersRetried(s, names).outbox == RetryRegisters(s).outbox;
  }

  class DerivedLayerStore {
    var defs: map<Name, Definition>
    var outbox: seq<Event>
    var gate: Option<nat>
    var clock: int
    var nextAsset: nat
    var nextClaim: nat

    function State(): State
      reads this
    {
      OutboxModel.State(defs, outbox, gate, clock, nextAsset, nextClaim)
    }

    constructor ()
      ensures State() == Empty
    {
      defs, outbox, gate, clock, nextAsset, nextClaim := map[], [], None, 0, 0, 0;
    }

    method Enqueue(name: Name, d: Definition, typ: EventType, actor: string, predecessor: Option<nat>)
      modifies this`defs, this`outbox
      ensures State() == Announce(old(State()), name, d, typ, actor, predecessor)
    {
      defs := defs[name := d];
      outbox := outbox + [Event(name, d.asset, typ, d.generation, actor, predecessor, Pending, 0, clock, None, None)];
    }

    method Create(name: Name, materialized: bool, actor: string) returns (r: Result<nat, StoreError>)
      modifies this
      ensures State() == CreateStep(old(State()), name, materialized, actor)
      ensures r.Ok? <==> old(gate).None? && name !in old(defs)
      ensures r.Ok? ==> r.value == old(nextAsset)
    {
      if gate.Some? {
        return Err(ChangesPaused);
      }
      if name in defs {
        return Err(AlreadyExists);
      }
      var asset := nextAsset;
      Enqueue(name, Definition(asset, 1, Registering, None, materialized), Register, actor, None);
      nextAsset := nextAsset + 1;
      return Ok(asset);
    }

    method Refresh(name: Name, actor: string) returns (r: Result<nat, StoreError>)
      modifies this
      ensures State() == RefreshStep(old(State()), name, actor)
      ensures r.Ok? <==> old(gate).None? && name in old(defs) && old(defs)[name].materialized
    {
      if gate.Some? {
        return Err(ChangesPaused);
      }
      if name !in defs {
        return Err(NotFound);
      }
      var d := defs[name];
      if !d.materialized {
        return Err(NotMaterialized);
      }
      d := d.(generation := d.generation + 1, status := Registering, revision := None);
      Enqueue(name, d, EventType.Refresh, actor, None);
      return Ok(d.generation);
    }

    method Replace(name: Name, materialized: bool, actor: string) returns (r: Result<nat, StoreError>)
      modifies this
      ensures State() == ReplaceStep(old(State()), name, materialized, actor)
      ensures r.Ok? <==> old(gate).None? && name in old(defs)
    {
      if gate.Some? {
        return Err(ChangesPaused);
      }
      if name !in defs {
        return Err(NotFound);
      }
      var d := defs[name];
      d := d.(generation := d.generation + 1, status := Registering, revision := None, materialized := materialized);
      Enqueue(name, d, EventType.Replace, actor, None);
      return Ok(d.generation);
    }

    method Drop(name: Name, actor: string) returns (r: Result<nat, StoreError>)
      modifies this
      ensures State() == DropStep(old(State()), name, actor)
      ensures r.Ok? <==> old(gate).None? && name in old(defs)
    {
      if gate.Some? {
        return Err(ChangesPaused);
      }
      if name !in defs {
        return Err(NotFound);
      }
      var d := defs[name];
      d := d.(generation := d.generation + 1, status := PendingArchive, revision := None);
      Enqueue(name, d, Archive, actor, None);
      defs := defs - {name};
      return Ok(d.generation);
    }

    /** One `UPDATE … FROM candidates`, as the scan in creation order that it is: the earliest
        claimable events, up to the limit, get the new lease; nothing claimable is passed over
        for a later one, and every other row is left as it was. */
    method ClaimSemanticEvents(limit: int, leaseSeconds: int) returns (r: Result<seq<nat>, StoreError>)
      modifies this`outbox, this`nextClaim
      ensures r.Ok? <==> 1 <= limit <= 1000 && 15 <= leaseSeconds <= 600
      ensures r.Err? ==> State() == old(State())
      ensures r.Ok? ==> nextClaim == old(nextClaim) + 1 && |outbox| == |old(outbox)|
      ensures r.Ok? ==> Foremost(old(outbox), clock, limit, r.value, |old(outbox)|)
      ensures r.Ok? ==> forall i: nat :: i < |outbox| && i !in r.value ==> outbox[i] == old(outbox)[i]
      ensures r.Ok? ==> forall i :: i in r.value ==>
        outbox[i] == old(outbox)[i].(claim := Some(Lease(old(nextClaim), clock + leaseSeconds)))
      ensures State() == ClaimStep(old(State()), limit, leaseSeconds)
    {
      hide LeasedRows, Candidates, Claimable, ClaimAll;
      if limit < 1 || limit > 1000 || leaseSeconds < 15 || leaseSeconds > 600 {
        return Err(InvalidClaim);
      }
      var table, lease := outbox, Lease(nextClaim, clock + leaseSeconds);
      LeasedIsClaimed(table, clock, limit, lease);
      var claimed: seq<nat> := [];
      var i := 0;
      while i < |table|
        invariant 0 <= i <= |table| == |outbox|
        invariant claimed == Candidates(table, clock, limit, i) && nextClaim == old(nextClaim)
        invariant outbox == LeasedRows(table, claimed, lease)
      {
        LeaseOneMore(table, clock, limit, i, lease);
        if |claimed| < limit && Claimable(table, clock, i) {
          outbox := outbox[i := table[i].(claim := Some(lease))];
          claimed := claimed + [i];
        }
        i := i + 1;
      }
      nextClaim := nextClaim + 1;
      CandidatesForemost(table, clock, limit, |table|);
      LeasedRowsMean(table, claimed, lease);
      return Ok(claimed);
    }

    method MarkDelivered(event: nat, claim: nat, revision: string) returns (recorded: bool)
      modifies this`defs, this`outbox
      ensures State() == DeliveredStep(old(State()), event, claim, revision)
      ensures recorded == Holds(old(State()), event, claim)
    {
      if event >= |outbox| {
        return false;
      }
      var e := outbox[event];
      if !(e.status == Pending || e.status == Retrying) || e.claim.None? || e.claim.value.id != claim {
        return false;
      }
      outbox := outbox[event := e.(status := Delivered, revision := Some(revision), claim := None)];
      defs := SetProfiles(defs, e, if e.typ == Archive then Archived else Ready, Some(Some(revision)));
      return true;
    }

    method MarkRetry(event: nat, claim: nat, retryAt: Option<int>) returns (recorded: bool)
      modifies this`defs, this`outbox
      ensures State() == RetryStep(old(State()), event, claim, retryAt)
      ensures recorded == Holds(old(State()), event, claim)
    {
      if event >= |outbox| {
        return false;
      }
      var e := outbox[event];
      if !(e.status == Pending || e.status == Retrying) || e.claim.None? || e.claim.value.id != claim {
        return false;
      }
      var at := if retryAt.Some? then retryAt.value else clock;
      outbox := outbox[event := e.(status := Retrying, attempts := e.attempts + 1, availableAt := at, claim := None)];
      defs := SetProfiles(defs, e, if e.typ == Archive then PendingArchive else Registering, None);
      return true;
    }

    method MarkRepair(event: nat, claim: nat) returns (recorded: bool)
      modifies this`defs, this`outbox
      ensures State() == ParkStep(old(State()), event, claim)
      ensures recorded == Holds(old(State()), event, claim)
    {
      if event >= |outbox| {
        return false;
      }
      var e := outbox[event];
      if !(e.status == Pending || e.status == Retrying) || e.claim.None? || e.claim.value.id != claim {
        return false;
      }
      outbox := outbox[event := e.(status := RepairRequired, attempts := e.attempts + 1, claim := None)];
      defs := SetProfiles(defs, e, NeedsRepair, None);
      return true;
    }

    method RequeueResetRepairs()
      modifies this`outbox
      ensures State() == RequeueStep(old(State()))
    {
      var table, now := outbox, clock;
      outbox := seq(|table|, i requires 0 <= i < |table| =>
        if table[i].status == RepairRequired && table[i].typ == Archive
        then table[i].(status := Pending, attempts := 0, availableAt := now, claim := None)
        else table[i]);
    }

    method RepairSemanticProfile(name: Name) returns (r: Result<nat, StoreError>)
      modifies this`defs, this`outbox
      ensures State() == RepairStep(old(State()), name)
      ensures r.Ok? <==> old(gate).None? && exists i :: 0 <= i < |outbox| && ParkedUnder(old(outbox)[i], name)
    {
      if gate.Some? {
        return Err(ChangesPaused);
      }
      var pick := PickParked(outbox, name, |outbox|);
      if pick.None? {
        return Err(NothingToRepair);
      }
      var e := outbox[pick.value];
      outbox := outbox[pick.value := e.(status := Pending, attempts := 0, availableAt := clock, claim := None)];
      defs := SetProfiles(defs, e, if e.typ == Archive then PendingArchive else Registering, Some(None));
      return Ok(pick.value);
    }

    method QueueArchive(name: Name, actor: string)
      requires name in defs
      modifies this`defs, this`outbox
      ensures State() == QueueOne(old(State()), name, actor) && defs.Keys == old(defs).Keys
    {
      var d := defs[name];
      if d.status == Archived {
        return;
      }
      if d.status == PendingArchive {
        return;
      }
      Enqueue(name, d.(generation := d.generation + 1, status := PendingArchive, revision := None), Archive, actor, None);
    }

    method QueueSemanticArchives(actor: string)
      modifies this`defs, this`outbox
      ensures State() == QueueStep(old(State()), actor)
    {
      var names := Sorted(defs.Keys);
      var k := 0;
      while k < |names|
        invariant 0 <= k <= |names| && defs.Keys == old(defs).Keys
        invariant QueueAll(State(), names[k..], actor) == QueueAll(old(State()), names, actor)
      {
        assert names[k..][0] == names[k] && names[k..][1..] == names[k + 1..];
        QueueArchive(names[k], actor);
        k := k + 1;
      }
    }

    method BeginSemanticReset(owner: nat) returns (r: Result<(), StoreError>)
      modifies this`gate
      ensures State() == BeginStep(old(State()), owner)
      ensures r.Ok? <==> old(gate).None?
    {
      if gate.Some? {
        return Err(ResetInProgress);
      }
      gate := Some(owner);
      return Ok(());
    }

    method Succeed(name: Name, actor: string)
      requires name in defs
      modifies this`defs, this`outbox, this`nextAsset
      ensures State() == SucceedOne(old(State()), name, actor) && defs.Keys == old(defs).Keys
    {
      var d := defs[name];
      Enqueue(name, Definition(nextAsset, 1, Registering, None, d.materialized), Register, actor, Some(d.asset));
      nextAsset := nextAsset + 1;
    }

    method SucceedEach(names: seq<Name>, actor: string)
      requires forall n :: n in names ==> n in defs
      modifies this`defs, this`outbox, this`nextAsset
      ensures State() == SucceedAll(old(State()), names, actor)
    {
      var k := 0;
      while k < |names|
        invariant 0 <= k <= |names| && defs.Keys == old(defs).Keys
        invariant SucceedAll(State(), names[k..], actor) == SucceedAll(old(State()), names, actor)
      {
        assert names[k..][0] == names[k] && names[k..][1..] == names[k + 1..];
        Succeed(names[k], actor);
        k := k + 1;
      }
    }

    /** Requeue the parked reset archives of recovered names, name by name, and list the
        names not listed yet. */
    method RetryResetArchives(listed: seq<Name>) returns (recovered: seq<Name>)
      modifies this`outbox
      ensures State() == RetryArchives(old(State()))
      ensures recovered == AddMissing(listed, Sorted(ArchiveNames(old(State()))))
    {
      hide RetriesArchive, ArchivesRetried, Sorted, RetryArchives;
      var before := State();
      AllRetried(before);
      var names := Sorted(ArchiveNames(before));
      recovered := listed;
      var k := 0;
      while k < |names|
        invariant 0 <= k <= |names| && outbox == ArchivesRetried(before, names[..k])
        invariant AddMissing(recovered, names[k..]) == AddMissing(listed, names)
      {
        var table := outbox;
        outbox := seq(|before.outbox|, j requires 0 <= j < |before.outbox| =>
          if RetriesArchive(before, j) && before.outbox[j].name == names[k]
          then before.outbox[j].(status := Pending, attempts := 0, availableAt := before.clock, claim := None)
          else table[j]);
        RetryOneMore(before, names[..k], names[k], outbox);
        assert names[k..][0] == names[k] && names[k..][1..] == names[k + 1..];
        assert names[..k + 1] == names[..k] + [names[k]];
        if names[k] !in recovered {
          recovered := recovered + [names[k]];
        }
        k := k + 1;
      }
      assert names[..k] == names;
    }
  
    /** Requeue the parked registration of a definition and mark it as registering. */
    method RetryOneDefinition(before: State, n: Name)
      requires n in before.defs && n in defs && |outbox| == |before.outbox|
      modifies this`outbox, this`defs
      ensures State() == RetryDefinition(before, old(State()), n)
    {
      var table := outbox;
      outbox := seq(|before.outbox|, j requires 0 <= j < |before.outbox| =>
        if ParkedRecovery(before.outbox[j]) && IsCurrent(before.defs[n], before.outbox[j])
        then before.outbox[j].(status := Pending, attempts := 0, availableAt := before.clock, claim := None)
        else table[j]);
      defs := defs[n := defs[n].(status := Registering, revision := None)];
    }

    method RetryResetRegistrations(listed: seq<Name>) returns (recovered: seq<Name>)
      modifies this`outbox, this`defs
      ensures State() == RetryRegisters(old(State()))
      ensures recovered == AddMissing(listed, Sorted(RegisterNames(old(State()))))
    {
      hide RetriesDefinition, RegistersRetried, Sorted, RetryRegisters, RetryDefinition;
      var before := State();
      AllRegistersRetried(before);
      var names := Sorted(RegisterNames(before));
      recovered := listed;
      var k := 0;
      while k < |names|
        invariant 0 <= k <= |names| && State() == RegistersRetried(before, names[..k])
        invariant AddMissing(recovered, names[k..]) == AddMissing(listed, names)
      {
        assert names[k] in names;
        RetryOneDefinition(before, names[k]);
        RetryDefinitionOneMore(before, names[..k], names[k]);
        assert names[k..][0] == names[k] && names[k..][1..] == names[k + 1..];
        assert names[..k + 1] == names[..k] + [names[k]];
        if names[k] !in recovered {
          recovered := recovered + [names[k]];
        }
        k := k + 1;
      }
      assert names[..k] == names;
    }

    /** Give every archived or lost definition a successor registration, then requeue what the
        reset had parked, and report every name once. */
    method RecoverResetProfiles(actor: string, expected: Option<nat>) returns (r: Result<seq<Name>, StoreError>)
      modifies this`defs, this`outbox, this`nextAsset
      ensures State() == RecoverStep(old(State()), actor, expected)
      ensures r.Ok? <==> old(gate).Some? && (expected.Some? ==> expected == old(gate))
      ensures r.Ok? ==> r.value == RecoveredNames(old(State()), actor)
    {
      if gate.None? {
        return Err(NoReset);
      }
      if expected.Some? && expected != gate {
        return Err(WrongOwner);
      }
      var names := Sorted(Successions(State()));
      SucceedEach(names, actor);
      var recovered := RetryResetArchives(names);
      recovered := RetryResetRegistrations(recovered);
      return Ok(recovered);
    }

    method CompleteResetRecovery(owner: nat) returns (r: Result<bool, StoreError>)
      modifies this`gate
      ensures State() == CompleteStep(old(State()), owner)
      ensures r == Ok(true) <==> old(gate).Some? && gate.None?
      ensures r == Ok(false) <==> old(gate).None?
    {
      if gate.None? {
        return Ok(false);
      }
      if gate != Some(owner) {
        return Err(WrongOwner);
      }
      if exists n :: n in defs && Incomplete(State(), n) {
        return Err(StillWaiting);
      }
      gate := None;
      return Ok(true);
    }
  
    method Wait(elapsed: nat)
      modifies this`clock
      ensures State() == TickStep(old(State()), elapsed)
    {
      clock := clock + elapsed;
    }
  }
}
