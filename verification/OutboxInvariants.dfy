/** What every committed transaction of the outbox keeps, and hence what holds after any run. */
module OutboxInvariants {
  import opened Wrappers
  import opened OutboxModel

  // ---------------------------------------------------------------- the invariant

  /** A claimed, retried, delivered or parked event: the worker queue has reached it. */
  predicate Touched(e: Event) {
    e.claim.Some? || e.status != Pending
  }

  /** One asset, one name; its generations grow with creation order and were issued. */
  ghost predicate AssetsOrdered(s: State) {
    && (forall i, j :: 0 <= i < j < |s.outbox| && s.outbox[i].asset == s.outbox[j].asset
          ==> s.outbox[i].name == s.outbox[j].name && s.outbox[i].generation < s.outbox[j].generation)
    && (forall i :: 0 <= i < |s.outbox| ==> s.outbox[i].asset < s.nextAsset)
  }

  /** Event i announces the current generation of definition n, and no later one exists. */
  ghost predicate Announces(s: State, n: Name, i: nat)
    requires n in s.defs
  {
    && i < |s.outbox| && s.outbox[i].name == n && IsCurrent(s.defs[n], s.outbox[i])
    && forall j :: i < j < |s.outbox| ==> s.outbox[j].asset != s.defs[n].asset
  }

  ghost predicate Announced(s: State) {
    forall n :: n in s.defs ==> exists i: nat :: Announces(s, n, i)
  }

  /** A successor's predecessor asset is closed: all its events came earlier, under the
      same name, and no definition carries it any more. */
  ghost predicate PredecessorsClosed(s: State) {
    forall i :: 0 <= i < |s.outbox| && s.outbox[i].predecessor.Some? ==> ClosedBefore(s, s.outbox[i].predecessor.value, i)
  }

  ghost predicate ClosedBefore(s: State, asset: nat, i: nat) {
    && asset < s.nextAsset && i < |s.outbox|
    && (forall j :: 0 <= j < |s.outbox| && s.outbox[j].asset == asset ==> j < i && s.outbox[j].name == s.outbox[i].name)
    && (forall n :: n in s.defs ==> s.defs[n].asset != asset)
  }

  ghost predicate EarlierDelivered(o: seq<Event>, i: nat)
    requires i < |o|
  {
    forall j :: 0 <= j < i && o[j].name == o[i].name ==> o[j].status == Delivered
  }

  /** The queue reaches the events of a name strictly in creation order. */
  ghost predicate NamesInOrder(o: seq<Event>) {
    forall i :: 0 <= i < |o| && Touched(o[i]) ==> EarlierDelivered(o, i)
  }

  /** A claim is held only by a live event; a revision is recorded exactly on delivery. */
  predicate Sound(e: Event, nextClaim: nat) {
    && (e.claim.Some? ==> Live(e) && e.claim.value.id < nextClaim)
    && (e.revision.Some? <==> e.status == Delivered)
  }

  ghost predicate EventsSound(s: State) {
    forall i :: 0 <= i < |s.outbox| ==> Sound(s.outbox[i], s.nextClaim)
  }

  /** How a definition's status and revision follow its current event. Unless `exact`, an
      archive that was parked and then requeued leaves two possibilities. */
  predicate Agrees(d: Definition, e: Event, exact: bool) {
    && d.revision == e.revision
    && match e.status
       case Delivered => d.status == DeliveredStatus(e)
       case RepairRequired => d.status == NeedsRepair
       case Retrying => d.status == WaitingStatus(e)
       case Pending => d.status == WaitingStatus(e) || (!exact && e.typ == Archive && d.status == NeedsRepair)
  }

  ghost predicate ProfilesAgree(s: State, exact: bool) {
    forall n, i :: n in s.defs && 0 <= i < |s.outbox| && IsCurrent(s.defs[n], s.outbox[i])
      ==> Agrees(s.defs[n], s.outbox[i], exact)
  }

  ghost predicate Shape(s: State) {
    AssetsOrdered(s) && Announced(s) && PredecessorsClosed(s)
  }

  ghost predicate Inv(s: State, exact: bool) {
    Shape(s) && NamesInOrder(s.outbox) && EventsSound(s) && ProfilesAgree(s, exact)
  }

  // ---------------------------------------------------------------- appending an event

  /** Writing row d under name n and announcing it, where d is a new generation of the
      name's own asset or the first generation of a new asset. */
  ghost predicate NewRow(s: State, n: Name, d: Definition) {
    && d.revision == None
    && ((n in s.defs && d.asset == s.defs[n].asset && d.generation == s.defs[n].generation + 1)
        || (d.asset == s.nextAsset && d.generation == 1))
  }

  predicate NewStatus(d: Definition, typ: EventType) {
    d.status == if typ == Archive then PendingArchive else Registering
  }

  ghost predicate NewPredecessor(s: State, n: Name, d: Definition, predecessor: Option<nat>) {
    predecessor.Some? ==> n in s.defs && d.asset == s.nextAsset && predecessor.value == s.defs[n].asset
  }

  lemma CurrentAssets(s: State, n: Name, m: Name)
    requires Shape(s) && n in s.defs && m in s.defs && n != m
    ensures s.defs[n].asset != s.defs[m].asset < s.nextAsset
  {
    var i: nat :| Announces(s, n, i);
    var j: nat :| Announces(s, m, j);
  }

  lemma AnnounceKeepsAssets(s: State, n: Name, d: Definition, typ: EventType, actor: string,
                            predecessor: Option<nat>, next: nat)
    requires Shape(s) && NewRow(s, n, d) && s.nextAsset <= next && d.asset < next
    ensures AssetsOrdered(Announce(s, n, d, typ, actor, predecessor).(nextAsset := next))
  {
    if n in s.defs && d.asset != s.nextAsset {
      var i: nat :| Announces(s, n, i);
      forall j | 0 <= j < |s.outbox| && s.outbox[j].asset == d.asset
        ensures s.outbox[j].name == n && s.outbox[j].generation < d.generation
      {
        if j < i {
          assert s.outbox[j].generation < s.outbox[i].generation;
        }
      }
    }
  }

  lemma AnnounceKeepsAnnounced(s: State, n: Name, d: Definition, typ: EventType, actor: string,
                               predecessor: Option<nat>, next: nat)
    requires Shape(s) && NewRow(s, n, d)
    ensures Announced(Announce(s, n, d, typ, actor, predecessor).(nextAsset := next))
  {
    var t := Announce(s, n, d, typ, actor, predecessor).(nextAsset := next);
    forall m | m in t.defs
      ensures exists i: nat :: Announces(t, m, i)
    {
      if m == n {
        assert Announces(t, m, |s.outbox|);
      } else {
        var i: nat :| Announces(s, m, i);
        if n in s.defs {
          CurrentAssets(s, n, m);
        }
        assert Announces(t, m, i);
      }
    }
  }

  lemma AnnounceKeepsClosed(s: State, n: Name, d: Definition, typ: EventType, actor: string,
                            predecessor: Option<nat>, next: nat)
    requires Shape(s) && NewRow(s, n, d) && NewPredecessor(s, n, d, predecessor)
    requires s.nextAsset <= next && d.asset < next
    ensures PredecessorsClosed(Announce(s, n, d, typ, actor, predecessor).(nextAsset := next))
  {
    var t := Announce(s, n, d, typ, actor, predecessor).(nextAsset := next);
    forall i | 0 <= i < |t.outbox| && t.outbox[i].predecessor.Some?
      ensures ClosedBefore(t, t.outbox[i].predecessor.value, i)
    {
      if i < |s.outbox| {
        assert ClosedBefore(s, s.outbox[i].predecessor.value, i);
      } else {
        AssetIssued(s, n);
        forall m | m in s.defs && m != n
          ensures s.defs[m].asset != predecessor.value
        {
          CurrentAssets(s, n, m);
        }
      }
    }
  }

  lemma AssetIssued(s: State, n: Name)
    requires Shape(s) && n in s.defs
    ensures s.defs[n].asset < s.nextAsset
  {
    var i: nat :| Announces(s, n, i);
  }

  /** The new row is the only one its event announces. */
  lemma AnnounceKeepsProfiles(s: State, n: Name, d: Definition, typ: EventType, actor: string,
                              predecessor: Option<nat>, next: nat, exact: bool)
    requires Shape(s) && ProfilesAgree(s, exact) && NewRow(s, n, d) && NewStatus(d, typ)
    requires s.nextAsset <= next && d.asset < next
    ensures ProfilesAgree(Announce(s, n, d, typ, actor, predecessor).(nextAsset := next), exact)
  {
    var t := Announce(s, n, d, typ, actor, predecessor).(nextAsset := next);
    var k := |s.outbox|;
    AnnounceKeepsAssets(s, n, d, typ, actor, predecessor, next);
    forall m, i | m in t.defs && 0 <= i < |t.outbox| && IsCurrent(t.defs[m], t.outbox[i])
      ensures Agrees(t.defs[m], t.outbox[i], exact)
    {
      if m == n {
        OneEvent(t, i, k);
      } else {
        AssetIssued(s, m);
        if n in s.defs {
          CurrentAssets(s, n, m);
        }
        assert IsCurrent(s.defs[m], s.outbox[i]);
      }
    }
  }

  lemma AnnounceKeeps(s: State, t: State, n: Name, d: Definition, typ: EventType, actor: string,
                      predecessor: Option<nat>, next: nat, exact: bool)
    requires Inv(s, exact) && NewRow(s, n, d) && NewStatus(d, typ) && NewPredecessor(s, n, d, predecessor)
    requires s.nextAsset <= next && d.asset < next
    requires t == Announce(s, n, d, typ, actor, predecessor).(nextAsset := next)
    ensures Inv(t, exact)
  {
    AnnounceKeepsAssets(s, n, d, typ, actor, predecessor, next);
    AnnounceKeepsAnnounced(s, n, d, typ, actor, predecessor, next);
    AnnounceKeepsClosed(s, n, d, typ, actor, predecessor, next);
    AnnounceKeepsProfiles(s, n, d, typ, actor, predecessor, next, exact);
    forall i | 0 <= i < |t.outbox| && Touched(t.outbox[i])
      ensures EarlierDelivered(t.outbox, i)
    {
      assert i < |s.outbox| && EarlierDelivered(s.outbox, i);
    }
  }

  lemma DropKeeps(s: State, name: Name, exact: bool)
    requires Inv(s, exact)
    ensures Inv(s.(defs := s.defs - {name}), exact)
  {
    var t := s.(defs := s.defs - {name});
    forall m | m in t.defs
      ensures exists i: nat :: Announces(t, m, i)
    {
      var i: nat :| Announces(s, m, i);
      assert Announces(t, m, i);
    }
    forall i | 0 <= i < |t.outbox| && t.outbox[i].predecessor.Some?
      ensures ClosedBefore(t, t.outbox[i].predecessor.value, i)
    {
      assert ClosedBefore(s, s.outbox[i].predecessor.value, i);
    }
  }

  // ---------------------------------------------------------------- rewriting events in place

  /** Same event, whatever became of its delivery. */
  predicate SameEvent(e: Event, f: Event) {
    && e.name == f.name && e.asset == f.asset && e.typ == f.typ && e.generation == f.generation
    && e.actor == f.actor && e.predecessor == f.predecessor
  }

  ghost predicate SameRows(s: State, t: State) {
    && t.defs.Keys == s.defs.Keys
    && (forall n :: n in s.defs ==> t.defs[n].asset == s.defs[n].asset && t.defs[n].generation == s.defs[n].generation)
    && t.nextAsset == s.nextAsset
  }

  ghost predicate SameEvents(o: seq<Event>, p: seq<Event>) {
    |p| == |o| && forall i :: 0 <= i < |o| ==> SameEvent(o[i], p[i])
  }

  /** An event may be touched only where it already was, or where its name is clear; a
      delivered one is left alone. */
  ghost predicate Orderly(o: seq<Event>, p: seq<Event>)
    requires SameEvents(o, p)
  {
    && (forall i :: 0 <= i < |o| && Touched(p[i]) ==> Touched(o[i]) || EarlierDelivered(o, i))
    && (forall i :: 0 <= i < |o| && o[i].status == Delivered ==> p[i] == o[i])
  }

  lemma RewriteKeepsShape(s: State, t: State)
    requires Shape(s) && SameRows(s, t) && SameEvents(s.outbox, t.outbox)
    ensures Shape(t)
  {
    forall n | n in t.defs
      ensures exists i: nat :: Announces(t, n, i)
    {
      var i: nat :| Announces(s, n, i);
      assert SameEvent(s.outbox[i], t.outbox[i]);
      assert Announces(t, n, i);
    }
    forall i, j | 0 <= i < j < |t.outbox| && t.outbox[i].asset == t.outbox[j].asset
      ensures t.outbox[i].name == t.outbox[j].name && t.outbox[i].generation < t.outbox[j].generation
    {
      assert SameEvent(s.outbox[i], t.outbox[i]) && SameEvent(s.outbox[j], t.outbox[j]);
    }
    forall i | 0 <= i < |t.outbox| && t.outbox[i].predecessor.Some?
      ensures ClosedBefore(t, t.outbox[i].predecessor.value, i)
    {
      assert SameEvent(s.outbox[i], t.outbox[i]);
      assert ClosedBefore(s, s.outbox[i].predecessor.value, i);
    }
  }

  lemma RewriteKeepsOrder(o: seq<Event>, p: seq<Event>)
    requires NamesInOrder(o) && SameEvents(o, p) && Orderly(o, p)
    ensures NamesInOrder(p)
  {
    forall i | 0 <= i < |p| && Touched(p[i])
      ensures EarlierDelivered(p, i)
    {
      assert EarlierDelivered(o, i);
      forall j | 0 <= j < i && p[j].name == p[i].name
        ensures p[j].status == Delivered
      {
        assert SameEvent(o[j], p[j]) && SameEvent(o[i], p[i]);
      }
    }
  }

  /** A rewrite that is orderly, sound and agrees with the profiles keeps the invariant. */
  lemma RewriteKeeps(s: State, t: State, exact: bool)
    requires Inv(s, exact) && SameRows(s, t) && SameEvents(s.outbox, t.outbox) && Orderly(s.outbox, t.outbox)
    requires EventsSound(t) && ProfilesAgree(t, exact)
    ensures Inv(t, exact)
  {
    RewriteKeepsShape(s, t);
    RewriteKeepsOrder(s.outbox, t.outbox);
  }

  // ---------------------------------------------------------------- one lemma a transaction

  lemma ClearedIsEarliest(o: seq<Event>, i: nat)
    requires i < |o| && NameClear(o, i)
    ensures EarlierDelivered(o, i)
  {
    forall j | 0 <= j < i && o[j].name == o[i].name
      ensures o[j].status == Delivered
    {
      assert !Obstructs(o, j, i);
    }
  }

  lemma ClaimKeeps(s: State, limit: int, leaseSeconds: int, exact: bool)
    requires Inv(s, exact)
    ensures Inv(ClaimStep(s, limit, leaseSeconds), exact)
  {
    if ValidClaim(limit, leaseSeconds) {
      var t := ClaimStep(s, limit, leaseSeconds);
      forall i | 0 <= i < |s.outbox| && Touched(t.outbox[i])
        ensures Touched(s.outbox[i]) || EarlierDelivered(s.outbox, i)
      {
        if Chosen(s.outbox, s.clock, limit, i) {
          ClearedIsEarliest(s.outbox, i);
        }
      }
      forall i | 0 <= i < |t.outbox|
        ensures Sound(t.outbox[i], t.nextClaim)
      {
        assert Sound(s.outbox[i], s.nextClaim);
      }
      forall n, i | n in t.defs && 0 <= i < |t.outbox| && IsCurrent(t.defs[n], t.outbox[i])
        ensures Agrees(t.defs[n], t.outbox[i], exact)
      {
        assert IsCurrent(s.defs[n], s.outbox[i]);
      }
      RewriteKeeps(s, t, exact);
    }
  }

  /** At most one event carries an (asset, generation). */
  lemma OneEvent(s: State, i: nat, j: nat)
    requires AssetsOrdered(s) && i < |s.outbox| && j < |s.outbox|
    requires s.outbox[i].asset == s.outbox[j].asset && s.outbox[i].generation == s.outbox[j].generation
    ensures i == j
  {
  }

  /** Rewriting one event together with the profiles of its own asset and generation. */
  lemma ReportKeeps(s: State, t: State, i: nat, f: Event, status: ProfileStatus, revision: Option<Option<string>>, exact: bool)
    requires Inv(s, exact) && i < |s.outbox| && SameEvent(s.outbox[i], f) && Undelivered(s.outbox[i])
    requires Touched(f) ==> Touched(s.outbox[i])
    requires Sound(f, s.nextClaim)
    requires forall d: Definition :: Agrees(d, s.outbox[i], exact) ==> Agrees(Marked(d, status, revision), f, exact)
    requires t == s.(outbox := s.outbox[i := f], defs := SetProfiles(s.defs, s.outbox[i], status, revision))
    ensures Inv(t, exact)
  {
    var e := s.outbox[i];
    forall n, j | n in t.defs && 0 <= j < |t.outbox| && IsCurrent(t.defs[n], t.outbox[j])
      ensures Agrees(t.defs[n], t.outbox[j], exact)
    {
      assert IsCurrent(s.defs[n], s.outbox[j]);
      assert Agrees(s.defs[n], s.outbox[j], exact);
      if IsCurrent(s.defs[n], e) {
        OneEvent(s, i, j);
      }
    }
    assert SameRows(s, t) && SameEvents(s.outbox, t.outbox) && Orderly(s.outbox, t.outbox);
    RewriteKeeps(s, t, exact);
  }

  lemma DeliveredKeeps(s: State, i: nat, claim: nat, revision: string, exact: bool)
    requires Inv(s, exact)
    ensures Inv(DeliveredStep(s, i, claim, revision), exact)
  {
    if Holds(s, i, claim) {
      var e := s.outbox[i];
      assert Sound(e, s.nextClaim);
      ReportKeeps(s, DeliveredStep(s, i, claim, revision), i, e.(status := Delivered, revision := Some(revision), claim := None),
                  DeliveredStatus(e), Some(Some(revision)), exact);
    }
  }

  lemma RetryKeeps(s: State, i: nat, claim: nat, retryAt: Option<int>, exact: bool)
    requires Inv(s, exact)
    ensures Inv(RetryStep(s, i, claim, retryAt), exact)
  {
    if Holds(s, i, claim) {
      var e := s.outbox[i];
      var at := if retryAt.Some? then retryAt.value else s.clock;
      var f := e.(status := Retrying, attempts := e.attempts + 1, availableAt := at, claim := None);
      assert Sound(e, s.nextClaim);
      forall d | Agrees(d, e, exact)
        ensures Agrees(Marked(d, WaitingStatus(e), None), f, exact)
      {
      }
      ReportKeeps(s, RetryStep(s, i, claim, retryAt), i, f, WaitingStatus(e), None, exact);
    }
  }

  lemma ParkKeeps(s: State, i: nat, claim: nat, exact: bool)
    requires Inv(s, exact)
    ensures Inv(ParkStep(s, i, claim), exact)
  {
    if Holds(s, i, claim) {
      var e := s.outbox[i];
      assert Sound(e, s.nextClaim);
      var f := e.(status := RepairRequired, attempts := e.attempts + 1, claim := None);
      forall d | Agrees(d, e, exact)
        ensures Agrees(Marked(d, NeedsRepair, None), f, exact)
      {
      }
      ReportKeeps(s, ParkStep(s, i, claim), i, f, NeedsRepair, None, exact);
    }
  }

  lemma RepairKeeps(s: State, name: Name, exact: bool)
    requires Inv(s, exact)
    ensures Inv(RepairStep(s, name), exact)
  {
    var pick := PickParked(s.outbox, name, |s.outbox|);
    if s.gate.None? && pick.Some? {
      var e := s.outbox[pick.value];
      assert Sound(e, s.nextClaim);
      ReportKeeps(s, RepairStep(s, name), pick.value, Requeued(e, s.clock), WaitingStatus(e), Some(None), exact);
    }
  }

  /** Requeuing parked events, and marking as registering the definitions whose current
      event is a requeued registration. */
  lemma RequeueingKeeps(s: State, t: State, exact: bool)
    requires Inv(s, exact) && SameRows(s, t) && t.nextClaim == s.nextClaim && SameEvents(s.outbox, t.outbox)
    requires forall i :: 0 <= i < |s.outbox| ==>
      (t.outbox[i] == s.outbox[i]
       || (s.outbox[i].status == RepairRequired && t.outbox[i] == Requeued(s.outbox[i], s.clock)))
    requires ProfilesAgree(t, exact)
    ensures Inv(t, exact)
  {
    forall i | 0 <= i < |t.outbox|
      ensures Sound(t.outbox[i], t.nextClaim)
    {
      assert Sound(s.outbox[i], s.nextClaim);
    }
    RewriteKeeps(s, t, exact);
  }

  /** Some definition is waiting on a parked archive. */
  ghost predicate ParkedCurrent(s: State) {
    exists n, i :: n in s.defs && 0 <= i < |s.outbox| && IsCurrent(s.defs[n], s.outbox[i]) && ParkedArchive(s.outbox[i])
  }

  lemma RequeueKeeps(s: State, exact: bool)
    requires Inv(s, exact) && !(exact && ParkedCurrent(s))
    ensures Inv(RequeueStep(s), exact)
  {
    var t := RequeueStep(s);
    forall n, i | n in t.defs && 0 <= i < |t.outbox| && IsCurrent(t.defs[n], t.outbox[i])
      ensures Agrees(t.defs[n], t.outbox[i], exact)
    {
      assert IsCurrent(s.defs[n], s.outbox[i]) && Sound(s.outbox[i], s.nextClaim);
    }
    RequeueingKeeps(s, t, exact);
  }

  lemma RetryArchivesKeeps(s: State, exact: bool)
    requires Inv(s, exact)
    ensures Inv(RetryArchives(s), exact)
  {
    var t := RetryArchives(s);
    forall n, j | n in t.defs && 0 <= j < |t.outbox| && IsCurrent(t.defs[n], t.outbox[j])
      ensures Agrees(t.defs[n], t.outbox[j], exact)
    {
      assert IsCurrent(s.defs[n], s.outbox[j]) && Sound(s.outbox[j], s.nextClaim);
    }
    RequeueingKeeps(s, t, exact);
  }

  lemma RetryRegistersKeeps(s: State, exact: bool)
    requires Inv(s, exact)
    ensures Inv(RetryRegisters(s), exact)
  {
    hide RetriesDefinition, Inv;
    RetryRegistersAgree(s, RetryRegisters(s), exact);
    RequeueingKeeps(s, RetryRegisters(s), exact);
  }

  lemma RetryRegistersAgree(s: State, t: State, exact: bool)
    requires Inv(s, exact) && t == RetryRegisters(s)
    ensures ProfilesAgree(t, exact)
  {
    hide RetriesRegister, RetriesDefinition;
    forall n, j: nat | n in t.defs && j < |t.outbox| && IsCurrent(t.defs[n], t.outbox[j])
      ensures Agrees(t.defs[n], t.outbox[j], exact)
    {
      RetriesTogether(s, n, j);
      RetriedIsRegister(s, j);
      assert Agrees(s.defs[n], s.outbox[j], exact) && Sound(s.outbox[j], s.nextClaim);
    }
  }

  lemma RetriedIsRegister(s: State, j: nat)
    requires j < |s.outbox|
    ensures RetriesRegister(s, j) ==> ParkedRecovery(s.outbox[j])
  {
  }

  /** A definition is marked exactly when its current event is requeued. */
  lemma RetriesTogether(s: State, n: Name, j: nat)
    requires AssetsOrdered(s) && n in s.defs && j < |s.outbox| && IsCurrent(s.defs[n], s.outbox[j])
    ensures RetriesDefinition(s, n) <==> RetriesRegister(s, j)
  {
    if RetriesDefinition(s, n) {
      var k: nat :| k < |s.outbox| && IsCurrent(s.defs[n], s.outbox[k]) && RetriesRegister(s, k);
      OneEvent(s, j, k);
    }
  }

  lemma {:induction false} QueueAllKeeps(s: State, names: seq<Name>, actor: string, exact: bool)
    requires Inv(s, exact)
    ensures Inv(QueueAll(s, names, actor), exact)
    decreases |names|
  {
    if names != [] {
      var n := names[0];
      if QueueOne(s, n, actor) != s {
        BumpKeeps(s, n, Bumped(s.defs[n], PendingArchive), Archive, actor, exact);
      }
      QueueAllKeeps(QueueOne(s, n, actor), names[1..], actor, exact);
    }
  }

  lemma SucceedOneKeeps(s: State, n: Name, actor: string, exact: bool)
    requires Inv(s, exact)
    ensures Inv(SucceedOne(s, n, actor), exact)
  {
    if n in s.defs {
      AnnounceKeeps(s, SucceedOne(s, n, actor), n, Fresh(s, s.defs[n].materialized), Register, actor,
                    Some(s.defs[n].asset), s.nextAsset + 1, exact);
    }
  }

  lemma {:induction false} SucceedAllKeeps(s: State, names: seq<Name>, actor: string, exact: bool)
    requires Inv(s, exact)
    ensures Inv(SucceedAll(s, names, actor), exact)
    decreases |names|
  {
    if names != [] {
      var n := names[0];
      SucceedOneKeeps(s, n, actor, exact);
      SucceedAllKeeps(SucceedOne(s, n, actor), names[1..], actor, exact);
    }
  }

  lemma CreateKeeps(s: State, n: Name, materialized: bool, actor: string, exact: bool)
    requires Inv(s, exact)
    ensures Inv(CreateStep(s, n, materialized, actor), exact)
  {
    if s.gate.None? && n !in s.defs {
      AnnounceKeeps(s, CreateStep(s, n, materialized, actor), n, Fresh(s, materialized), Register, actor, None, s.nextAsset + 1, exact);
    }
  }

  /** Announcing the next generation of a definition's own asset. */
  lemma BumpKeeps(s: State, n: Name, d: Definition, typ: EventType, actor: string, exact: bool)
    requires Inv(s, exact) && n in s.defs && NewStatus(d, typ)
    requires d.revision == None && d.asset == s.defs[n].asset && d.generation == s.defs[n].generation + 1
    ensures Inv(Announce(s, n, d, typ, actor, None), exact)
  {
    AssetIssued(s, n);
    AnnounceKeeps(s, Announce(s, n, d, typ, actor, None), n, d, typ, actor, None, s.nextAsset, exact);
  }

  lemma ChangesKeep(s: State, step: Step, exact: bool)
    requires Inv(s, exact) && (step.RefreshLayer? || step.ReplaceLayer? || step.Drop?)
    ensures Inv(Apply(s, step), exact)
  {
    var n := step.name;
    if s.gate.None? && n in s.defs {
      match step
      case RefreshLayer(_, a) =>
        BumpKeeps(s, n, Bumped(s.defs[n], Registering), Refresh, a, exact);
      case ReplaceLayer(_, m, a) =>
        BumpKeeps(s, n, Bumped(s.defs[n], Registering).(materialized := m), Replace, a, exact);
      case Drop(_, a) =>
        BumpKeeps(s, n, Bumped(s.defs[n], PendingArchive), Archive, a, exact);
        DropKeeps(ArchiveRow(s, n, a), n, exact);
    }
  }

  lemma GateAndClockKeep(s: State, t: State, exact: bool)
    requires Inv(s, exact) && t.defs == s.defs && t.outbox == s.outbox && t.nextAsset == s.nextAsset && t.nextClaim == s.nextClaim
    ensures Inv(t, exact)
  {
    RewriteKeepsShape(s, t);
    forall i | 0 <= i < |t.outbox|
      ensures Sound(t.outbox[i], t.nextClaim)
    {
      assert Sound(s.outbox[i], s.nextClaim);
    }
    forall n, i | n in t.defs && 0 <= i < |t.outbox| && IsCurrent(t.defs[n], t.outbox[i])
      ensures Agrees(t.defs[n], t.outbox[i], exact)
    {
      assert IsCurrent(s.defs[n], s.outbox[i]);
    }
  }

  lemma RecoveryKeeps(s: State, a: string, o: Option<nat>, exact: bool)
    requires Inv(s, exact)
    ensures Inv(Apply(s, RecoverReset(a, o)), exact)
  {
    hide Inv, RetryArchives, RetryRegisters, SucceedAll, Successions, Sorted;
    if Apply(s, RecoverReset(a, o)) != s {
      var u := SucceedAll(s, Sorted(Successions(s)), a);
      SucceedAllKeeps(s, Sorted(Successions(s)), a, exact);
      RetryArchivesKeeps(u, exact);
      RetryRegistersKeeps(RetryArchives(u), exact);
    }
  }

  lemma StepKeeps(s: State, step: Step, exact: bool)
    requires Inv(s, exact) && (exact && step == RequeueRepairs ==> !ParkedCurrent(s))
    ensures Inv(Apply(s, step), exact)
  {
    hide Inv, ParkedCurrent;
    match step
    case Create(n, m, a) => CreateKeeps(s, n, m, a, exact);
    case RefreshLayer(_, _) => ChangesKeep(s, step, exact);
    case ReplaceLayer(_, _, _) => ChangesKeep(s, step, exact);
    case Drop(_, _) => ChangesKeep(s, step, exact);
    case Claim(l, t) => ClaimKeeps(s, l, t, exact);
    case MarkDelivered(i, c, r) => DeliveredKeeps(s, i, c, r, exact);
    case MarkRetry(i, c, t) => RetryKeeps(s, i, c, t, exact);
    case MarkRepair(i, c) => ParkKeeps(s, i, c, exact);
    case Repair(n) => RepairKeeps(s, n, exact);
    case RequeueRepairs => RequeueKeeps(s, exact);
    case QueueArchives(a) => QueueAllKeeps(s, Sorted(s.defs.Keys), a, exact);
    case BeginReset(o) => GateAndClockKeep(s, BeginStep(s, o), exact);
    case RecoverReset(a, o) => RecoveryKeeps(s, a, o, exact);
    case CompleteReset(o) => GateAndClockKeep(s, CompleteStep(s, o), exact);
    case Tick(t) => GateAndClockKeep(s, TickStep(s, t), exact);
  }

  lemma {:induction false} RunKeeps(s: State, steps: seq<Step>, exact: bool)
    requires Inv(s, exact) && (exact ==> RequeueRepairs !in steps)
    ensures Inv(Run(s, steps), exact)
    decreases |steps|
  {
    if steps != [] {
      StepKeeps(s, steps[0], exact);
      RunKeeps(Apply(s, steps[0]), steps[1..], exact);
    }
  }
}
