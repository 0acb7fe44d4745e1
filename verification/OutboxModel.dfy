/** The semantic outbox and the definition registry of the derived-layer store: rows, and
    one function per committed transaction (config-ui/derived_layers.py).

    Events are kept in creation order, so an event's identity and its place in
    `ORDER BY created_at, event_id` are both its index in the outbox. */
module OutboxModel {
  import opened Wrappers

  /** A relation name; only its identity and its place in `ORDER BY name` matter. */
  type Name = nat

  datatype EventType = Register | Replace | Refresh | Archive
  datatype EventStatus = Pending | Retrying | Delivered | RepairRequired
  datatype ProfileStatus = Registering | Ready | PendingArchive | Archived | NeedsRepair

  /** claim_id and claimed_until, which every statement sets and clears together. */
  datatype Lease = Lease(id: nat, until: int)

  datatype Event = Event(
    name: Name, asset: nat, typ: EventType, generation: nat, actor: string, predecessor: Option<nat>,
    status: EventStatus, attempts: nat, availableAt: int, revision: Option<string>, claim: Option<Lease>)

  datatype Definition = Definition(
    asset: nat, generation: nat, status: ProfileStatus, revision: Option<string>, materialized: bool)

  /** The registry table, the outbox table, the owner of the maintenance gate, the database
      clock, and the two supplies of fresh identifiers. */
  datatype State = State(
    defs: map<Name, Definition>, outbox: seq<Event>, gate: Option<nat>, clock: int,
    nextAsset: nat, nextClaim: nat)

  const RESET_DATA := "system:reset-data"
  const RESET_RECOVERY := "system:reset-recovery"

  const Empty := State(map[], [], None, 0, 0, 0)

  predicate Live(e: Event) {
    e.status == Pending || e.status == Retrying
  }

  predicate Undelivered(e: Event) {
    e.status != Delivered
  }

  // ---------------------------------------------------------------- registry mutations

  function NewEvent(s: State, name: Name, d: Definition, typ: EventType, actor: string,
                    predecessor: Option<nat>): Event {
    Event(name, d.asset, typ, d.generation, actor, predecessor, Pending, 0, s.clock, None, None)
  }

  /** Write a definition row and enqueue the event that announces it. */
  function Announce(s: State, name: Name, d: Definition, typ: EventType, actor: string,
                    predecessor: Option<nat>): State {
    s.(defs := s.defs[name := d], outbox := s.outbox + [NewEvent(s, name, d, typ, actor, predecessor)])
  }

  function Fresh(s: State, materialized: bool): Definition {
    Definition(s.nextAsset, 1, Registering, None, materialized)
  }

  function Bumped(d: Definition, status: ProfileStatus): Definition {
    d.(generation := d.generation + 1, status := status, revision := None)
  }

  function CreateStep(s: State, name: Name, materialized: bool, actor: string): State {
    if s.gate.Some? || name in s.defs then s
    else Announce(s, name, Fresh(s, materialized), Register, actor, None).(nextAsset := s.nextAsset + 1)
  }

  function RefreshStep(s: State, name: Name, actor: string): State {
    if s.gate.Some? || name !in s.defs || !s.defs[name].materialized then s
    else Announce(s, name, Bumped(s.defs[name], Registering), Refresh, actor, None)
  }

  function ReplaceStep(s: State, name: Name, materialized: bool, actor: string): State {
    if s.gate.Some? || name !in s.defs then s
    else
      var d := Bumped(s.defs[name], Registering).(materialized := materialized);
      Announce(s, name, d, Replace, actor, None)
  }

  function ArchiveRow(s: State, name: Name, actor: string): State
    requires name in s.defs
  {
    Announce(s, name, Bumped(s.defs[name], PendingArchive), Archive, actor, None)
  }

  function DropStep(s: State, name: Name, actor: string): State {
    if s.gate.Some? || name !in s.defs then s
    else
      var t := ArchiveRow(s, name, actor);
      t.(defs := t.defs - {name})
  }

  // ---------------------------------------------------------------- claiming

  /** No earlier undelivered generation of the event's asset: the first NOT EXISTS. */
  predicate GenerationClear(o: seq<Event>, i: nat)
    requires i < |o|
  {
    !exists j :: 0 <= j < |o| && o[j].asset == o[i].asset && o[j].generation < o[i].generation && Undelivered(o[j])
  }

  /** Event j, which must be delivered first, stands before event i of its name; or i is a
      register and j the archive of another asset under the same name. */
  predicate Obstructs(o: seq<Event>, j: nat, i: nat)
    requires i < |o| && j < |o|
  {
    && o[j].name == o[i].name && Undelivered(o[j]) && j != i
    && (j < i || (o[i].typ == Register && o[j].typ == Archive && o[j].asset != o[i].asset))
  }

  /** No obstructing event: the second NOT EXISTS. */
  predicate NameClear(o: seq<Event>, i: nat)
    requires i < |o|
  {
    !exists j :: 0 <= j < |o| && Obstructs(o, j, i)
  }

  predicate LeaseFree(e: Event, clock: int) {
    e.claim.None? || e.claim.value.until <= clock
  }

  predicate Claimable(o: seq<Event>, clock: int, i: nat)
    requires i < |o|
  {
    && Live(o[i]) && o[i].availableAt <= clock && LeaseFree(o[i], clock)
    && GenerationClear(o, i) && NameClear(o, i)
  }

  /** How many of the first n events are claimable. */
  function Rank(o: seq<Event>, clock: int, n: nat): nat
    requires n <= |o|
  {
    if n == 0 then 0 else Rank(o, clock, n - 1) + if Claimable(o, clock, n - 1) then 1 else 0
  }

  /** The claimed events among the first n, in creation order. */
  function Candidates(o: seq<Event>, clock: int, limit: nat, n: nat): (r: seq<nat>)
    requires n <= |o|
    ensures forall i: nat :: i in r <==> i < n && Chosen(o, clock, limit, i)
    ensures forall j, k :: 0 <= j < k < |r| ==> r[j] < r[k]
    ensures |r| == if Rank(o, clock, n) < limit then Rank(o, clock, n) else limit
  {
    if n == 0 then []
    else
      var before := Candidates(o, clock, limit, n - 1);
      assert forall k :: 0 <= k < |before| ==> before[k] in before;
      if Chosen(o, clock, limit, n - 1) then before + [n - 1] else before
  }

  function ClaimOne(e: Event, lease: Lease): Event {
    e.(claim := Some(lease))
  }

  /** Event i is among the first `limit` claimable events. */
  predicate Chosen(o: seq<Event>, clock: int, limit: nat, i: nat)
    requires i < |o|
  {
    Claimable(o, clock, i) && Rank(o, clock, i) < limit
  }

  function ClaimAll(o: seq<Event>, clock: int, limit: nat, lease: Lease): (r: seq<Event>)
    ensures |r| == |o|
  {
    seq(|o|, i requires 0 <= i < |o| => if Chosen(o, clock, limit, i) then ClaimOne(o[i], lease) else o[i])
  }

  /** Among the first n events, these are the earliest claimable ones, up to the limit: no
      claimable event is passed over for a later one, or while there is room. */
  predicate Foremost(o: seq<Event>, clock: int, limit: nat, claimed: seq<nat>, n: nat)
    requires n <= |o|
  {
    && |claimed| <= limit
    && (forall j, k :: 0 <= j < k < |claimed| ==> claimed[j] < claimed[k])
    && (forall c :: c in claimed ==> c < n && Claimable(o, clock, c))
    && forall k: nat :: k < n && Claimable(o, clock, k) && k !in claimed ==> |claimed| == limit && AllBelow(claimed, k)
  }

  predicate AllBelow(claimed: seq<nat>, k: nat) {
    forall c :: c in claimed ==> c < k
  }

  lemma {:induction false} CandidatesForemost(o: seq<Event>, clock: int, limit: nat, n: nat)
    requires n <= |o|
    ensures Foremost(o, clock, limit, Candidates(o, clock, limit, n), n)
  {
    hide Claimable;
    if n > 0 {
      CandidatesForemost(o, clock, limit, n - 1);
    }
  }

  predicate ValidClaim(limit: int, leaseSeconds: int) {
    1 <= limit <= 1000 && 15 <= leaseSeconds <= 600
  }

  function ClaimStep(s: State, limit: int, leaseSeconds: int): State {
    if !ValidClaim(limit, leaseSeconds) then s
    else
      s.(outbox := ClaimAll(s.outbox, s.clock, limit, Lease(s.nextClaim, s.clock + leaseSeconds)),
         nextClaim := s.nextClaim + 1)
  }

  // ---------------------------------------------------------------- worker reports

  predicate Holds(s: State, i: nat, claim: nat) {
    i < |s.outbox| && Live(s.outbox[i]) && s.outbox[i].claim.Some? && s.outbox[i].claim.value.id == claim
  }

  predicate IsCurrent(d: Definition, e: Event) {
    d.asset == e.asset && d.generation == e.generation
  }

  /** `UPDATE _definitions SET semantic_status … WHERE semantic_asset_id = … AND semantic_generation = …`;
      the revision is written only when one is given. */
  function SetProfiles(defs: map<Name, Definition>, e: Event, status: ProfileStatus,
                       revision: Option<Option<string>>): map<Name, Definition> {
    map n | n in defs :: if IsCurrent(defs[n], e) then Marked(defs[n], status, revision) else defs[n]
  }

  function Marked(d: Definition, status: ProfileStatus, revision: Option<Option<string>>): Definition {
    d.(status := status, revision := if revision.Some? then revision.value else d.revision)
  }

  function DeliveredStatus(e: Event): ProfileStatus {
    if e.typ == Archive then Archived else Ready
  }

  function WaitingStatus(e: Event): ProfileStatus {
    if e.typ == Archive then PendingArchive else Registering
  }

  function DeliveredStep(s: State, i: nat, claim: nat, revision: string): State {
    if !Holds(s, i, claim) then s
    else
      var e := s.outbox[i];
      s.(outbox := s.outbox[i := e.(status := Delivered, revision := Some(revision), claim := None)],
         defs := SetProfiles(s.defs, e, DeliveredStatus(e), Some(Some(revision))))
  }

  function RetryStep(s: State, i: nat, claim: nat, retryAt: Option<int>): State {
    if !Holds(s, i, claim) then s
    else
      var e := s.outbox[i];
      var at := if retryAt.Some? then retryAt.value else s.clock;
      s.(outbox := s.outbox[i := e.(status := Retrying, attempts := e.attempts + 1, availableAt := at, claim := None)],
         defs := SetProfiles(s.defs, e, WaitingStatus(e), None))
  }

  function ParkStep(s: State, i: nat, claim: nat): State {
    if !Holds(s, i, claim) then s
    else
      var e := s.outbox[i];
      s.(outbox := s.outbox[i := e.(status := RepairRequired, attempts := e.attempts + 1, claim := None)],
         defs := SetProfiles(s.defs, e, NeedsRepair, None))
  }

  // ---------------------------------------------------------------- repair

  function Requeued(e: Event, clock: int): Event {
    e.(status := Pending, attempts := 0, availableAt := clock, claim := None)
  }

  predicate ParkedArchive(e: Event) {
    e.status == RepairRequired && e.typ == Archive
  }

  function RequeueStep(s: State): State {
    s.(outbox := seq(|s.outbox|, i requires 0 <= i < |s.outbox| =>
         if ParkedArchive(s.outbox[i]) then Requeued(s.outbox[i], s.clock) else s.outbox[i]))
  }

  predicate ParkedUnder(e: Event, name: Name) {
    e.status == RepairRequired && e.name == name
  }

  /** The parked event of a name that `ORDER BY generation DESC, created_at DESC LIMIT 1`
      picks among the first n events. */
  function PickParked(o: seq<Event>, name: Name, n: nat): (r: Option<nat>)
    requires n <= |o|
    ensures r.Some? ==> r.value < n && ParkedUnder(o[r.value], name)
    ensures r.None? ==> forall i :: 0 <= i < n ==> !ParkedUnder(o[i], name)
  {
    if n == 0 then None
    else
      var best := PickParked(o, name, n - 1);
      if ParkedUnder(o[n - 1], name) && (best.None? || o[best.value].generation <= o[n - 1].generation)
      then Some(n - 1)
      else best
  }

  function RepairStep(s: State, name: Name): State {
    var pick := PickParked(s.outbox, name, |s.outbox|);
    if s.gate.Some? || pick.None? then s
    else
      var e := s.outbox[pick.value];
      s.(outbox := s.outbox[pick.value := Requeued(e, s.clock)],
         defs := SetProfiles(s.defs, e, WaitingStatus(e), Some(None)))
  }

  // ---------------------------------------------------------------- reset

  predicate IsFirstName(m: Name, ns: set<Name>) {
    m in ns && forall n :: n in ns ==> m <= n
  }

  function FirstName(ns: set<Name>): (m: Name)
    requires ns != {}
    ensures IsFirstName(m, ns)
  {
    FirstNameExists(ns);
    var m :| IsFirstName(m, ns);
    m
  }

  lemma {:induction false} FirstNameExists(ns: set<Name>)
    requires ns != {}
    ensures exists m :: IsFirstName(m, ns)
    decreases |ns|
  {
    var x :| x in ns;
    if n :| n in ns && n < x {
      var below := set k | k in ns && k < x;
      assert n in below && x !in below;
      BelowSmaller(below, ns);
      FirstNameExists(below);
      var m :| IsFirstName(m, below);
      forall k | k in ns
        ensures m <= k
      {
        if k < x {
          assert k in below;
        }
      }
      assert IsFirstName(m, ns);
    } else {
      assert IsFirstName(x, ns);
    }
  }

  lemma BelowSmaller(a: set<Name>, b: set<Name>)
    requires a < b
    ensures |a| < |b|
  {
    assert b == a + (b - a);
  }

  /** `ORDER BY name`. */
  function Sorted(ns: set<Name>): (r: seq<Name>)
    ensures forall n :: n in r <==> n in ns
    ensures forall i, j :: 0 <= i < j < |r| ==> r[i] < r[j]
    decreases |ns|
  {
    if ns == {} then []
    else
      var m := FirstName(ns);
      [m] + Sorted(ns - {m})
  }

  function QueueOne(s: State, name: Name, actor: string): State {
    if name !in s.defs || s.defs[name].status == Archived || s.defs[name].status == PendingArchive then s
    else ArchiveRow(s, name, actor)
  }

  function QueueAll(s: State, names: seq<Name>, actor: string): State
    decreases |names|
  {
    if names == [] then s else QueueAll(QueueOne(s, names[0], actor), names[1..], actor)
  }

  function QueueStep(s: State, actor: string): State {
    QueueAll(s, Sorted(s.defs.Keys), actor)
  }

  function BeginStep(s: State, owner: nat): State {
    if s.gate.Some? then s else s.(gate := Some(owner))
  }

  /** The definitions that reset recovery re-registers under a new asset. */
  predicate NeedsSuccessor(s: State, n: Name)
    requires n in s.defs
  {
    || s.defs[n].status == PendingArchive
    || s.defs[n].status == Archived
    || exists i :: 0 <= i < |s.outbox| && IsCurrent(s.defs[n], s.outbox[i]) && ParkedArchive(s.outbox[i])
                   && s.outbox[i].actor == RESET_DATA
  }

  function SucceedOne(s: State, name: Name, actor: string): State {
    if name !in s.defs then s
    else
      var d := Fresh(s, s.defs[name].materialized);
      Announce(s, name, d, Register, actor, Some(s.defs[name].asset)).(nextAsset := s.nextAsset + 1)
  }

  function SucceedAll(s: State, names: seq<Name>, actor: string): State
    decreases |names|
  {
    if names == [] then s else SucceedAll(SucceedOne(s, names[0], actor), names[1..], actor)
  }

  /** A parked reset archive whose recovery successor is the definition's current event. */
  predicate RetriesArchive(s: State, j: nat)
    requires j < |s.outbox|
  {
    && ParkedArchive(s.outbox[j]) && s.outbox[j].actor == RESET_DATA
    && s.outbox[j].name in s.defs
    && exists i :: 0 <= i < |s.outbox| && IsSuccessor(s, i, j)
  }

  predicate IsSuccessor(s: State, i: nat, j: nat)
    requires i < |s.outbox| && j < |s.outbox| && s.outbox[j].name in s.defs
  {
    var e := s.outbox[i];
    && e.name == s.outbox[j].name && IsCurrent(s.defs[e.name], e)
    && e.typ == Register && e.actor == RESET_RECOVERY && Undelivered(e)
    && e.predecessor == Some(s.outbox[j].asset)
  }

  function RetryArchives(s: State): State {
    s.(outbox := seq(|s.outbox|, j requires 0 <= j < |s.outbox| =>
         if RetriesArchive(s, j) then Requeued(s.outbox[j], s.clock) else s.outbox[j]))
  }

  predicate ParkedRecovery(e: Event) {
    e.status == RepairRequired && e.typ == Register && e.actor == RESET_RECOVERY
  }

  /** A parked recovery registration that is still the definition's current event. */
  predicate RetriesRegister(s: State, j: nat)
    requires j < |s.outbox|
  {
    ParkedRecovery(s.outbox[j]) && exists n :: n in s.defs && IsCurrent(s.defs[n], s.outbox[j])
  }

  function RetryRegisters(s: State): State {
    s.(outbox := seq(|s.outbox|, j requires 0 <= j < |s.outbox| =>
         if RetriesRegister(s, j) then Requeued(s.outbox[j], s.clock) else s.outbox[j]),
       defs := map n | n in s.defs ::
         if RetriesDefinition(s, n) then Marked(s.defs[n], Registering, Some(None)) else s.defs[n])
  }

  predicate RetriesDefinition(s: State, n: Name)
    requires n in s.defs
  {
    exists j :: 0 <= j < |s.outbox| && IsCurrent(s.defs[n], s.outbox[j]) && RetriesRegister(s, j)
  }

  /** The names under which recovery requeues an archive, and the definitions for which it
      requeues a registration. */
  function ArchiveNames(s: State): set<Name> {
    set j | 0 <= j < |s.outbox| && RetriesArchive(s, j) :: s.outbox[j].name
  }

  function RegisterNames(s: State): set<Name> {
    set n | n in s.defs && RetriesDefinition(s, n)
  }

  /** Append each name that is not listed yet. */
  function AddMissing(listed: seq<Name>, names: seq<Name>): seq<Name>
    decreases |names|
  {
    if names == [] then listed
    else AddMissing(if names[0] in listed then listed else listed + [names[0]], names[1..])
  }

  /** The names that recovery reports: the successions, then what else it requeued. */
  function RecoveredNames(s: State, actor: string): seq<Name> {
    var names := Sorted(Successions(s));
    var u := SucceedAll(s, names, actor);
    AddMissing(AddMissing(names, Sorted(ArchiveNames(u))), Sorted(RegisterNames(RetryArchives(u))))
  }

  function Successions(s: State): set<Name> {
    set n | n in s.defs && NeedsSuccessor(s, n)
  }

  function RecoverStep(s: State, actor: string, owner: Option<nat>): State {
    if s.gate.None? || (owner.Some? && owner != s.gate) then s
    else RetryRegisters(RetryArchives(SucceedAll(s, Sorted(Successions(s)), actor)))
  }

  /** The definitions that keep the gate closed. */
  predicate Incomplete(s: State, n: Name)
    requires n in s.defs
  {
    && (exists i :: 0 <= i < |s.outbox| && IsCurrent(s.defs[n], s.outbox[i])
                    && s.outbox[i].typ == Register && s.outbox[i].actor == RESET_RECOVERY)
    && (s.defs[n].status != Ready
        || exists j :: 0 <= j < |s.outbox| && s.outbox[j].name == n && Undelivered(s.outbox[j]))
  }

  function CompleteStep(s: State, owner: nat): State {
    if s.gate != Some(owner) || (exists n :: n in s.defs && Incomplete(s, n)) then s
    else s.(gate := None)
  }

  function TickStep(s: State, elapsed: nat): State {
    s.(clock := s.clock + elapsed)
  }

  // ---------------------------------------------------------------- runs

  /** One committed transaction, with its arguments, or the passing of time. Worker reports
      carry whatever event and claim the worker remembers, however stale. */
  datatype Step =
    | Create(name: Name, materialized: bool, actor: string)
    | RefreshLayer(name: Name, actor: string)
    | ReplaceLayer(name: Name, materialized: bool, actor: string)
    | Drop(name: Name, actor: string)
    | Claim(limit: int, leaseSeconds: int)
    | MarkDelivered(event: nat, claim: nat, revision: string)
    | MarkRetry(event: nat, claim: nat, retryAt: Option<int>)
    | MarkRepair(event: nat, claim: nat)
    | Repair(name: Name)
    | RequeueRepairs
    | QueueArchives(actor: string)
    | BeginReset(owner: nat)
    | RecoverReset(actor: string, expected: Option<nat>)
    | CompleteReset(owner: nat)
    | Tick(elapsed: nat)

  function Apply(s: State, step: Step): State {
    match step
    case Create(n, m, a) => CreateStep(s, n, m, a)
    case RefreshLayer(n, a) => RefreshStep(s, n, a)
    case ReplaceLayer(n, m, a) => ReplaceStep(s, n, m, a)
    case Drop(n, a) => DropStep(s, n, a)
    case Claim(l, t) => ClaimStep(s, l, t)
    case MarkDelivered(i, c, r) => DeliveredStep(s, i, c, r)
    case MarkRetry(i, c, t) => RetryStep(s, i, c, t)
    case MarkRepair(i, c) => ParkStep(s, i, c)
    case Repair(n) => RepairStep(s, n)
    case RequeueRepairs => RequeueStep(s)
    case QueueArchives(a) => QueueStep(s, a)
    case BeginReset(o) => BeginStep(s, o)
    case RecoverReset(a, o) => RecoverStep(s, a, o)
    case CompleteReset(o) => CompleteStep(s, o)
    case Tick(t) => TickStep(s, t)
  }

  function Run(s: State, steps: seq<Step>): State
    decreases |steps|
  {
    if steps == [] then s else Run(Apply(s, steps[0]), steps[1..])
  }

  lemma {:induction false} RunAppend(s: State, a: seq<Step>, b: seq<Step>)
    ensures Run(s, a + b) == Run(Run(s, a), b)
    decreases |a|
  {
    if a == [] {
      assert a + b == b;
    } else {
      assert (a + b)[1..] == a[1..] + b;
      RunAppend(Apply(s, a[0]), a[1..], b);
    }
  }
}
