/** What blocks a name for good while workers report, and how a worker gets one event, and then
    every event of a name, delivered. When a name can be drained at all depends on the
    maintenance gate too: OutboxRecovery decides it. */
module OutboxProgress {
  import opened Wrappers
  import opened OutboxModel
  import opened OutboxInvariants
  import opened OutboxTheorems

  // ---------------------------------------------------------------- what any run leaves of an event

  /** A step that does not hand out claims: claims may be released, and only a claimed event
      becomes delivered. */
  predicate Quiet(e: Event, f: Event) {
    && SameEvent(e, f)
    && (e.status == Delivered ==> f == e)
    && (f.claim.Some? ==> e.claim.Some?)
    && (f.status == Delivered ==> e.status == Delivered || e.claim.Some?)
  }

  ghost predicate QuietEvents(o: seq<Event>, p: seq<Event>) {
    |o| <= |p| && forall i :: 0 <= i < |o| ==> Quiet(o[i], p[i])
  }

  lemma QuietTrans(o: seq<Event>, p: seq<Event>, q: seq<Event>)
    requires QuietEvents(o, p) && QuietEvents(p, q)
    ensures QuietEvents(o, q)
  {
    forall i | 0 <= i < |o|
      ensures Quiet(o[i], q[i])
    {
      assert Quiet(o[i], p[i]) && Quiet(p[i], q[i]);
    }
  }

  lemma {:induction false} QueueAllQuiet(s: State, names: seq<Name>, actor: string)
    ensures QuietEvents(s.outbox, QueueAll(s, names, actor).outbox)
    decreases |names|
  {
    if names != [] {
      var t := QueueOne(s, names[0], actor);
      QueueAllQuiet(t, names[1..], actor);
      QuietTrans(s.outbox, t.outbox, QueueAll(s, names, actor).outbox);
    }
  }

  lemma {:induction false} SucceedAllQuiet(s: State, names: seq<Name>, actor: string)
    ensures QuietEvents(s.outbox, SucceedAll(s, names, actor).outbox)
    decreases |names|
  {
    if names != [] {
      var t := SucceedOne(s, names[0], actor);
      SucceedAllQuiet(t, names[1..], actor);
      QuietTrans(s.outbox, t.outbox, SucceedAll(s, names, actor).outbox);
    }
  }

  lemma RecoverQuiet(s: State, actor: string, owner: Option<nat>)
    ensures QuietEvents(s.outbox, RecoverStep(s, actor, owner).outbox)
  {
    var t := RecoverStep(s, actor, owner);
    if t != s {
      var u := SucceedAll(s, Sorted(Successions(s)), actor);
      SucceedAllQuiet(s, Sorted(Successions(s)), actor);
      var v := RetryArchives(u);
      assert QuietEvents(u.outbox, v.outbox) && QuietEvents(v.outbox, t.outbox);
      QuietTrans(s.outbox, u.outbox, v.outbox);
      QuietTrans(s.outbox, v.outbox, t.outbox);
    }
  }

  lemma StepQuiet(s: State, step: Step)
    requires EventsSound(s) && !step.Claim?
    ensures QuietEvents(s.outbox, Apply(s, step).outbox)
  {
    match step
    case QueueArchives(a) => QueueAllQuiet(s, Sorted(s.defs.Keys), a);
    case RecoverReset(a, o) => RecoverQuiet(s, a, o);
    case _ =>
  }

  /** Delivered events never change again, and no event is ever removed or renamed. */
  lemma {:induction false} DeliveredForGood(s: State, steps: seq<Step>)
    requires Reachable(s)
    ensures |s.outbox| <= |Run(s, steps).outbox|
    ensures forall i :: 0 <= i < |s.outbox| ==> SameEvent(s.outbox[i], Run(s, steps).outbox[i])
    ensures forall i :: 0 <= i < |s.outbox| && s.outbox[i].status == Delivered ==> Run(s, steps).outbox[i] == s.outbox[i]
    decreases |steps|
  {
    if steps != [] {
      var t := Apply(s, steps[0]);
      ReachableInv(s);
      ReachableStep(s, steps[0]);
      DeliveredForGood(t, steps[1..]);
      if !steps[0].Claim? {
        StepQuiet(s, steps[0]);
        assert forall i :: 0 <= i < |s.outbox| ==> Quiet(s.outbox[i], t.outbox[i]);
      }
      forall i | 0 <= i < |s.outbox|
        ensures SameEvent(s.outbox[i], t.outbox[i]) && (s.outbox[i].status == Delivered ==> t.outbox[i] == s.outbox[i])
      {
      }
    }
  }

  lemma ReachableStep(s: State, step: Step)
    requires Reachable(s)
    ensures Reachable(Apply(s, step))
  {
    var steps :| s == Run(Empty, steps);
    RunAppend(Empty, steps, [step]);
    assert Run(s, [step]) == Apply(s, step) by {
      assert [step][1..] == [];
    }
  }

  // ---------------------------------------------------------------- names that can never drain

  /** An unclaimed register that waits for a later archive of another asset, which in turn is
      behind it. */
  predicate Deadlock(o: seq<Event>, i: nat, j: nat) {
    Waits(o, i, j) && o[i].claim.None?
  }

  lemma DeadlockStays(s: State, step: Step, i: nat, j: nat)
    requires Inv(s, false) && Deadlock(s.outbox, i, j)
    ensures Deadlock(Apply(s, step).outbox, i, j)
  {
    var t := Apply(s, step);
    assert s.outbox[j].claim.None? by {
      assert !EarlierDelivered(s.outbox, j);
    }
    if step.Claim? {
      assert Obstructs(s.outbox, j, i);
      assert Obstructs(s.outbox, i, j);
    } else {
      StepQuiet(s, step);
      assert Quiet(s.outbox[i], t.outbox[i]) && Quiet(s.outbox[j], t.outbox[j]);
    }
  }

  lemma {:induction false} DeadlockForever(s: State, steps: seq<Step>, i: nat, j: nat)
    requires Inv(s, false) && Deadlock(s.outbox, i, j)
    ensures Deadlock(Run(s, steps).outbox, i, j)
    decreases |steps|
  {
    if steps != [] {
      DeadlockStays(s, steps[0], i, j);
      StepKeeps(s, steps[0], false);
      DeadlockForever(Apply(s, steps[0]), steps[1..], i, j);
    }
  }

  // ---------------------------------------------------------------- reaching a claimable event

  lemma {:induction false} RankSmaller(o: seq<Event>, p: seq<Event>, clock: int, n: nat)
    requires |o| == |p| && n <= |o|
    requires forall k :: 0 <= k < n && Claimable(p, clock, k) ==> Claimable(o, clock, k)
    ensures Rank(p, clock, n) <= Rank(o, clock, n)
    ensures (exists k :: 0 <= k < n && Claimable(o, clock, k) && !Claimable(p, clock, k)) ==>
      Rank(p, clock, n) < Rank(o, clock, n)
  {
    if n > 0 {
      RankSmaller(o, p, clock, n - 1);
    }
  }

  /** When some event below n is claimable, the first one has rank zero. */
  lemma {:induction false} FirstClaimable(o: seq<Event>, clock: int, n: nat) returns (k: nat)
    requires n <= |o| && Rank(o, clock, n) > 0
    ensures k < n && Claimable(o, clock, k) && Rank(o, clock, k) == 0
  {
    if Rank(o, clock, n - 1) > 0 {
      k := FirstClaimable(o, clock, n - 1);
    } else {
      k := n - 1;
    }
  }

  lemma SameClearance(o: seq<Event>, p: seq<Event>, i: nat)
    requires SameEvents(o, p) && i < |o|
    requires forall k :: 0 <= k < |o| ==> p[k].status == o[k].status
    ensures GenerationClear(o, i) <==> GenerationClear(p, i)
    ensures NameClear(o, i) <==> NameClear(p, i)
  {
    forall j: nat | j < |o|
      ensures Obstructs(o, j, i) <==> Obstructs(p, j, i)
      ensures o[j].asset == p[j].asset && o[j].generation == p[j].generation && o[j].asset == o[j].asset
    {
      assert SameEvent(o[i], p[i]) && SameEvent(o[j], p[j]);
    }
  }

  /** One claim that does not reach event i leaves it claimable, with fewer events before it. */
  lemma ClaimApproaches(s: State, limit: int, lease: int, i: nat)
    requires ValidClaim(limit, lease) && i < |s.outbox| && Claimable(s.outbox, s.clock, i)
    requires Rank(s.outbox, s.clock, i) >= limit
    ensures var t := ClaimStep(s, limit, lease);
      Claimable(t.outbox, t.clock, i) && Rank(t.outbox, t.clock, i) < Rank(s.outbox, s.clock, i)
  {
    var t := ClaimStep(s, limit, lease);
    var o, p := s.outbox, t.outbox;
    forall k | 0 <= k < |o|
      ensures Claimable(p, s.clock, k) <==> Claimable(o, s.clock, k) && !Chosen(o, s.clock, limit, k)
    {
      SameClearance(o, p, k);
    }
    var first := FirstClaimable(o, s.clock, i);
    assert Chosen(o, s.clock, limit, first);
    RankSmaller(o, p, s.clock, i);
  }

  /** What the runs built below may do to an event: deliver it, requeue it, or leave it with
      its claim or a newer one. */
  predicate Advanced(e: Event, f: Event) {
    && SameEvent(e, f)
    && (f.status == Delivered
        || (&& (f.status == e.status || (e.status == RepairRequired && f.status == Pending))
            && (e.claim.Some? ==> f.claim.Some?)))
  }

  ghost predicate AdvancedTo(s: State, t: State) {
    && t.gate == s.gate && SameRows(s, t) && |t.outbox| == |s.outbox|
    && forall k :: 0 <= k < |s.outbox| ==> Advanced(s.outbox[k], t.outbox[k])
  }

  lemma AdvancedTrans(s: State, t: State, u: State)
    requires AdvancedTo(s, t) && AdvancedTo(t, u)
    ensures AdvancedTo(s, u)
  {
    forall k | 0 <= k < |s.outbox|
      ensures Advanced(s.outbox[k], u.outbox[k])
    {
      assert Advanced(s.outbox[k], t.outbox[k]) && Advanced(t.outbox[k], u.outbox[k]);
    }
  }

  /** Such a run makes no two events wait for each other. */
  lemma NoNewDeadlock(s: State, t: State, i: nat, j: nat)
    requires AdvancedTo(s, t) && Deadlock(t.outbox, i, j)
    ensures Deadlock(s.outbox, i, j)
  {
    assert Advanced(s.outbox[i], t.outbox[i]) && Advanced(s.outbox[j], t.outbox[j]);
  }

  /** However small its limit, claiming again and again at one instant reaches every
      claimable event. */
  lemma {:induction false} ClaimsReach(s: State, limit: int, lease: int, i: nat) returns (steps: seq<Step>)
    requires ValidClaim(limit, lease) && i < |s.outbox| && Claimable(s.outbox, s.clock, i)
    ensures forall step :: step in steps ==> step == Claim(limit, lease)
    ensures AdvancedTo(s, Run(s, steps))
    ensures Run(s, steps).outbox[i].claim.Some? && Live(Run(s, steps).outbox[i])
    decreases Rank(s.outbox, s.clock, i)
  {
    var t := ClaimStep(s, limit, lease);
    assert AdvancedTo(s, t);
    if Rank(s.outbox, s.clock, i) < limit {
      steps := [Claim(limit, lease)];
      assert steps[1..] == [];
    } else {
      ClaimApproaches(s, limit, lease, i);
      var rest := ClaimsReach(t, limit, lease, i);
      steps := [Claim(limit, lease)] + rest;
      assert steps[1..] == rest;
      AdvancedTrans(s, t, Run(s, steps));
    }
  }

  // ---------------------------------------------------------------- delivering a head

  /** A parked event that a requeue reaches now: an operator's while the gate is open, or
      that of the reset when it is an archive. */
  predicate Repairable(s: State, i: nat)
    requires i < |s.outbox|
  {
    s.outbox[i].status == RepairRequired ==> s.gate.None? || s.outbox[i].typ == Archive
  }

  lemma RunOne(s: State, step: Step)
    ensures Run(s, [step]) == Apply(s, step)
  {
    assert [step][1..] == [];
  }

  /** Bring a parked head back to pending. */
  lemma Unpark(s: State, i: nat) returns (steps: seq<Step>)
    requires Inv(s, false) && i < |s.outbox| && Head(s.outbox, i) && Repairable(s, i)
    ensures AdvancedTo(s, Run(s, steps)) && Live(Run(s, steps).outbox[i])
    ensures s.outbox[i].claim.Some? ==> steps == []
  {
    var e := s.outbox[i];
    assert Sound(e, s.nextClaim);
    if Live(e) {
      steps := [];
    } else if s.gate.None? {
      steps := [Repair(e.name)];
      var pick := PickParked(s.outbox, e.name, |s.outbox|);
      assert ParkedUnder(e, e.name);
      assert Touched(s.outbox[pick.value]);
      assert EarlierDelivered(s.outbox, pick.value);
      RunOne(s, steps[0]);
    } else {
      steps := [RequeueRepairs];
      RunOne(s, steps[0]);
    }
  }

  /** Wait until event i is available, then claim until it is held. */
  lemma AcquireHead(s: State, i: nat) returns (steps: seq<Step>)
    requires Inv(s, false) && i < |s.outbox| && Head(s.outbox, i) && Live(s.outbox[i]) && s.outbox[i].claim.None?
    requires !exists j :: Waits(s.outbox, i, j)
    ensures AdvancedTo(s, Run(s, steps))
    ensures Run(s, steps).outbox[i].claim.Some? && Live(Run(s, steps).outbox[i])
  {
    var d: nat := if s.outbox[i].availableAt <= s.clock then 0 else s.outbox[i].availableAt - s.clock;
    var t := TickStep(s, d);
    HeadIsClear(s, i);
    assert Claimable(t.outbox, t.clock, i);
    var rest := ClaimsReach(t, 100, 60, i);
    steps := [Tick(d)] + rest;
    assert steps[1..] == rest;
    AdvancedTrans(s, t, Run(s, steps));
  }

  lemma {:induction false} DeliverHead(s: State, i: nat) returns (steps: seq<Step>)
    requires Inv(s, false) && i < |s.outbox| && Head(s.outbox, i) && Repairable(s, i)
    requires !exists j :: Deadlock(s.outbox, i, j)
    ensures AdvancedTo(s, Run(s, steps)) && Run(s, steps).outbox[i].status == Delivered
  {
    var unpark := Unpark(s, i);
    var t := Run(s, unpark);
    RunKeeps(s, unpark, false);
    var acquire := [];
    if t.outbox[i].claim.None? {
      forall j: nat | Waits(t.outbox, i, j)
        ensures false
      {
        NoNewDeadlock(s, t, i, j);
      }
      HeadStays(s, t, i);
      acquire := AcquireHead(t, i);
    }
    var u := Run(t, acquire);
    AdvancedTrans(s, t, u);
    var deliver := MarkDelivered(i, u.outbox[i].claim.value.id, "");
    steps := unpark + (acquire + [deliver]);
    RunAppend(s, unpark, acquire + [deliver]);
    RunAppend(t, acquire, [deliver]);
    RunOne(u, deliver);
    ReportAdvances(u, Apply(u, deliver), i);
    AdvancedTrans(s, u, Apply(u, deliver));
  }

  lemma ReportAdvances(u: State, v: State, i: nat)
    requires i < |u.outbox| && u.outbox[i].claim.Some? && Live(u.outbox[i])
    requires v == Apply(u, MarkDelivered(i, u.outbox[i].claim.value.id, ""))
    ensures AdvancedTo(u, v) && v.outbox[i].status == Delivered
  {
  }

  lemma HeadStays(s: State, t: State, i: nat)
    requires AdvancedTo(s, t) && i < |s.outbox| && Head(s.outbox, i) && Undelivered(t.outbox[i])
    ensures Head(t.outbox, i)
  {
    forall j | 0 <= j < i && t.outbox[j].name == t.outbox[i].name
      ensures t.outbox[j].status == Delivered
    {
      assert Advanced(s.outbox[j], t.outbox[j]) && Advanced(s.outbox[i], t.outbox[i]);
    }
  }

  // ---------------------------------------------------------------- draining a name

  ghost predicate Drained(o: seq<Event>, n: Name) {
    forall i :: 0 <= i < |o| && o[i].name == n ==> o[i].status == Delivered
  }

  ghost predicate Deadlocked(o: seq<Event>, n: Name) {
    exists i: nat, j: nat :: Deadlock(o, i, j) && o[i].name == n
  }

  ghost predicate ParkedRepairable(s: State, n: Name) {
    forall i :: 0 <= i < |s.outbox| && s.outbox[i].name == n ==> Repairable(s, i)
  }

  /** The undelivered events of a name among the first k. */
  ghost function Left(o: seq<Event>, n: Name, k: nat): nat
    requires k <= |o|
  {
    if k == 0 then 0 else Left(o, n, k - 1) + if o[k - 1].name == n && Undelivered(o[k - 1]) then 1 else 0
  }

  lemma {:induction false} LeftFalls(s: State, t: State, n: Name, i: nat, k: nat)
    requires AdvancedTo(s, t) && k <= |s.outbox| && i < |s.outbox|
    requires s.outbox[i].name == n && Undelivered(s.outbox[i]) && !Undelivered(t.outbox[i])
    ensures Left(t.outbox, n, k) <= Left(s.outbox, n, k) - if i < k then 1 else 0
  {
    if k > 0 {
      LeftFalls(s, t, n, i, k - 1);
      assert Advanced(s.outbox[k - 1], t.outbox[k - 1]);
    }
  }

  lemma {:induction false} EarliestLeft(o: seq<Event>, n: Name, k: nat) returns (i: nat)
    requires k <= |o| && Left(o, n, k) > 0
    ensures i < k && o[i].name == n && Head(o, i)
  {
    if Left(o, n, k - 1) > 0 {
      i := EarliestLeft(o, n, k - 1);
    } else {
      i := k - 1;
      NoneLeft(o, n, k - 1);
    }
  }

  lemma {:induction false} NoneLeft(o: seq<Event>, n: Name, k: nat)
    requires k <= |o|
    ensures Left(o, n, k) == 0 <==> forall j :: 0 <= j < k && o[j].name == n ==> o[j].status == Delivered
  {
    if k > 0 {
      NoneLeft(o, n, k - 1);
    }
  }

  /** A name that is not deadlocked, with nothing parked out of reach, is drained by waiting,
      requeuing, claiming and delivering alone. */
  lemma {:induction false} Drain(s: State, n: Name) returns (steps: seq<Step>)
    requires Inv(s, false) && ParkedRepairable(s, n) && !Deadlocked(s.outbox, n)
    ensures AdvancedTo(s, Run(s, steps)) && Drained(Run(s, steps).outbox, n)
    decreases Left(s.outbox, n, |s.outbox|)
  {
    NoneLeft(s.outbox, n, |s.outbox|);
    if Left(s.outbox, n, |s.outbox|) == 0 {
      steps := [];
    } else {
      var i := EarliestLeft(s.outbox, n, |s.outbox|);
      assert Repairable(s, i);
      forall j | Deadlock(s.outbox, i, j)
        ensures false
      {
        assert Deadlocked(s.outbox, n);
      }
      var first := DeliverHead(s, i);
      var t := Run(s, first);
      RunKeeps(s, first, false);
      StillDrainable(s, t, n);
      LeftFalls(s, t, n, i, |s.outbox|);
      var rest := Drain(t, n);
      steps := first + rest;
      RunAppend(s, first, rest);
      AdvancedTrans(s, t, Run(t, rest));
    }
  }

  lemma StillDrainable(s: State, t: State, n: Name)
    requires AdvancedTo(s, t) && ParkedRepairable(s, n) && !Deadlocked(s.outbox, n)
    ensures ParkedRepairable(t, n) && !Deadlocked(t.outbox, n)
  {
    forall i: nat, j: nat | Deadlock(t.outbox, i, j) && t.outbox[i].name == n
      ensures false
    {
      assert Advanced(s.outbox[i], t.outbox[i]);
      NoNewDeadlock(s, t, i, j);
    }
    forall k | 0 <= k < |t.outbox| && t.outbox[k].name == n
      ensures Repairable(t, k)
    {
      assert Advanced(s.outbox[k], t.outbox[k]);
      assert Repairable(s, k);
    }
  }

  ghost predicate Drains(s: State, steps: seq<Step>, n: Name) {
    Drained(Run(s, steps).outbox, n)
  }

  ghost predicate Delivers(s: State, steps: seq<Step>, i: nat) {
    i < |Run(s, steps).outbox| && Run(s, steps).outbox[i].status == Delivered
  }

  lemma RunFour(s: State, steps: seq<Step>)
    requires |steps| == 4
    ensures Run(s, steps) == Apply(Apply(Apply(Apply(s, steps[0]), steps[1]), steps[2]), steps[3])
  {
    assert steps == steps[..1] + (steps[1..2] + (steps[2..3] + steps[3..]));
    RunAppend(s, steps[..1], steps[1..2] + (steps[2..3] + steps[3..]));
    RunOne(s, steps[0]);
    var t := Apply(s, steps[0]);
    RunAppend(t, steps[1..2], steps[2..3] + steps[3..]);
    RunOne(t, steps[1]);
    var u := Apply(t, steps[1]);
    RunAppend(u, steps[2..3], steps[3..]);
    RunOne(u, steps[2]);
    RunOne(Apply(u, steps[2]), steps[3]);
    assert steps[..1] == [steps[0]] && steps[1..2] == [steps[1]] && steps[2..3] == [steps[2]] && steps[3..] == [steps[3]];
  }

  /** Two create/drop rounds of one name with no delivery between them deadlock it for good. */
  lemma TwoRoundsNeverDrain(s: State, n: Name, a: string, steps: seq<Step>)
    requires Reachable(s) && s.gate.None? && n !in s.defs
    ensures var t := Run(s, [Create(n, false, a), Drop(n, a), Create(n, false, a), Drop(n, a)]);
      !Drained(Run(t, steps).outbox, n)
  {
    var s1 := Apply(s, Create(n, false, a));
    var s2 := Apply(s1, Drop(n, a));
    var s3 := Apply(s2, Create(n, false, a));
    var t := Apply(s3, Drop(n, a));
    var round := [Create(n, false, a), Drop(n, a), Create(n, false, a), Drop(n, a)];
    RunFour(s, round);
    ReachableStep(s, Create(n, false, a));
    ReachableStep(s1, Drop(n, a));
    ReachableStep(s2, Create(n, false, a));
    ReachableStep(s3, Drop(n, a));
    ReachableInv(t);
    var k := |s.outbox|;
    assert Deadlock(t.outbox, k, k + 3);
    DeadlockForever(t, steps, k, k + 3);
    DeliveredForGood(t, steps);
    assert SameEvent(t.outbox[k], Run(t, steps).outbox[k]);
  }
}
