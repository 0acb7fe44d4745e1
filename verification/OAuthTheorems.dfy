/** What holds of the authorization server's records in every interleaving: one live refresh
    token to a family, one use to a one-shot record, and what revocation and the recovery epoch
    put an end to. */
module OAuthTheorems {
  import opened OAuthModel
  import opened Wrappers

  // ---------------------------------------------------------------- refresh families

  type Refreshes = map<nat, Refresh>

  /** The one token of a family that is not spent. */
  ghost predicate OnlyLive(refreshes: Refreshes, f: nat, t: nat) {
    && t in refreshes && refreshes[t].family == f && refreshes[t].consumedAt.None?
    && forall u :: u in refreshes && refreshes[u].family == f && refreshes[u].consumedAt.None? ==> u == t
  }

  /** A spent token names a later one of its family as its successor; a live one names none. */
  ghost predicate ChainOk(refreshes: Refreshes, t: nat)
    requires t in refreshes
  {
    && (refreshes[t].consumedAt.Some? <==> refreshes[t].replacedBy.Some?)
    && (refreshes[t].replacedBy.Some? ==>
          var u := refreshes[t].replacedBy.value;
          u in refreshes && u > t && refreshes[u].family == refreshes[t].family)
  }

  ghost predicate HasLive(refreshes: Refreshes, f: nat) {
    exists t: nat :: OnlyLive(refreshes, f, t)
  }

  ghost predicate TokensOk(r: Ring, next: nat) {
    forall t :: t in r.refreshes ==> t < next && r.refreshes[t].family in r.families && ChainOk(r.refreshes, t)
  }

  ghost predicate RingInv(r: Ring, next: nat) {
    && (forall f :: f in r.families ==> f < next && r.families[f].grant < next && HasLive(r.refreshes, f))
    && TokensOk(r, next)
  }

  lemma RingLater(r: Ring, next: nat, later: nat)
    requires RingInv(r, next) && next <= later
    ensures RingInv(r, later)
  {
    hide ChainOk, HasLive;
  }

  /** At most revoked: the families that were there, and those that were revoked still. */
  ghost predicate OnlyRevoked(families: map<nat, Family>, after: map<nat, Family>) {
    && after.Keys == families.Keys
    && forall f :: f in families ==>
         after[f] == families[f].(revoked := after[f].revoked) && (families[f].revoked ==> after[f].revoked)
  }

  /** Revoking families does not matter to their tokens. */
  lemma RevokedKeeps(r: Ring, next: nat, t: Ring)
    requires RingInv(r, next) && OnlyRevoked(r.families, t.families) && t.refreshes == r.refreshes
    ensures RingInv(t, next)
  {
    hide ChainOk, HasLive;
  }

  /** A token of a new family leaves the others alone. */
  lemma OthersLive(refreshes: Refreshes, f: nat, id: nat, row: Refresh)
    requires HasLive(refreshes, f) && id !in refreshes && row.family != f
    ensures HasLive(refreshes[id := row], f)
  {
    var u: nat :| OnlyLive(refreshes, f, u);
    assert OnlyLive(refreshes[id := row], f, u);
  }

  lemma OthersChained(refreshes: Refreshes, id: nat, row: Refresh, t: nat)
    requires id !in refreshes && row.consumedAt.None? && row.replacedBy.None?
    requires t in refreshes[id := row] && (t in refreshes ==> ChainOk(refreshes, t))
    ensures ChainOk(refreshes[id := row], t)
  {
  }

  lemma FirstLive(r: Ring, f: nat, id: nat, row: Refresh)
    requires TokensOk(r, f) && f !in r.families && row.family == f && row.consumedAt.None?
    ensures HasLive(r.refreshes[id := row], f)
  {
    assert OnlyLive(r.refreshes[id := row], f, id);
  }

  lemma StartKeeps(r: Ring, grant: nat, client: nat, now: int, next: nat)
    requires RingInv(r, next) && grant < next
    ensures RingInv(StartFamily(r, grant, client, now, next), next + 2)
  {
    hide HasLive, ChainOk;
    var t := StartFamily(r, grant, client, now, next);
    var id, row := next + 1, Fresh(next, now);
    forall f | f in t.families
      ensures HasLive(t.refreshes, f)
    {
      if f == next {
        FirstLive(r, next, id, row);
      } else {
        OthersLive(r.refreshes, f, id, row);
      }
    }
    forall u | u in t.refreshes
      ensures ChainOk(t.refreshes, u)
    {
      OthersChained(r.refreshes, id, row, u);
    }
  }

  /** The live tokens of a family are spent in favour of one new token. */
  ghost predicate Supersedes(refreshes: Refreshes, next: nat, f: nat, at: int, after: Refreshes) {
    && after.Keys == refreshes.Keys + {next} && next !in refreshes && after[next] == Fresh(f, at)
    && forall u :: u in refreshes ==> after[u] == Replaced(refreshes[u], f, at, next)
  }

  lemma SupersededLive(refreshes: Refreshes, next: nat, f: nat, at: int, after: Refreshes, g: nat)
    requires Supersedes(refreshes, next, f, at, after) && (g == f || HasLive(refreshes, g))
    ensures HasLive(after, g)
  {
    if g == f {
      assert OnlyLive(after, f, next);
    } else {
      var t: nat :| OnlyLive(refreshes, g, t);
      assert OnlyLive(after, g, t);
    }
  }

  lemma SupersededChain(refreshes: Refreshes, next: nat, f: nat, at: int, after: Refreshes, t: nat)
    requires Supersedes(refreshes, next, f, at, after) && t in after
    requires t in refreshes ==> t < next && ChainOk(refreshes, t)
    ensures ChainOk(after, t)
  {
  }

  lemma SupersedeKeeps(r: Ring, next: nat, f: nat, at: int, t: Ring)
    requires RingInv(r, next) && f in r.families && t.families == r.families
    requires Supersedes(r.refreshes, next, f, at, t.refreshes)
    ensures RingInv(t, next + 1)
  {
    hide HasLive, ChainOk;
    forall g | g in t.families
      ensures HasLive(t.refreshes, g)
    {
      SupersededLive(r.refreshes, next, f, at, t.refreshes, g);
    }
    forall u | u in t.refreshes
      ensures u < next + 1 && t.refreshes[u].family in t.families && ChainOk(t.refreshes, u)
    {
      SupersededChain(r.refreshes, next, f, at, t.refreshes, u);
      if u != next {
        assert t.refreshes[u] == Replaced(r.refreshes[u], f, at, next);
      }
    }
  }

  /** A rotation spends the one live token of the family. */
  lemma RotateSupersedes(r: Ring, t: nat, now: int, next: nat)
    requires t in r.refreshes && r.refreshes[t].consumedAt.None? && next !in r.refreshes
    requires HasLive(r.refreshes, r.refreshes[t].family)
    ensures Supersedes(r.refreshes, next, r.refreshes[t].family, now, RotateRing(r, t, now, next).refreshes)
  {
    var live: nat :| OnlyLive(r.refreshes, r.refreshes[t].family, live);
    assert live == t;
  }

  lemma NextUnused(r: Ring, next: nat)
    requires RingInv(r, next)
    ensures next !in r.refreshes && next !in r.families
  {
    hide ChainOk, HasLive;
  }

  lemma RotateKeeps(s: State, x: nat)
    requires RingInv(s.ring, s.next)
    ensures RingInv(Rotate(s, x).ring, Rotate(s, x).next)
  {
    hide HasLive, ChainOk, Supersedes;
    if Rotatable(s, x) {
      NextUnused(s.ring, s.next);
      RotateSupersedes(s.ring, x, s.clock, s.next);
      SupersedeKeeps(s.ring, s.next, s.ring.refreshes[x].family, s.clock, RotateRing(s.ring, x, s.clock, s.next));
    }
  }

  lemma WriteRetryKeeps(s: State, x: nat, began: int)
    requires RingInv(s.ring, s.next)
    ensures RingInv(WriteRetry(s, x, began).ring, WriteRetry(s, x, began).next)
  {
    hide HasLive, ChainOk;
    if Retriable(s.ring, x, began) {
      NextUnused(s.ring, s.next);
      SupersedeKeeps(s.ring, s.next, s.ring.refreshes[x].family, began, WriteRetry(s, x, began).ring);
    }
  }

  lemma SweptLive(r: Ring, now: int, f: nat)
    requires f in SweepRing(r, now).families && HasLive(r.refreshes, f)
    ensures HasLive(SweepRing(r, now).refreshes, f)
  {
    var u: nat :| OnlyLive(r.refreshes, f, u);
    assert OnlyLive(SweepRing(r, now).refreshes, f, u);
  }

  lemma SweptChain(r: Ring, now: int, u: nat)
    requires u in SweepRing(r, now).refreshes && ChainOk(r.refreshes, u)
    ensures ChainOk(SweepRing(r, now).refreshes, u)
  {
  }

  lemma SweepKeeps(r: Ring, now: int, next: nat)
    requires RingInv(r, next)
    ensures RingInv(SweepRing(r, now), next)
  {
    hide HasLive, ChainOk;
    var t := SweepRing(r, now);
    forall f | f in t.families
      ensures HasLive(t.refreshes, f)
    {
      SweptLive(r, now, f);
    }
    forall u | u in t.refreshes
      ensures ChainOk(t.refreshes, u)
    {
      SweptChain(r, now, u);
    }
  }

  /** Rotations, retries, new families and the sweep of expired ones write the tokens; no other
      step does, and it at most revokes families. */
  predicate WritesTokens(step: Step) {
    step.OpenFamily? || step.Present? || step.EndRetry? || step.Sweep?
  }

  lemma OtherRing(s: State, step: Step)
    requires !WritesTokens(step)
    ensures var t := Apply(s, step);
      t.ring.refreshes == s.ring.refreshes && OnlyRevoked(s.ring.families, t.ring.families) && s.next <= t.next
  {
    hide Rotatable, Explain, Exchangeable;
  }

  lemma RingStep(s: State, step: Step, t: State)
    requires RingInv(s.ring, s.next) && t == Apply(s, step)
    ensures RingInv(t.ring, t.next) && s.next <= t.next
  {
    hide RingInv, OnlyRevoked, Rotatable, SweepRing, SweepDesk;
    if WritesTokens(step) {
      match step
      case OpenFamily(g, c) => if g < s.next { StartKeeps(s.ring, g, c, s.clock, s.next); }
      case Present(x) => RotateKeeps(s, x);
      case EndRetry(x, began) => WriteRetryKeeps(s, x, began);
      case Sweep => SweepKeeps(s.ring, s.clock, s.next);
    } else {
      OtherRingStep(s, step, t);
    }
  }

  lemma OtherRingStep(s: State, step: Step, t: State)
    requires RingInv(s.ring, s.next) && t == Apply(s, step) && !WritesTokens(step)
    ensures RingInv(t.ring, t.next) && s.next <= t.next
  {
    hide RingInv, OnlyRevoked, Apply;
    OtherRing(s, step);
    RevokedKeeps(s.ring, s.next, t.ring);
    RingLater(t.ring, s.next, t.next);
  }

  lemma {:induction false} RingRun(s: State, steps: seq<Step>)
    requires RingInv(s.ring, s.next)
    ensures RingInv(Run(s, steps).ring, Run(s, steps).next)
    decreases |steps|
  {
    hide RingInv, Apply;
    if steps != [] {
      RingStep(s, steps[0], Apply(s, steps[0]));
      RingRun(Apply(s, steps[0]), steps[1..]);
    }
  }

  /** Follow the successors of a token to the end of the chain. */
  function ChainEnd(refreshes: Refreshes, t: nat, next: nat): nat
    decreases next - t
  {
    if t in refreshes && refreshes[t].replacedBy.Some? && t < refreshes[t].replacedBy.value < next
    then ChainEnd(refreshes, refreshes[t].replacedBy.value, next)
    else t
  }

  lemma {:induction false} ChainEndIsLive(r: Ring, next: nat, t: nat)
    requires RingInv(r, next) && t in r.refreshes
    ensures OnlyLive(r.refreshes, r.refreshes[t].family, ChainEnd(r.refreshes, t, next))
    decreases next - t
  {
    assert ChainOk(r.refreshes, t);
    if r.refreshes[t].replacedBy.Some? {
      ChainEndIsLive(r, next, r.refreshes[t].replacedBy.value);
    } else {
      assert HasLive(r.refreshes, r.refreshes[t].family);
      var u: nat :| OnlyLive(r.refreshes, r.refreshes[t].family, u);
    }
  }

  /** After any run, however rotations and retries raced, every family has exactly one token that
      is not spent, and the successors of each of its tokens lead to that one. */
  lemma FamilyNeverForks(steps: seq<Step>, f: nat)
    requires f in Run(Init, steps).ring.families
    ensures var s := Run(Init, steps);
      && (exists t :: OnlyLive(s.ring.refreshes, f, t))
      && forall t :: t in s.ring.refreshes && s.ring.refreshes[t].family == f ==>
           OnlyLive(s.ring.refreshes, f, ChainEnd(s.ring.refreshes, t, s.next))
  {
    RingRun(Init, steps);
    var s := Run(Init, steps);
    assert HasLive(s.ring.refreshes, f);
    forall t | t in s.ring.refreshes && s.ring.refreshes[t].family == f
      ensures OnlyLive(s.ring.refreshes, f, ChainEnd(s.ring.refreshes, t, s.next))
    {
      ChainEndIsLive(s.ring, s.next, t);
    }
  }

  // ---------------------------------------------------------------- what a step writes down

  /** The state that justifies an entry of the log. */
  predicate Justified(s: State, e: Event) {
    match e
    case Rotated(t, f, g, at) =>
      Rotatable(s, t) && f == s.ring.refreshes[t].family && g == s.ring.families[f].grant && at == s.clock
    case Retried(t, f, at) => Retriable(s.ring, t, at) && f == s.ring.refreshes[t].family
    case Replayed(t, f) => Explain(s, t) == Replay && f == s.ring.refreshes[t].family
    case Taken(c, client, g, at) => Redeemable(s, c, client) && g == s.desk.codes[c].grant && at == s.clock
    case Spent(t, g, b, at) => Spendable(s, t, b) && g == s.desk.accesses[t].grant && at == s.clock
    case Consented(p, form, x) => Consentable(s, p, form, x)
  }

  /** The step wrote at most one entry, justified by the state before it. */
  predicate Logs(s: State, t: State) {
    || t.log == s.log
    || (|t.log| == |s.log| + 1 && t.log[..|s.log|] == s.log && Justified(s, t.log[|s.log|]))
  }

  lemma StepLogs(s: State, step: Step, t: State)
    requires t == Apply(s, step)
    ensures Logs(s, t)
  {
    hide Rotatable, Explain, Exchangeable, Consentable, Spendable, Redeemable;
    ExplainedReplay(s);
    if t.log != s.log {
      assert t.log[..|s.log|] == s.log;
    }
  }

  lemma ExplainedReplay(s: State)
    ensures forall x: nat :: Explain(s, x) == Replay ==>
      x in s.ring.refreshes && s.ring.refreshes[x].family in s.ring.families
  {
  }

  // ---------------------------------------------------------------- revocation is final

  /** Revoked, or gone for good. */
  predicate GrantDead(s: State, g: nat) {
    g < s.next && (g in s.grants ==> s.grants[g].revoked)
  }

  predicate FamilyDead(s: State, f: nat) {
    f < s.next && (f in s.ring.families ==> s.ring.families[f].revoked)
  }

  lemma GrantStaysDead(s: State, step: Step, t: State, g: nat)
    requires t == Apply(s, step) && GrantDead(s, g)
    ensures GrantDead(t, g)
  {
    hide Rotatable, Explain, Exchangeable, Consentable, Spendable, Redeemable, Retriable;
  }

  lemma FamilyStaysDead(s: State, step: Step, t: State, f: nat)
    requires t == Apply(s, step) && FamilyDead(s, f)
    ensures FamilyDead(t, f)
  {
    hide OnlyRevoked, Rotatable, Explain, Exchangeable, Retriable;
    if !WritesTokens(step) {
      OtherRing(s, step);
      RevokedStays(s.ring.families, t.ring.families);
    }
  }

  lemma RevokedStays(families: map<nat, Family>, after: map<nat, Family>)
    requires OnlyRevoked(families, after)
    ensures after.Keys == families.Keys
    ensures forall f :: f in families && families[f].revoked ==> after[f].revoked
  {
  }

  predicate UsesGrant(e: Event, g: nat) {
    (e.Rotated? && e.grant == g) || (e.Spent? && e.grant == g)
  }

  predicate UsesFamily(e: Event, f: nat) {
    e.Rotated? && e.family == f
  }

  /** Once a grant is revoked, whichever statement did it, no run rotates a refresh token or
      spends an access token under it again, and introspection calls none of its tokens active. */
  lemma {:induction false} RevokedGrantIsDead(s: State, g: nat, steps: seq<Step>)
    requires GrantDead(s, g)
    ensures var t := Run(s, steps);
      && |s.log| <= |t.log| && GrantDead(t, g)
      && (forall k :: |s.log| <= k < |t.log| ==> !UsesGrant(t.log[k], g))
      && forall x :: Active(t, x) ==> t.desk.accesses[x].grant != g
    decreases |steps|
  {
    hide Apply, Rotatable;
    if steps != [] {
      var u := Apply(s, steps[0]);
      StepLogs(s, steps[0], u);
      GrantStaysDead(s, steps[0], u, g);
      EntryNotUnder(s, u, g);
      RevokedGrantIsDead(u, g, steps[1..]);
      LogsGrow(u, steps[1..]);
    }
  }

  lemma EntryNotUnder(s: State, u: State, g: nat)
    requires Logs(s, u) && GrantDead(s, g)
    ensures |s.log| <= |u.log|
    ensures forall k :: |s.log| <= k < |u.log| ==> !UsesGrant(u.log[k], g)
  {
  }

  lemma EntryNotOf(s: State, u: State, f: nat)
    requires Logs(s, u) && FamilyDead(s, f)
    ensures |s.log| <= |u.log|
    ensures forall k :: |s.log| <= k < |u.log| ==> !UsesFamily(u.log[k], f)
  {
  }

  /** Nothing is ever struck from the log. */
  lemma {:induction false} LogsGrow(s: State, steps: seq<Step>)
    ensures s.log <= Run(s, steps).log
    decreases |steps|
  {
    hide Apply;
    if steps != [] {
      StepLogs(s, steps[0], Apply(s, steps[0]));
      LogsGrow(Apply(s, steps[0]), steps[1..]);
    }
  }

  lemma {:induction false} RevokedFamilyIsDead(s: State, f: nat, steps: seq<Step>)
    requires FamilyDead(s, f)
    ensures var t := Run(s, steps);
      && |s.log| <= |t.log| && FamilyDead(t, f)
      && forall k :: |s.log| <= k < |t.log| ==> !UsesFamily(t.log[k], f)
    decreases |steps|
  {
    hide Apply, Rotatable;
    if steps != [] {
      var u := Apply(s, steps[0]);
      StepLogs(s, steps[0], u);
      FamilyStaysDead(s, steps[0], u, f);
      EntryNotOf(s, u, f);
      RevokedFamilyIsDead(u, f, steps[1..]);
      LogsGrow(u, steps[1..]);
    }
  }

  /** A replayed refresh token costs its holder everything: from the detection on, in every run,
      nothing of the family rotates, nothing under the grant rotates or is spent, and no token of
      the grant is active, also where a retry or an exchange was under way. */
  lemma ReplayEndsTheGrant(before: seq<Step>, x: nat, after: seq<Step>)
    requires var s := Run(Init, before); !Rotatable(s, x) && Explain(s, x) == Replay
    ensures var s := Run(Init, before);
      var f := s.ring.refreshes[x].family;
      var g := s.ring.families[f].grant;
      var u := Apply(s, DetectReplay(x));
      var t := Run(u, after);
      && |u.log| <= |t.log|
      && (forall k :: |u.log| <= k < |t.log| ==> !UsesFamily(t.log[k], f) && !UsesGrant(t.log[k], g))
      && forall y :: Active(t, y) ==> t.desk.accesses[y].grant != g
  {
    var s := Run(Init, before);
    var f := s.ring.refreshes[x].family;
    var g := s.ring.families[f].grant;
    var u := Apply(s, DetectReplay(x));
    RingRun(Init, before);
    BothDead(s, x, u, f, g);
    RevokedFamilyIsDead(u, f, after);
    RevokedGrantIsDead(u, g, after);
  }

  lemma BothDead(s: State, x: nat, u: State, f: nat, g: nat)
    requires RingInv(s.ring, s.next) && !Rotatable(s, x) && Explain(s, x) == Replay && u == ReplayDetected(s, x)
    requires f == s.ring.refreshes[x].family && g == s.ring.families[f].grant
    ensures FamilyDead(u, f) && GrantDead(u, g)
  {
    hide HasLive, ChainOk, Rotatable;
  }

  // ---------------------------------------------------------------- the recovery epoch

  /** No authority below n is left. */
  ghost predicate NothingBelow(s: State, n: nat) {
    && n <= s.next
    && (forall g :: g in s.grants && g < n ==> s.grants[g].revoked)
    && (forall f :: f in s.ring.families && f < n ==> s.ring.families[f].revoked)
    && (forall c :: c in s.desk.codes ==> c >= n) && (forall p :: p in s.desk.parked ==> p >= n)
    && (forall x :: x in s.desk.sessions ==> x >= n)
  }

  lemma StaysBelow(s: State, step: Step, t: State, n: nat)
    requires t == Apply(s, step) && NothingBelow(s, n)
    ensures NothingBelow(t, n)
  {
    hide Apply;
    forall f | f in t.ring.families && f < n
      ensures t.ring.families[f].revoked
    {
      assert FamilyDead(s, f);
      FamilyStaysDead(s, step, t, f);
    }
    forall g | g in t.grants && g < n
      ensures t.grants[g].revoked
    {
      assert GrantDead(s, g);
      GrantStaysDead(s, step, t, g);
    }
    CodesAreNew(s, step, t);
    ParkedAreNew(s, step, t);
  }

  /** Identifiers of new records are taken from the counter. */
  predicate NewFrom(keys: set<nat>, after: set<nat>, next: nat, later: nat) {
    next <= later && forall k :: k in after && k !in keys ==> next <= k < later
  }

  lemma CodesAreNew(s: State, step: Step, t: State)
    requires t == Apply(s, step)
    ensures NewFrom(s.desk.codes.Keys, t.desk.codes.Keys, s.next, t.next)
  {
    hide Rotatable, Explain, Exchangeable, Retriable, Spendable, Consentable, Waiting, RotateRing, SupersedeRing;
    if !WritesCodes(step) {
      CodesUntouched(s, step, t);
    }
  }

  lemma AccessesAreNew(s: State, step: Step, t: State)
    requires t == Apply(s, step)
    ensures NewFrom(s.desk.accesses.Keys, t.desk.accesses.Keys, s.next, t.next)
  {
    hide Rotatable, Explain, Exchangeable, Retriable, Redeemable, Consentable, Waiting, RotateRing, SupersedeRing;
    if !WritesAccesses(step) {
      AccessesUntouched(s, step, t);
    }
  }

  lemma ParkedAreNew(s: State, step: Step, t: State)
    requires t == Apply(s, step)
    ensures NewFrom(s.desk.parked.Keys, t.desk.parked.Keys, s.next, t.next)
    ensures NewFrom(s.desk.sessions.Keys, t.desk.sessions.Keys, s.next, t.next)
  {
    hide Rotatable, Explain, Exchangeable, Retriable, Redeemable, Spendable, RotateRing, SupersedeRing;
  }

  lemma AsksAreNew(s: State, step: Step, t: State)
    requires t == Apply(s, step)
    ensures NewFrom(s.desk.asks.Keys, t.desk.asks.Keys, s.next, t.next)
  {
    hide Rotatable, Explain, Exchangeable, Retriable, Redeemable, Spendable, Consentable, Waiting, RotateRing,
      SupersedeRing;
  }

  /** The record that an entry draws on is no older than n. */
  predicate DrawsOn(e: Event, n: nat) {
    match e
    case Rotated(_, f, g, _) => f >= n && g >= n
    case Taken(c, _, _, _) => c >= n
    case Spent(_, g, _, _) => g >= n
    case Consented(p, _, _) => p >= n
    case _ => true
  }

  lemma EntryAbove(s: State, u: State, n: nat)
    requires Logs(s, u) && NothingBelow(s, n)
    ensures |s.log| <= |u.log|
    ensures forall k :: |s.log| <= k < |u.log| ==> DrawsOn(u.log[k], n)
  {
  }

  lemma {:induction false} NothingBelowRun(s: State, n: nat, steps: seq<Step>)
    requires NothingBelow(s, n)
    ensures var t := Run(s, steps);
      && |s.log| <= |t.log| && NothingBelow(t, n)
      && forall k :: |s.log| <= k < |t.log| ==> DrawsOn(t.log[k], n)
    decreases |steps|
  {
    hide Apply, NothingBelow, Rotatable;
    if steps != [] {
      var u := Apply(s, steps[0]);
      StepLogs(s, steps[0], u);
      StaysBelow(s, steps[0], u, n);
      EntryAbove(s, u, n);
      NothingBelowRun(u, n, steps[1..]);
      LogsGrow(u, steps[1..]);
    }
  }

  /** From any database, once the epoch has advanced, no record it held is ever rotated, taken,
      spent or consented to, no token under its grants is active or redeems a read, and none of
      its browser sessions is left, whatever retries and exchanges were under way. */
  lemma NoOAuthRecordSurvives(s: State, steps: seq<Step>)
    ensures var u := Apply(s, AdvanceEpoch);
      var t := Run(u, steps);
      && |u.log| <= |t.log|
      && (forall k :: |u.log| <= k < |t.log| ==> DrawsOn(t.log[k], s.next))
      && (forall x :: Active(t, x) ==> t.desk.accesses[x].grant >= s.next)
      && (forall x, b :: ReadRedeems(t, x, b) ==> t.desk.accesses[x].grant >= s.next)
      && forall x :: x in t.desk.sessions ==> x >= s.next
  {
    var u := Apply(s, AdvanceEpoch);
    assert NothingBelow(u, s.next);
    NothingBelowRun(u, s.next, steps);
  }

  // ---------------------------------------------------------------- one use

  /** The record that an entry used up: spent if it is still there, within its time, for what it
      was made for. */
  predicate Marked(s: State, e: Event) {
    match e
    case Rotated(t, f, _, at) =>
      && t < s.next && f < s.next && (t in s.ring.refreshes ==> s.ring.refreshes[t].consumedAt.Some?)
      && (f in s.ring.families ==> at < s.ring.families[f].expiresAt)
    case Retried(_, f, at) => f < s.next && (f in s.ring.families ==> at < s.ring.families[f].expiresAt)
    case Replayed(_, _) => true
    case Taken(c, client, g, at) =>
      && c < s.next
      && (c in s.desk.codes ==>
            var row := s.desk.codes[c];
            row.consumed && row.client == client && row.grant == g && at < row.expiresAt)
    case Spent(t, g, b, at) =>
      && t < s.next && t in s.desk.accesses
      && var row := s.desk.accesses[t];
         row.consumed && row.singleUse && row.binding == Some(b) && row.grant == g && at < row.expiresAt
    case Consented(p, _, _) => p < s.next && (p in s.desk.parked ==> s.desk.parked[p].consumed)
  }

  /** Two entries that use up the same one-shot record. */
  predicate SameRecord(e: Event, x: Event) {
    || (e.Rotated? && x.Rotated? && e.token == x.token)
    || (e.Taken? && x.Taken? && e.code == x.code)
    || (e.Spent? && x.Spent? && e.token == x.token)
    || (e.Consented? && x.Consented? && e.parked == x.parked)
  }

  ghost predicate KeysInv(s: State) {
    && (forall c :: c in s.desk.codes ==> c < s.next)
    && (forall t :: t in s.desk.accesses ==> t < s.next)
    && (forall p :: p in s.desk.parked ==> p < s.next)
    && (forall k :: k in s.desk.asks ==> k < s.next)
  }

  /** An admitted retry began before the deadline of its family. */
  ghost predicate RetriesInv(r: Ring, next: nat) {
    forall t: nat, began: int :: (t, began) in r.retries ==>
      t < next && (t in r.refreshes && r.refreshes[t].family in r.families ==>
                     began < r.families[r.refreshes[t].family].expiresAt)
  }

  ghost predicate OneShot(s: State) {
    && (forall k :: 0 <= k < |s.log| ==> Marked(s, s.log[k]))
    && forall j, k :: 0 <= j < k < |s.log| ==> !SameRecord(s.log[j], s.log[k])
  }

  lemma KeysStep(s: State, step: Step, t: State)
    requires KeysInv(s) && t == Apply(s, step)
    ensures KeysInv(t)
  {
    hide Apply;
    CodesAreNew(s, step, t);
    AccessesAreNew(s, step, t);
    ParkedAreNew(s, step, t);
    AsksAreNew(s, step, t);
  }

  /** Records that are in use stay as they are but for their flags; new ones are new. */
  ghost predicate CodesKept(codes: map<nat, Code>, after: map<nat, Code>, next: nat) {
    forall c :: c in after && c < next ==>
      c in codes && after[c] == codes[c].(consumed := after[c].consumed) && (codes[c].consumed ==> after[c].consumed)
  }

  ghost predicate AccessesKept(accesses: map<nat, Access>, after: map<nat, Access>, next: nat) {
    forall x :: x in accesses && x < next ==>
      && x in after && (accesses[x].consumed ==> after[x].consumed)
      && after[x] == accesses[x].(revoked := after[x].revoked, consumed := after[x].consumed)
  }

  ghost predicate ParkedKept(parked: map<nat, Parked>, after: map<nat, Parked>, next: nat) {
    forall p :: p in after && p < next ==> p in parked && (parked[p].consumed ==> after[p].consumed)
  }

  ghost predicate DeskKept(s: State, t: State) {
    && s.next <= t.next && CodesKept(s.desk.codes, t.desk.codes, s.next)
    && AccessesKept(s.desk.accesses, t.desk.accesses, s.next) && ParkedKept(s.desk.parked, t.desk.parked, s.next)
  }

  ghost predicate RingKept(s: State, t: State) {
    && s.next <= t.next
    && (forall f :: f in t.ring.families && f < s.next ==>
          f in s.ring.families && t.ring.families[f].expiresAt == s.ring.families[f].expiresAt)
    && (forall x :: x in t.ring.refreshes && x < s.next ==>
          x in s.ring.refreshes && t.ring.refreshes[x].family == s.ring.refreshes[x].family
          && (s.ring.refreshes[x].consumedAt.Some? ==> t.ring.refreshes[x].consumedAt.Some?))
  }

  predicate WritesCodes(step: Step) {
    step.SaveCode? || step.RedeemCode? || step.Sweep? || step.AdvanceEpoch?
  }

  lemma CodesStep(s: State, step: Step, t: State)
    requires t == Apply(s, step)
    ensures CodesKept(s.desk.codes, t.desk.codes, s.next)
  {
    hide Rotatable, Explain, Exchangeable, Retriable, Spendable, Consentable, Waiting;
    if !WritesCodes(step) {
      CodesUntouched(s, step, t);
    }
  }

  lemma CodesUntouched(s: State, step: Step, t: State)
    requires t == Apply(s, step) && !WritesCodes(step)
    ensures t.desk.codes == s.desk.codes
  {
    hide Rotatable, Explain, Exchangeable, Retriable, Spendable, Consentable, Waiting;
  }

  predicate WritesAccesses(step: Step) {
    step.SaveToken? || step.EndExchange? || step.SpendToken? || step.AdvanceEpoch?
  }

  lemma AccessesStep(s: State, step: Step, t: State)
    requires t == Apply(s, step)
    ensures AccessesKept(s.desk.accesses, t.desk.accesses, s.next)
  {
    hide Rotatable, Explain, Exchangeable, Retriable, Redeemable, Consentable, Waiting;
    if !WritesAccesses(step) {
      AccessesUntouched(s, step, t);
    }
  }

  lemma AccessesUntouched(s: State, step: Step, t: State)
    requires t == Apply(s, step) && !WritesAccesses(step)
    ensures t.desk.accesses == s.desk.accesses
  {
    hide Rotatable, Explain, Exchangeable, Retriable, Redeemable, Consentable, Waiting;
  }

  lemma ParkedStep(s: State, step: Step, t: State)
    requires t == Apply(s, step)
    ensures ParkedKept(s.desk.parked, t.desk.parked, s.next) && s.next <= t.next
  {
    hide Rotatable, Explain, Exchangeable, Retriable, Redeemable, Spendable;
  }

  lemma DeskStep(s: State, step: Step, t: State)
    requires t == Apply(s, step)
    ensures DeskKept(s, t)
  {
    hide Apply, CodesKept, AccessesKept, ParkedKept;
    CodesStep(s, step, t);
    AccessesStep(s, step, t);
    ParkedStep(s, step, t);
  }

  lemma RingKeptStep(s: State, step: Step, t: State)
    requires t == Apply(s, step)
    ensures RingKept(s, t)
  {
    hide Explain, Exchangeable, OnlyRevoked, Redeemable, Spendable, Consentable, Waiting, SweepDesk, ReadExchange,
      WriteExchange, RevokeDesk;
    if !WritesTokens(step) {
      OtherRing(s, step);
      ExpiryKept(s.ring.families, t.ring.families);
    }
  }

  lemma ExpiryKept(families: map<nat, Family>, after: map<nat, Family>)
    requires OnlyRevoked(families, after)
    ensures after.Keys == families.Keys && forall f :: f in families ==> after[f].expiresAt == families[f].expiresAt
  {
  }

  lemma MarkedStays(s: State, t: State, e: Event)
    requires DeskKept(s, t) && RingKept(s, t) && Marked(s, e)
    ensures Marked(t, e)
  {
  }

  lemma RetriesLater(s: State, t: State)
    requires RingInv(s.ring, s.next) && RetriesInv(s.ring, s.next)
    requires RingKept(s, t) && t.ring.retries <= s.ring.retries
    ensures RetriesInv(t.ring, t.next)
  {
    hide HasLive, ChainOk;
  }

  lemma RetriesStep(s: State, step: Step, t: State)
    requires RingInv(s.ring, s.next) && RetriesInv(s.ring, s.next) && t == Apply(s, step)
    ensures RetriesInv(t.ring, t.next)
  {
    hide RetriesInv, RingKept, Exchangeable, HasLive, ChainOk;
    if step.BeginRetry? {
      RetryAdmitted(s, step.token, t);
    } else {
      RingKeptStep(s, step, t);
      FewerRetries(s, step, t);
      RetriesLater(s, t);
    }
  }

  lemma FewerRetries(s: State, step: Step, t: State)
    requires t == Apply(s, step) && !step.BeginRetry?
    ensures t.ring.retries <= s.ring.retries
  {
    hide Rotatable, Explain, Exchangeable;
  }

  lemma RetryAdmitted(s: State, x: nat, t: State)
    requires RingInv(s.ring, s.next) && RetriesInv(s.ring, s.next) && t == ReadRetry(s, x)
    ensures RetriesInv(t.ring, t.next)
  {
    hide HasLive, ChainOk, Rotatable;
  }

  predicate Writes(step: Step) {
    step.Present? || step.EndRetry? || step.DetectReplay? || step.RedeemCode? || step.SpendToken? || step.Consent?
  }

  lemma OthersWriteNothing(s: State, step: Step, t: State)
    requires t == Apply(s, step) && !Writes(step)
    ensures t.log == s.log
  {
    hide Exchangeable, Rotatable, Explain;
  }

  /** What a step writes down, it has done. */
  lemma EntryMarked(s: State, step: Step, t: State)
    requires RingInv(s.ring, s.next) && KeysInv(s) && RetriesInv(s.ring, s.next) && t == Apply(s, step)
    requires |t.log| == |s.log| + 1
    ensures Marked(t, t.log[|s.log|])
  {
    hide HasLive, ChainOk, Exchangeable;
    if !Writes(step) {
      OthersWriteNothing(s, step, t);
    } else {
      WritingMarks(s, step, t);
    }
  }

  lemma WritingMarks(s: State, step: Step, t: State)
    requires RingInv(s.ring, s.next) && KeysInv(s) && RetriesInv(s.ring, s.next) && t == Apply(s, step)
    requires |t.log| == |s.log| + 1 && Writes(step)
    ensures Marked(t, t.log[|s.log|])
  {
    hide HasLive, ChainOk, Explain, Exchangeable;
    match step
    case Present(x) =>
    case EndRetry(x, began) =>
    case DetectReplay(x) =>
    case RedeemCode(c, client) =>
    case SpendToken(x, b) =>
    case Consent(p, form, x) =>
  }

  /** What is used up cannot be used again. */
  lemma UsedUp(s: State, x: Event, e: Event)
    requires Justified(s, e) && Marked(s, x)
    ensures !SameRecord(x, e)
  {
  }

  ghost predicate Inv(s: State) {
    RingInv(s.ring, s.next) && KeysInv(s) && RetriesInv(s.ring, s.next) && OneShot(s)
  }

  lemma OneShotStep(s: State, step: Step, t: State)
    requires Inv(s) && t == Apply(s, step)
    ensures OneShot(t)
  {
    hide Apply, Justified, Marked, SameRecord, RingInv, KeysInv, RetriesInv, DeskKept, RingKept;
    StepLogs(s, step, t);
    DeskStep(s, step, t);
    RingKeptStep(s, step, t);
    var n := |s.log|;
    forall k | 0 <= k < n
      ensures Marked(t, t.log[k])
    {
      MarkedStays(s, t, s.log[k]);
      assert t.log[..n][k] == s.log[k];
    }
    if t.log != s.log {
      EntryMarked(s, step, t);
      forall j | 0 <= j < n
        ensures !SameRecord(t.log[j], t.log[n])
      {
        assert t.log[..n][j] == s.log[j];
        UsedUp(s, s.log[j], t.log[n]);
      }
    }
    assert forall k :: 0 <= k < n ==> t.log[k] == s.log[k];
  }

  lemma StepKeeps(s: State, step: Step, t: State)
    requires Inv(s) && t == Apply(s, step)
    ensures Inv(t)
  {
    hide Apply, RingInv, KeysInv, RetriesInv, OneShot;
    RingStep(s, step, t);
    KeysStep(s, step, t);
    RetriesStep(s, step, t);
    OneShotStep(s, step, t);
  }

  lemma {:induction false} RunKeeps(s: State, steps: seq<Step>)
    requires Inv(s)
    ensures Inv(Run(s, steps))
    decreases |steps|
  {
    hide Apply, Inv;
    if steps != [] {
      StepKeeps(s, steps[0], Apply(s, steps[0]));
      RunKeeps(Apply(s, steps[0]), steps[1..]);
    }
  }

  lemma InitInv()
    ensures Inv(Init) && RingInv(Init.ring, Init.next)
  {
  }

  lemma ReachedOneShot(s: State)
    requires Inv(s)
    ensures OneShot(s)
  {
  }

  /** In every interleaving a refresh token rotates at most once, a code is taken at most once, a
      single-use token is spent at most once and a parked request is consented to at most once. */
  lemma UsedAtMostOnce(steps: seq<Step>, j: nat, k: nat)
    requires j < k < |Run(Init, steps).log|
    ensures !SameRecord(Run(Init, steps).log[j], Run(Init, steps).log[k])
  {
    hide Inv;
    InitInv();
    RunKeeps(Init, steps);
    ReachedOneShot(Run(Init, steps));
  }

  /** What was spent is the single-use token that was minted for this very operation and request,
      before its time was over; what was taken is a code of the client that presented it; and no
      rotation, and no retry in the grace window, began after its family's deadline. */
  lemma UsedAsIssued(steps: seq<Step>, k: nat)
    requires k < |Run(Init, steps).log|
    ensures Marked(Run(Init, steps), Run(Init, steps).log[k])
  {
    hide Inv, Marked;
    InitInv();
    RunKeeps(Init, steps);
    ReachedOneShot(Run(Init, steps));
  }

  // ---------------------------------------------------------------- what a refusal means

  /** The reasons that a refusal can have and the predicates of the rotating statement fit: of a
      known token whose grant has a row, exactly one of a rotation and a stated reason is due. */
  lemma RefusalExplained(steps: seq<Step>, x: nat)
    requires var s := Run(Init, steps);
      x in s.ring.refreshes && s.ring.refreshes[x].family in s.ring.families
      ==> s.ring.families[s.ring.refreshes[x].family].grant in s.grants
    ensures var s := Run(Init, steps);
      if x in s.ring.refreshes then (Rotatable(s, x) <==> Explain(s, x) == Unknown)
      else !Rotatable(s, x) && Explain(s, x) == Unknown
  {
    hide RingInv, Rotatable, Explain;
    InitInv();
    RingRun(Init, steps);
    KnownFamily(Run(Init, steps), x);
    RotatesOrExplains(Run(Init, steps), x);
  }

  lemma RotatesOrExplains(s: State, x: nat)
    requires x in s.ring.refreshes ==>
      s.ring.refreshes[x].family in s.ring.families && s.ring.families[s.ring.refreshes[x].family].grant in s.grants
    ensures if x in s.ring.refreshes then (Rotatable(s, x) <==> Explain(s, x) == Unknown)
            else !Rotatable(s, x) && Explain(s, x) == Unknown
  {
  }

  lemma KnownFamily(s: State, x: nat)
    requires RingInv(s.ring, s.next)
    ensures x in s.ring.refreshes ==> s.ring.refreshes[x].family in s.ring.families
  {
  }

  // ---------------------------------------------------------------- runs in parts

  lemma {:induction false} RunConcat(s: State, a: seq<Step>, b: seq<Step>)
    ensures Run(s, a + b) == Run(Run(s, a), b)
    decreases |a|
  {
    hide Apply;
    if a == [] {
      assert a + b == b;
    } else {
      assert (a + b)[0] == a[0] && (a + b)[1..] == a[1..] + b;
      RunConcat(Apply(s, a[0]), a[1..], b);
    }
  }

  lemma RunOne(s: State, step: Step)
    ensures Run(s, [step]) == Apply(s, step)
  {
    hide Apply;
    assert [step][1..] == [];
    assert Run(Apply(s, step), []) == Apply(s, step);
  }

  lemma RunThree(s: State, a: Step, b: Step, c: Step)
    ensures Run(s, [a, b, c]) == Apply(Apply(Apply(s, a), b), c)
  {
    hide Apply;
    var t, u := Apply(s, a), Apply(Apply(s, a), b);
    assert [a, b, c][1..] == [b, c] && [b, c][1..] == [c];
    assert Run(s, [a, b, c]) == Run(t, [b, c]) == Run(u, [c]);
    RunOne(u, c);
  }

  lemma RunSnoc(s: State, steps: seq<Step>, step: Step)
    ensures Run(s, steps + [step]) == Apply(Run(s, steps), step)
  {
    hide Apply;
    RunConcat(s, steps, [step]);
    RunOne(Run(s, steps), step);
  }

  lemma {:induction false} KeysRun(s: State, steps: seq<Step>)
    requires KeysInv(s)
    ensures KeysInv(Run(s, steps))
    decreases |steps|
  {
    hide Apply, KeysInv;
    if steps != [] {
      KeysStep(s, steps[0], Apply(s, steps[0]));
      KeysRun(Apply(s, steps[0]), steps[1..]);
    }
  }

  // ---------------------------------------------------------------- the token of a read

  /** A token of a read operation, bound to b. */
  predicate ReadToken(s: State, x: nat, b: Binding) {
    x in s.desk.accesses && !s.desk.accesses[x].singleUse && s.desk.accesses[x].binding == Some(b)
  }

  lemma ReadTokenKept(s: State, step: Step, t: State, x: nat, b: Binding)
    requires KeysInv(s) && ReadToken(s, x, b) && t == Apply(s, step)
    ensures ReadToken(t, x, b) && t.desk.accesses[x].grant == s.desk.accesses[x].grant
  {
    hide Apply;
    AccessesStep(s, step, t);
  }

  /** A read operation's token is compared and not spent, and neither its expiry nor its own
      revocation is looked at: in every run, as long as that may be and whatever else happens to
      the token, it redeems for its request if and only if its grant is live. */
  lemma {:induction false} ReadRedeemsIff(s: State, x: nat, b: Binding, steps: seq<Step>)
    requires KeysInv(s) && ReadToken(s, x, b)
    ensures ReadRedeems(Run(s, steps), x, b) <==> GrantLive(Run(s, steps), s.desk.accesses[x].grant)
    decreases |steps|
  {
    hide Apply, KeysInv;
    if steps != [] {
      var t := Apply(s, steps[0]);
      ReadTokenKept(s, steps[0], t, x, b);
      KeysStep(s, steps[0], t);
      ReadRedeemsIff(t, x, b, steps[1..]);
    }
  }

  // ---------------------------------------------------------------- the exchange budget

  /** The exchanges of a grant that were admitted in the last minute and have not written yet. */
  function FreshAsks(s: State, g: nat): set<nat> {
    set k | k in s.desk.asks && s.desk.asks[k].grant == g && s.desk.asks[k].at > s.clock - EXCHANGE_BUDGET_WINDOW
  }

  /** What a grant has used of its budget once its admitted exchanges have written. */
  function Committed(s: State, g: nat): nat {
    Minted(s, g) + |FreshAsks(s, g)|
  }

  /** No grant can come to exceed its budget by what was admitted so far. */
  ghost predicate BudgetOk(s: State) {
    forall g: nat :: Committed(s, g) <= EXCHANGE_BUDGET_PER_GRANT
  }

  lemma InitWithinBudget()
    ensures KeysInv(Init) && BudgetOk(Init)
  {
    forall g: nat
      ensures Committed(Init, g) == 0
    {
      assert MintedTokens(Init.desk.accesses, g, -EXCHANGE_BUDGET_WINDOW) == {} && FreshAsks(Init, g) == {};
    }
  }

  lemma SubsetSize<T>(a: set<T>, b: set<T>)
    requires a <= b
    ensures |a| <= |b|
  {
    assert b == a + (b - a);
  }

  /** Steps that mint nothing: the minute moves on, flags change, tokens without a binding come. */
  lemma NoneCommitted(s: State, t: State, g: nat)
    requires s.clock <= t.clock && t.desk.asks == s.desk.asks
    requires forall x :: x in t.desk.accesses && t.desk.accesses[x].binding.Some? ==>
      && x in s.desk.accesses && s.desk.accesses[x].binding.Some?
      && s.desk.accesses[x].grant == t.desk.accesses[x].grant
      && s.desk.accesses[x].issuedAt == t.desk.accesses[x].issuedAt
    ensures Committed(t, g) <= Committed(s, g)
  {
    SubsetSize(MintedTokens(t.desk.accesses, g, t.clock - EXCHANGE_BUDGET_WINDOW),
               MintedTokens(s.desk.accesses, g, s.clock - EXCHANGE_BUDGET_WINDOW));
    SubsetSize(FreshAsks(t, g), FreshAsks(s, g));
  }

  lemma OthersMintNothing(s: State, step: Step, t: State)
    requires t == Apply(s, step) && !step.BeginExchange? && !step.EndExchange?
    ensures s.clock <= t.clock && t.desk.asks == s.desk.asks
    ensures forall x :: x in t.desk.accesses && t.desk.accesses[x].binding.Some? ==>
      && x in s.desk.accesses && s.desk.accesses[x].binding.Some?
      && s.desk.accesses[x].grant == t.desk.accesses[x].grant
      && s.desk.accesses[x].issuedAt == t.desk.accesses[x].issuedAt
  {
    hide Rotatable, Explain, Consentable, Redeemable, Retriable, RotateRing, SupersedeRing;
  }

  predicate IsFresh(s: State, k: nat, g: nat)
    requires k in s.desk.asks
  {
    s.desk.asks[k].grant == g && s.desk.asks[k].at > s.clock - EXCHANGE_BUDGET_WINDOW
  }

  lemma OneMinted(s: State, k: nat, t: State, g: nat)
    requires KeysInv(s) && k in s.desk.asks && t.clock == s.clock
    requires t.desk.accesses == s.desk.accesses[s.next := TokenB(s.desk.asks[k])]
    ensures Minted(t, g) == Minted(s, g) + if IsFresh(s, k, g) then 1 else 0
  {
    var since := s.clock - EXCHANGE_BUDGET_WINDOW;
    var before, after := MintedTokens(s.desk.accesses, g, since), MintedTokens(t.desk.accesses, g, since);
    assert s.next !in before;
    if IsFresh(s, k, g) {
      assert after == before + {s.next};
    } else {
      assert after == before;
    }
  }

  lemma OneAskFewer(s: State, k: nat, t: State, g: nat)
    requires k in s.desk.asks && t.desk.asks == s.desk.asks - {k} && t.clock == s.clock
    ensures FreshAsks(t, g) == FreshAsks(s, g) - {k}
    ensures |FreshAsks(s, g)| == |FreshAsks(t, g)| + if IsFresh(s, k, g) then 1 else 0
  {
    assert k in FreshAsks(s, g) <==> IsFresh(s, k, g);
  }

  /** Writing turns a fresh ask into a token of the window and leaves the commitment. */
  lemma OneWritten(s: State, k: nat, t: State, g: nat)
    requires KeysInv(s) && k in s.desk.asks && t == WriteExchange(s, k)
    ensures Committed(t, g) == Committed(s, g)
    ensures FreshAsks(t, g) == FreshAsks(s, g) - {k}
  {
    hide FreshAsks, Minted, KeysInv, IsFresh;
    OneMinted(s, k, t, g);
    OneAskFewer(s, k, t, g);
  }

  lemma OneAskMore(s: State, ask: Ask, t: State, g: nat)
    requires KeysInv(s) && t.desk.asks == s.desk.asks[s.next := ask] && t.clock == s.clock == ask.at
    ensures |FreshAsks(t, g)| == |FreshAsks(s, g)| + if ask.grant == g then 1 else 0
  {
    assert s.next !in FreshAsks(s, g);
    if ask.grant == g {
      assert FreshAsks(t, g) == FreshAsks(s, g) + {s.next};
    } else {
      assert FreshAsks(t, g) == FreshAsks(s, g);
    }
  }

  /** Admission commits one place of the grant's budget and no other's. */
  lemma OneAdmitted(s: State, a: nat, required: set<Scope>, b: Binding, mutating: bool, t: State, g: nat)
    requires KeysInv(s) && Exchangeable(s, a, required) && t == ReadExchange(s, a, required, b, mutating)
    ensures Committed(t, g) == Committed(s, g) + if s.desk.accesses[a].grant == g then 1 else 0
  {
    assert a in s.desk.accesses;
    hide Exchangeable, FreshAsks, KeysInv;
    OneAskMore(s, AskOf(s.desk.accesses[a], required, b, mutating, s.clock), t, g);
  }

  /** The check that an exchange would have to make: the places that are committed, not only the
      tokens that are written. */
  predicate HasRoom(s: State, step: Step) {
    step.BeginExchange? && Exchangeable(s, step.token, step.required) ==>
      Committed(s, s.desk.accesses[step.token].grant) < EXCHANGE_BUDGET_PER_GRANT
  }

  /** A step keeps every grant within its budget if and only if it admits nothing without room. */
  lemma StepKeepsBudgetIff(s: State, step: Step, t: State)
    requires KeysInv(s) && BudgetOk(s) && t == Apply(s, step)
    ensures BudgetOk(t) <==> HasRoom(s, step)
  {
    hide KeysInv, Apply, Exchangeable, Committed;
    if step.BeginExchange? && Exchangeable(s, step.token, step.required) {
      AdmissionIsRead(s, step, t);
      var own := s.desk.accesses[step.token].grant;
      forall g: nat
        ensures Committed(t, g) == Committed(s, g) + if own == g then 1 else 0
      {
        OneAdmitted(s, step.token, step.required, step.binding, step.mutating, t, g);
      }
      assert Committed(t, own) == Committed(s, own) + 1;
    } else {
      forall g: nat
        ensures Committed(t, g) <= Committed(s, g)
      {
        CommitsNothing(s, step, t, g);
      }
    }
  }

  lemma AdmissionIsRead(s: State, step: Step, t: State)
    requires step.BeginExchange? && t == Apply(s, step)
    ensures t == ReadExchange(s, step.token, step.required, step.binding, step.mutating)
    ensures Exchangeable(s, step.token, step.required) ==> step.token in s.desk.accesses
  {
  }

  lemma CommitsNothing(s: State, step: Step, t: State, g: nat)
    requires KeysInv(s) && t == Apply(s, step)
    requires !step.BeginExchange? || !Exchangeable(s, step.token, step.required)
    ensures Committed(t, g) <= Committed(s, g)
  {
    hide Exchangeable, KeysInv, Committed;
    if step.EndExchange? {
      if step.ask in s.desk.asks {
        OneWritten(s, step.ask, t, g);
      }
    } else if !step.BeginExchange? {
      OthersMintNothing(s, step, t);
      NoneCommitted(s, t, g);
    }
  }

  /** Along every run the budget of every grant is kept throughout if and only if every exchange
      was admitted with room. */
  lemma BudgetHoldsIff(s: State, steps: seq<Step>)
    requires KeysInv(s) && BudgetOk(s)
    ensures (forall n :: 0 <= n <= |steps| ==> BudgetOk(Run(s, steps[..n])))
            <==> forall n :: 0 <= n < |steps| ==> HasRoom(Run(s, steps[..n]), steps[n])
  {
    hide KeysInv, BudgetOk, HasRoom;
    forall n | 0 <= n < |steps| && BudgetOk(Run(s, steps[..n]))
      ensures BudgetOk(Run(s, steps[..n + 1])) <==> HasRoom(Run(s, steps[..n]), steps[n])
    {
      NextKeepsBudgetIff(s, steps, n);
    }
    if forall n :: 0 <= n <= |steps| ==> BudgetOk(Run(s, steps[..n])) {
      forall n | 0 <= n < |steps|
        ensures HasRoom(Run(s, steps[..n]), steps[n])
      {
        assert BudgetOk(Run(s, steps[..n + 1]));
      }
    }
    if forall n :: 0 <= n < |steps| ==> HasRoom(Run(s, steps[..n]), steps[n]) {
      forall n | 0 <= n <= |steps|
        ensures BudgetOk(Run(s, steps[..n]))
      {
        RoomKeepsBudget(s, steps, n);
      }
    }
  }

  lemma NextKeepsBudgetIff(s: State, steps: seq<Step>, n: nat)
    requires KeysInv(s) && n < |steps| && BudgetOk(Run(s, steps[..n]))
    ensures BudgetOk(Run(s, steps[..n + 1])) <==> HasRoom(Run(s, steps[..n]), steps[n])
  {
    hide KeysInv, BudgetOk, HasRoom, Apply;
    KeysRun(s, steps[..n]);
    assert steps[..n + 1] == steps[..n] + [steps[n]];
    RunSnoc(s, steps[..n], steps[n]);
    StepKeepsBudgetIff(Run(s, steps[..n]), steps[n], Run(s, steps[..n + 1]));
  }

  lemma {:induction false} RoomKeepsBudget(s: State, steps: seq<Step>, n: nat)
    requires KeysInv(s) && BudgetOk(s) && n <= |steps|
    requires forall i :: 0 <= i < |steps| ==> HasRoom(Run(s, steps[..i]), steps[i])
    ensures BudgetOk(Run(s, steps[..n]))
  {
    hide KeysInv, BudgetOk, HasRoom, Apply;
    if n == 0 {
      assert steps[..0] == [];
    } else {
      RoomKeepsBudget(s, steps, n - 1);
      NextKeepsBudgetIff(s, steps, n - 1);
    }
  }

  ghost predicate AdmitsNothing(steps: seq<Step>) {
    forall n :: 0 <= n < |steps| ==> !steps[n].BeginExchange?
  }

  /** Some continuation without another admission leaves a grant with n tokens in the window. */
  ghost predicate CanMint(s: State, g: nat, n: nat) {
    exists steps :: AdmitsNothing(steps) && Minted(Run(s, steps), g) >= n
  }

  lemma {:induction false} MintsAtMost(s: State, g: nat, steps: seq<Step>)
    requires KeysInv(s) && AdmitsNothing(steps)
    ensures Minted(Run(s, steps), g) <= Committed(s, g)
    decreases |steps|
  {
    hide Apply, KeysInv, Minted;
    if steps != [] {
      var t := Apply(s, steps[0]);
      CommitsNothing(s, steps[0], t, g);
      KeysStep(s, steps[0], t);
      MintsAtMost(t, g, steps[1..]);
    }
  }

  /** Let every fresh ask of the grant write its token. */
  lemma {:induction false} WriteAll(s: State, g: nat) returns (steps: seq<Step>)
    requires KeysInv(s)
    ensures AdmitsNothing(steps) && Minted(Run(s, steps), g) == Committed(s, g)
    decreases |FreshAsks(s, g)|
  {
    hide Apply, KeysInv, Minted, FreshAsks;
    if FreshAsks(s, g) == {} {
      steps := [];
    } else {
      var k :| k in FreshAsks(s, g);
      var t := Apply(s, EndExchange(k));
      FreshIsAsked(s, g, k);
      KeysStep(s, EndExchange(k), t);
      OneWritten(s, k, t, g);
      var rest := WriteAll(t, g);
      steps := [EndExchange(k)] + rest;
      assert steps[1..] == rest;
    }
  }

  lemma FreshIsAsked(s: State, g: nat, k: nat)
    requires k in FreshAsks(s, g)
    ensures k in s.desk.asks && Apply(s, EndExchange(k)) == WriteExchange(s, k)
  {
  }

  /** The exchanges that are already admitted can leave a grant with n tokens in the window if and
      only if its written tokens and its fresh asks are that many: it can exceed the budget exactly
      when they do. */
  lemma CanMintIff(s: State, g: nat, n: nat)
    requires KeysInv(s)
    ensures CanMint(s, g, n) <==> Committed(s, g) >= n
  {
    hide KeysInv, Minted, Committed;
    if CanMint(s, g, n) {
      var steps :| AdmitsNothing(steps) && Minted(Run(s, steps), g) >= n;
      MintsAtMost(s, g, steps);
    }
    var all := WriteAll(s, g);
  }

  // ---------------------------------------------------------------- exchanges that race

  const READ: set<Scope> := {"read"}

  /** A client (0), its grant (1) and a token A (2). */
  const SIGNED_IN: seq<Step> := [EnableClient, SaveGrant(0, READ), SaveToken(0, 1, READ, 900)]

  lemma SignedIn()
    ensures var s := Run(Init, SIGNED_IN);
      && s.clients == {0} && s.grants == map[1 := Grant(0, READ, false)] && s.clock == 0 && s.next == 3
      && s.desk == Desk(map[], map[2 := TokenA(0, 1, READ, 0, 900)], map[], map[], map[])
  {
    RunThree(Init, EnableClient, SaveGrant(0, READ), SaveToken(0, 1, READ, 900));
  }

  /** The token's exchanges were all admitted at once, and none has written. */
  ghost predicate Racing(s: State, n: nat) {
    && s.clients == {0} && s.grants == map[1 := Grant(0, READ, false)] && s.clock == 0
    && s.desk.accesses == map[2 := TokenA(0, 1, READ, 0, 900)] && Committed(s, 1) == n
  }

  lemma RacerAdmitted(s: State, n: nat)
    requires Racing(s, n)
    ensures Exchangeable(s, 2, READ)
  {
    assert MintedTokens(s.desk.accesses, 1, -EXCHANGE_BUDGET_WINDOW) == {};
    assert "read" in READ;
  }

  lemma NoneRacing(s: State)
    requires s.desk.accesses == map[2 := TokenA(0, 1, READ, 0, 900)] && s.desk.asks == map[]
    ensures Committed(s, 1) == 0
  {
    assert MintedTokens(s.desk.accesses, 1, s.clock - EXCHANGE_BUDGET_WINDOW) == {};
    assert FreshAsks(s, 1) == {};
  }

  lemma OneMoreRaces(s: State, n: nat, b: Binding, mutating: bool)
    requires KeysInv(s) && Racing(s, n)
    ensures Racing(Apply(s, BeginExchange(2, READ, b, mutating)), n + 1)
  {
    hide Committed, Exchangeable, KeysInv, Apply;
    var step := BeginExchange(2, READ, b, mutating);
    RacerAdmitted(s, n);
    AdmissionIsRead(s, step, Apply(s, step));
    OneAdmitted(s, 2, READ, b, mutating, Apply(s, step), 1);
  }

  lemma {:induction false} Race(n: nat, b: Binding, mutating: bool) returns (steps: seq<Step>)
    ensures Racing(Run(Init, steps), n) && KeysInv(Run(Init, steps))
  {
    hide Apply, KeysInv, Committed;
    InitInv();
    if n == 0 {
      steps := SIGNED_IN;
      SignedIn();
      NoneRacing(Run(Init, steps));
    } else {
      var before := Race(n - 1, b, mutating);
      var step := BeginExchange(2, READ, b, mutating);
      steps := before + [step];
      RunSnoc(Init, before, step);
      OneMoreRaces(Run(Init, before), n - 1, b, mutating);
    }
    KeysRun(Init, steps);
  }

  /** The count is read in one statement and the token written in another, and nothing bounds how
      far the budget can be exceeded in between: for every number a run leaves one grant with that
      many tokens in the window, all for one binding. */
  lemma RacingExchangesExceed(n: nat, b: Binding, mutating: bool)
    ensures exists steps :: Minted(Run(Init, steps), 1) == n
  {
    hide KeysInv, Minted;
    var admitted := Race(n, b, mutating);
    var written := WriteAll(Run(Init, admitted), 1);
    RunConcat(Init, admitted, written);
    assert Minted(Run(Init, admitted + written), 1) == n;
  }

  /** A read operation's token is minted (4), and its minute passes. */
  function ReadAndWait(b: Binding, elapsed: nat): seq<Step> {
    SIGNED_IN + [BeginExchange(2, READ, b, false), EndExchange(3), Tick(elapsed)]
  }

  /** An expired token that introspection calls inactive redeems. */
  lemma ExpiredReadTokenRedeems(b: Binding, elapsed: nat)
    requires elapsed > TOKEN_B_MAX_LIFETIME
    ensures var s := Run(Init, ReadAndWait(b, elapsed));
      ReadRedeems(s, 4, b) && s.desk.accesses[4].expiresAt < s.clock && !Active(s, 4)
  {
    hide Apply, Exchangeable, Committed;
    var begin, end, tick := BeginExchange(2, READ, b, false), EndExchange(3), Tick(elapsed);
    var s := Run(Init, SIGNED_IN);
    SignedIn();
    NoneRacing(s);
    RacerAdmitted(s, 0);
    RunConcat(Init, SIGNED_IN, [begin, end, tick]);
    RunThree(s, begin, end, tick);
    AdmissionIsRead(s, begin, Apply(s, begin));
    AdmittedWaits(s, b, elapsed, Apply(s, begin));
  }

  lemma AdmittedWaits(s: State, b: Binding, elapsed: nat, t: State)
    requires s.clock == 0 && s.next == 3 && s.grants == map[1 := Grant(0, READ, false)]
    requires s.desk.accesses == map[2 := TokenA(0, 1, READ, 0, 900)] && elapsed > TOKEN_B_MAX_LIFETIME
    requires Exchangeable(s, 2, READ) && t == ReadExchange(s, 2, READ, b, false)
    ensures var u := Apply(Apply(t, EndExchange(3)), Tick(elapsed));
      ReadRedeems(u, 4, b) && u.desk.accesses[4].expiresAt < u.clock && !Active(u, 4)
  {
    hide Exchangeable;
    assert t.desk.asks[3] == Ask(0, 1, READ, b, false, 0) && t.next == 4;
    assert Apply(t, EndExchange(3)) == WriteExchange(t, 3);
  }
}
