/** The authorization server's store as the mutable object it is: one method per store call. */
module OAuthStore {
  import opened OAuthModel
  import opened OAuthTheorems
  import opened Wrappers

  /** What rotate_refresh_token answers; a retry inside the grace window is also a rotation. */
  datatype Presentation = Rotation(successor: nat, grace: bool) | Refused(reason: Outcome)

  class SqlStore {
    var clients: set<nat>
    var grants: map<nat, Grant>
    var families: map<nat, Family>
    var refreshes: map<nat, Refresh>
    var retries: multiset<(nat, int)>
    var codes: map<nat, Code>
    var accesses: map<nat, Access>
    var parked: map<nat, Parked>
    var sessions: map<nat, int>
    var asks: map<nat, Ask>
    var log: seq<Event>
    var clock: int
    var next: nat

    function Ring(): Ring
      reads this
    {
      OAuthModel.Ring(families, refreshes, retries)
    }

    function State(): State
      reads this
    {
      OAuthModel.State(clients, grants, Ring(), Desk(codes, accesses, parked, sessions, asks), log, clock, next)
    }

    ghost predicate Valid()
      reads this
    {
      RingInv(Ring(), next)
    }

    constructor ()
      ensures State() == Init && Valid()
    {
      clients, grants, families, refreshes, retries := {}, map[], map[], map[], multiset{};
      codes, accesses, parked, sessions, asks := map[], map[], map[], map[], map[];
      log, clock, next := [], 0, 0;
    }

    method StartRefreshFamily(grant: nat, client: nat) returns (family: nat, token: nat)
      requires Valid() && grant < next
      modifies this`families, this`refreshes, this`next
      ensures Valid() && State() == Apply(old(State()), OpenFamily(grant, client))
      ensures family == old(next) && OnlyLive(refreshes, family, token)
    {
      hide RingInv, OnlyLive;
      StartKeeps(Ring(), grant, client, clock, next);
      StartedLive(Ring(), grant, client, clock, next);
      family, token := next, next + 1;
      families := families[family := Family(grant, client, clock + REFRESH_ABSOLUTE_SECONDS, false)];
      refreshes := refreshes[token := Refresh(family, clock + REFRESH_IDLE_SECONDS, None, None)];
      next := next + 2;
      assert Ring() == StartFamily(old(Ring()), grant, client, clock, family);
    }

    /** Spend the token and issue its successor, or say why not; a replay revokes the family and
        the grant on the spot. Whatever the branch, the family is left with one live token, and on
        a rotation it is the one handed out. */
    method RotateRefreshToken(t: nat) returns (r: Presentation)
      requires Valid()
      modifies this`families, this`refreshes, this`retries, this`grants, this`log, this`next
      ensures Valid()
      ensures r.Rotation? ==>
        && t in old(refreshes) && r.successor == old(next)
        && OnlyLive(refreshes, old(refreshes)[t].family, r.successor)
      ensures Rotatable(old(State()), t) ==> r == Rotation(old(next), false) && State() == Rotate(old(State()), t)
      ensures !Rotatable(old(State()), t) ==>
        match Explain(old(State()), t)
        case Retry => r == Rotation(old(next), true) && State() == WriteRetry(ReadRetry(old(State()), t), t, clock)
        case Replay => r == Refused(Replay) && State() == ReplayDetected(old(State()), t)
        case reason => r == Refused(reason) && State() == old(State())
    {
      hide RingInv, OnlyLive, Rotate, ReadRetry, WriteRetry, ReplayDetected;
      ghost var before := State();
      if t !in refreshes {
        return Refused(Unknown);
      }
      var row := refreshes[t];
      KnownFamily(before, t);
      var family := families[row.family];
      if row.consumedAt.None? && row.idleUntil > clock && !family.revoked && family.expiresAt > clock
         && family.grant in grants && !grants[family.grant].revoked {
        r := RotateLive(t, row);
        return;
      }
      assert !Rotatable(before, t);
      if family.grant in grants && grants[family.grant].revoked {
        return Refused(GrantIsRevoked);
      }
      if family.revoked {
        return Refused(FamilyIsRevoked);
      }
      var recent := row.consumedAt.Some? && row.consumedAt.value > clock - REFRESH_GRACE_SECONDS;
      if recent && family.expiresAt > clock {
        r := RetryRecent(t, row);
        return;
      }
      if row.consumedAt.Some? {
        r := RevokeReplayed(t, row);
        return;
      }
      if family.expiresAt <= clock {
        return Refused(FamilyExpired);
      }
      return Refused(if row.idleUntil <= clock then IdleExpired else Unknown);
    }

    method RotateLive(t: nat, row: Refresh) returns (r: Presentation)
      requires Valid() && Rotatable(State(), t) && row == refreshes[t]
      modifies this`refreshes, this`log, this`next
      ensures Valid() && r == Rotation(old(next), false) && State() == Rotate(old(State()), t)
      ensures OnlyLive(refreshes, row.family, r.successor)
    {
      hide RingInv;
      RotateKeeps(State(), t);
      NextUnused(Ring(), next);
      LiveOf(Ring(), next, row.family, t);
      log := log + [Rotated(t, row.family, families[row.family].grant, clock)];
      refreshes := refreshes[t := row.(consumedAt := Some(clock), replacedBy := Some(next))];
      refreshes := refreshes[next := Refresh(row.family, clock + REFRESH_IDLE_SECONDS, None, None)];
      next := next + 1;
      return Rotation(next - 1, false);
    }

    /** A second presentation within seconds of the first: a new token takes over. */
    method RetryRecent(t: nat, row: Refresh) returns (r: Presentation)
      requires Valid() && !Rotatable(State(), t) && Explain(State(), t) == Retry && row == refreshes[t]
      modifies this`refreshes, this`retries, this`log, this`next
      ensures Valid() && r == Rotation(old(next), true)
      ensures State() == WriteRetry(ReadRetry(old(State()), t), t, clock)
      ensures OnlyLive(refreshes, row.family, r.successor)
    {
      hide RingInv, Rotatable, Explain, Retriable;
      ghost var admitted := ReadRetry(State(), t);
      RetryIsAdmitted(State(), t);
      KeptByRetries(Ring(), admitted.ring, next);
      WriteRetryKeeps(admitted, t, clock);
      NextUnused(Ring(), next);
      var now, successor := clock, next;
      retries := (retries + multiset{(t, now)}) - multiset{(t, now)};
      log := log + [Retried(t, row.family, now)];
      Supersede(row.family, now);
      next := next + 1;
      assert State() == WriteRetry(admitted, t, now);
      assert Ring() == State().ring;
      return Rotation(successor, true);
    }

    /** The UPDATE of the family's live token and the insert. */
    method Supersede(family: nat, now: int)
      requires next !in refreshes
      modifies this`refreshes
      ensures refreshes == SupersedeRing(old(Ring()), family, now, next).refreshes
      ensures OnlyLive(refreshes, family, next)
    {
      var table, successor := refreshes, next;
      refreshes := map u | u in table ::
        if table[u].family == family && table[u].consumedAt.None?
        then table[u].(consumedAt := Some(now), replacedBy := Some(successor)) else table[u];
      refreshes := refreshes[successor := Refresh(family, now + REFRESH_IDLE_SECONDS, None, None)];
    }

    method RevokeReplayed(t: nat, row: Refresh) returns (r: Presentation)
      requires Valid() && !Rotatable(State(), t) && Explain(State(), t) == Replay && row == refreshes[t]
      modifies this`families, this`grants, this`log
      ensures Valid() && r == Refused(Replay) && State() == ReplayDetected(old(State()), t)
      ensures FamilyDead(State(), row.family) && GrantDead(State(), old(families)[row.family].grant)
    {
      hide RingInv, Rotatable, Explain;
      ghost var after := ReplayDetected(State(), t);
      ReplayedFamily(State(), t);
      BothDead(State(), t, after, row.family, families[row.family].grant);
      ReplayKeeps(State(), t, after);
      var grant := families[row.family].grant;
      families := RevokeFamily(families, row.family);
      grants := RevokeGrant(grants, grant);
      log := log + [Replayed(t, row.family)];
      assert State() == after && Ring() == after.ring;
      return Refused(Replay);
    }

    /** Two conditional statements; uninterrupted here. */
    method WithdrawConsent(grant: nat) returns (done: bool)
      requires Valid() && grant < next
      modifies this`grants, this`families
      ensures done <==> grant in old(grants) && !old(grants)[grant].revoked
      ensures State() == if done then Apply(Apply(old(State()), WithdrawGrant(grant)), WithdrawFamilies(grant))
                         else old(State())
      ensures grant in old(grants) ==> GrantDead(State(), grant)
      ensures done ==> forall f :: f in families && families[f].grant == grant ==> FamilyDead(State(), f)
    {
      if grant !in grants || grants[grant].revoked {
        return false;
      }
      grants := RevokeGrant(grants, grant);
      families := RevokeFamiliesOf(families, grant);
      return true;
    }

    method ConsumeAuthorizationCode(c: nat, client: nat) returns (r: Option<nat>)
      modifies this`codes, this`log
      ensures State() == TakeCode(old(State()), c, client)
      ensures r.Some? <==> Redeemable(old(State()), c, client)
      ensures r.Some? ==> r.value == codes[c].grant && forall x :: !Redeemable(State(), c, x)
    {
      if c !in codes {
        return None;
      }
      var row := codes[c];
      if row.client != client || row.consumed || row.expiresAt <= clock {
        return None;
      }
      codes := codes[c := row.(consumed := true)];
      log := log + [Taken(c, client, row.grant, clock)];
      return Some(row.grant);
    }

    method ConsumeExchangedToken(t: nat, b: Binding) returns (ok: bool)
      modifies this`accesses, this`log
      ensures State() == Spend(old(State()), t, b)
      ensures ok <==> Spendable(old(State()), t, b)
      ensures ok ==> forall x :: !Spendable(State(), t, x)
    {
      if t !in accesses {
        return false;
      }
      var row := accesses[t];
      if row.binding != Some(b) || !row.singleUse || row.consumed || row.revoked || row.expiresAt <= clock {
        return false;
      }
      if row.grant !in grants || grants[row.grant].revoked {
        return false;
      }
      accesses := accesses[t := row.(consumed := true)];
      log := log + [Spent(t, row.grant, b, clock)];
      return true;
    }

    method Introspect(t: nat) returns (active: bool)
      ensures active <==> Active(State(), t)
    {
      if t !in accesses || accesses[t].expiresAt < clock || accesses[t].revoked || accesses[t].consumed {
        return false;
      }
      var grant := accesses[t].grant;
      if grant !in grants || grants[grant].revoked {
        return false;
      }
      return grants[grant].client in clients;
    }

    /** redeem: a single-use token is spent by the statement, any other is compared. */
    method Redeem(t: nat, b: Binding) returns (ok: bool)
      modifies this`accesses, this`log
      ensures ok <==> Spendable(old(State()), t, b) || ReadRedeems(old(State()), t, b)
      ensures State() == Spend(old(State()), t, b)
    {
      if t !in accesses || accesses[t].binding.None? {
        return false;
      }
      var row := accesses[t];
      if row.grant !in grants || grants[row.grant].revoked {
        return false;
      }
      if row.singleUse {
        ok := ConsumeExchangedToken(t, b);
        return;
      }
      return row.binding.value.operation == b.operation && row.binding.value.digest == b.digest;
    }

    /** The checks of the exchange and its insert, uninterrupted. */
    method Exchange(a: nat, required: set<Scope>, b: Binding, mutating: bool) returns (r: Option<nat>)
      requires KeysInv(State())
      modifies this`accesses, this`next
      ensures r.Some? <==> Exchangeable(old(State()), a, required)
      ensures r.None? ==> State() == old(State())
      ensures r.Some? ==>
        && r.value == old(next) + 1
        && State() == WriteExchange(ReadExchange(old(State()), a, required, b, mutating), old(next))
    {
      if a !in accesses || accesses[a].expiresAt < clock || accesses[a].revoked || accesses[a].consumed {
        return None;
      }
      var row := accesses[a];
      if row.audience != Mcp || row.grant !in grants || grants[row.grant].revoked || row.client !in clients {
        return None;
      }
      if required == {} || !(required <= row.scopes * grants[row.grant].scopes) {
        return None;
      }
      var minted := MintedTokens(accesses, row.grant, clock - EXCHANGE_BUDGET_WINDOW);
      if |minted| >= EXCHANGE_BUDGET_PER_GRANT {
        return None;
      }
      assert asks[next := AskOf(row, required, b, mutating, clock)] - {next} == asks;
      next := next + 1;
      accesses := accesses[next := Access(row.client, row.grant, required, Configuration, clock,
                                          clock + TOKEN_B_MAX_LIFETIME, false, false, Some(b), mutating)];
      next := next + 1;
      return Some(next - 1);
    }

    /** Take the parked request only if every authorising predicate holds. */
    method ConsumePending(p: nat, form: nat, session: nat) returns (ok: bool)
      modifies this`parked, this`log
      ensures State() == TakeParked(old(State()), p, form, session)
      ensures ok <==> Consentable(old(State()), p, form, session)
    {
      if p !in parked || parked[p].consumed || parked[p].expiresAt <= clock {
        return false;
      }
      if parked[p].form != form || parked[p].session != Some(session) {
        return false;
      }
      parked := parked[p := parked[p].(consumed := true)];
      log := log + [Consented(p, form, session)];
      return true;
    }

    /** The OAuth tables of the epoch sweep. */
    method AdvanceRecoveryEpoch()
      requires Valid()
      modifies this`accesses, this`grants, this`families, this`codes, this`parked, this`sessions
      ensures Valid() && State() == Advance(old(State()))
      ensures NothingBelow(State(), next)
    {
      hide RingInv, NothingBelow, RevokeAllFamilies, RevokeDesk;
      ghost var after := Advance(State());
      AdvanceKeeps(State(), after);
      SweepRecords();
      grants := map g | g in grants :: grants[g].(revoked := true);
      families := RevokeAllFamilies(families);
      assert State() == after && Ring() == after.ring;
    }

    method SweepRecords()
      modifies this`accesses, this`codes, this`parked, this`sessions
      ensures State().desk == RevokeDesk(old(State()).desk)
    {
      accesses := map t | t in accesses :: accesses[t].(revoked := true);
      codes, parked, sessions := map[], map[], map[];
    }
  }

  lemma AdvanceKeeps(s: State, t: State)
    requires RingInv(s.ring, s.next) && t == Advance(s)
    ensures RingInv(t.ring, t.next) && t.next == s.next && NothingBelow(t, s.next)
  {
    hide RingInv;
    RingStep(s, AdvanceEpoch, t);
  }

  lemma ReplayKeeps(s: State, x: nat, t: State)
    requires RingInv(s.ring, s.next) && t == ReplayDetected(s, x)
    ensures RingInv(t.ring, t.next) && t.next == s.next
  {
    hide RingInv, Rotatable, Explain;
    RingStep(s, DetectReplay(x), t);
  }

  lemma ReplayedFamily(s: State, x: nat)
    requires Explain(s, x) == Replay
    ensures x in s.ring.refreshes && s.ring.refreshes[x].family in s.ring.families
  {
  }

  lemma StartedLive(r: Ring, grant: nat, client: nat, now: int, next: nat)
    requires RingInv(r, next)
    ensures OnlyLive(StartFamily(r, grant, client, now, next).refreshes, next, next + 1)
  {
    hide HasLive, ChainOk;
    NextUnused(r, next);
  }

  lemma LiveOf(r: Ring, next: nat, f: nat, t: nat)
    requires RingInv(r, next) && f in r.families && t in r.refreshes && r.refreshes[t].family == f
    requires r.refreshes[t].consumedAt.None?
    ensures OnlyLive(r.refreshes, f, t)
  {
    assert HasLive(r.refreshes, f);
    var u: nat :| OnlyLive(r.refreshes, f, u);
  }

  lemma RetryIsAdmitted(s: State, t: nat)
    requires !Rotatable(s, t) && Explain(s, t) == Retry
    ensures t in s.ring.refreshes && s.ring.refreshes[t].family in s.ring.families
    ensures ReadRetry(s, t) == s.(ring := s.ring.(retries := s.ring.retries + multiset{(t, s.clock)}))
    ensures Retriable(ReadRetry(s, t).ring, t, s.clock)
  {
  }

  lemma KeptByRetries(r: Ring, t: Ring, next: nat)
    requires RingInv(r, next) && t == r.(retries := t.retries)
    ensures RingInv(t, next)
  {
    hide HasLive, ChainOk;
  }
}
