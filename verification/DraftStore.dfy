/** The draft coordinator as the mutable object it is: the journal's transactions, the scan of the
    publication records, publication without a crash, and one pass of the sweep. */
module DraftStore {
  import opened DraftModel
  import opened DraftTheorems
  import opened Wrappers

  /** That many different active drafts of those names. */
  ghost predicate NamesDrafts(s: DraftModel.State, references: set<Name>, drafts: set<nat>) {
    forall a :: a in drafts ==> NamedActive(s, references, a)
  }

  class DraftLifecycle {
    var journal: map<nat, Draft>
    var listed: map<nat, Draft>
    var registry: map<Name, Relation>
    var paused: bool
    var dependents: set<Name>
    var files: map<nat, Record>
    var live: set<Name>
    var unresolved: bool
    var publishers: map<nat, Publisher>
    var sweeper: Option<Sweep>
    var proposals: map<nat, Proposal>
    var lease: int
    var previewQueued: bool
    var clock: int
    var nextFile: nat
    var nextAsset: nat
    ghost var recorded: set<Binding>
    ghost var cleaned: set<nat>

    ghost function State(): State
      reads this
    {
      DraftModel.State(journal, listed, registry, paused, dependents, files, live, unresolved, publishers, sweeper,
                       proposals, lease, previewQueued, clock, nextFile, nextAsset, recorded, cleaned)
    }

    constructor ()
      ensures State() == Init
    {
      journal, listed, registry, files := map[], map[], map[], map[];
      paused, dependents := false, {};
      live, unresolved, publishers, sweeper, proposals := {}, false, map[], None, map[];
      lease, previewQueued, clock, nextFile, nextAsset := 0, false, 0, 0, 0;
      recorded, cleaned := {}, {};
    }

    // -------------------------------------------------------------- the journal's transactions

    /** One identity inside a transaction that may still be rolled back. */
    method AdoptInTransaction(b: Binding, proposal: Option<nat>) returns (ok: bool)
      modifies this`journal
      ensures ok <==> AdoptRow(registry, old(journal), b, proposal).Some?
      ensures journal == if ok then AdoptRow(registry, old(journal), b, proposal).value else old(journal)
    {
      if b.asset !in journal {
        return false;
      }
      var row := journal[b.asset];
      if row.name != b.name || row.generation != b.generation || (proposal.Some? && row.proposal != proposal) {
        return false;
      }
      if row.state == Adopted {
        return true;
      }
      if row.state != Active || b.name !in registry || registry[b.name] != Relation(b.asset, b.generation) {
        return false;
      }
      journal := journal[b.asset := row.(state := Adopted)];
      return true;
    }

    /** The identities that a call is given: between one and a hundred, under different names. */
    method CheckIdentities(bindings: seq<Binding>) returns (ok: bool)
      ensures ok <==> Identities(bindings)
    {
      if |bindings| < 1 || |bindings| > MAX_IDENTITIES {
        return false;
      }
      var names: set<Name> := {};
      var i := 0;
      while i < |bindings|
        invariant 0 <= i <= |bindings| && DistinctNames(bindings[..i])
        invariant forall n :: n in names <==> exists k :: 0 <= k < i && bindings[k].name == n
      {
        if bindings[i].name in names {
          return false;
        }
        names := names + {bindings[i].name};
        i := i + 1;
      }
      assert bindings[..i] == bindings;
      return true;
    }

    /** All of the identities, or a rollback. */
    method AdoptDrafts(bindings: seq<Binding>, proposal: Option<nat>) returns (ok: bool)
      modifies this`journal
      ensures ok <==>
        && Identities(bindings) && !paused
        && forall b :: b in bindings ==> CanAdopt(registry, old(journal), b, proposal)
      ensures journal.Keys == old(journal).Keys
      ensures forall a :: a in journal ==>
        journal[a] == if ok && Names(bindings, a) then old(journal)[a].(state := Adopted) else old(journal)[a]
      ensures ok <==> AdoptAll(old(State()), bindings, proposal).Some?
      ensures State() == Otherwise(AdoptAll(old(State()), bindings, proposal), old(State()))
    {
      var distinct := CheckIdentities(bindings);
      if !distinct || paused {
        return false;
      }
      var before := journal;
      AdoptEachIff(registry, before, bindings, proposal);
      var i := 0;
      while i < |bindings|
        invariant 0 <= i <= |bindings|
        invariant AdoptEach(registry, journal, bindings[i..], proposal) == AdoptEach(registry, before, bindings, proposal)
      {
        assert bindings[i..][0] == bindings[i] && bindings[i..][1..] == bindings[i + 1..];
        var adopted := AdoptInTransaction(bindings[i], proposal);
        if !adopted {
          journal := before;
          return false;
        }
        i := i + 1;
      }
      return true;
    }

    method BindInTransaction(b: Binding, i: nat, actor: nat) returns (ok: bool)
      modifies this`journal
      ensures ok <==> BindRow(registry, clock, old(journal), b, i, actor).Some?
      ensures journal == if ok then BindRow(registry, clock, old(journal), b, i, actor).value else old(journal)
    {
      if b.asset !in journal || b.name !in registry || registry[b.name] != Relation(b.asset, b.generation) {
        return false;
      }
      var row := journal[b.asset];
      if row.name != b.name || row.generation != b.generation || row.state != Active {
        return false;
      }
      if row.createdBy != actor && actor != ADMIN {
        return false;
      }
      if (row.proposal.Some? && row.proposal.value != i) || row.expiresAt <= clock {
        return false;
      }
      journal := journal[b.asset := row.(proposal := Some(i))];
      return true;
    }

    method BindDrafts(bindings: seq<Binding>, proposal: nat, actor: nat) returns (ok: bool)
      modifies this`journal
      ensures ok <==>
        && Identities(bindings) && !paused
        && forall b :: b in bindings ==> CanBind(registry, clock, old(journal), b, proposal, actor)
      ensures journal.Keys == old(journal).Keys
      ensures forall a :: a in journal ==>
        journal[a] == if ok && Names(bindings, a) then old(journal)[a].(proposal := Some(proposal)) else old(journal)[a]
      ensures ok <==> BindAll(old(State()), bindings, proposal, actor).Some?
      ensures State() == Otherwise(BindAll(old(State()), bindings, proposal, actor), old(State()))
    {
      var distinct := CheckIdentities(bindings);
      if !distinct || paused {
        return false;
      }
      var before := journal;
      BindEachIff(registry, clock, before, bindings, proposal, actor);
      var i := 0;
      while i < |bindings|
        invariant 0 <= i <= |bindings|
        invariant BindEach(registry, clock, journal, bindings[i..], proposal, actor)
               == BindEach(registry, clock, before, bindings, proposal, actor)
      {
        assert bindings[i..][0] == bindings[i] && bindings[i..][1..] == bindings[i + 1..];
        var bound := BindInTransaction(bindings[i], proposal, actor);
        if !bound {
          journal := before;
          return false;
        }
        i := i + 1;
      }
      return true;
    }

    /** The drop of one draft: refused while a reset is on, for another relation, an adopted draft
        or a relation that others are built on; nothing to do for a draft dropped already. */
    method CleanupDraft(b: Binding) returns (ok: bool)
      modifies this`journal, this`registry, this`cleaned
      ensures ok <==>
        && !paused && RowIs(old(journal), b)
        && (|| old(journal)[b.asset].state == Dropped
            || (old(journal)[b.asset].state == Active && Registered(old(registry), b) && b.name !in dependents))
      ensures ok ==> b.asset in journal && journal[b.asset].state == Dropped
      ensures ok <==> Cleanup(old(State()), b).Some?
      ensures State() == Otherwise(Cleanup(old(State()), b), old(State()))
    {
      if paused || b.asset !in journal {
        return false;
      }
      var row := journal[b.asset];
      if row.name != b.name || row.generation != b.generation {
        return false;
      }
      if row.state == Dropped {
        return true;
      }
      if row.state != Active || b.name !in registry || registry[b.name] != Relation(b.asset, b.generation) {
        return false;
      }
      if b.name in dependents {
        return false;
      }
      registry := registry - {b.name};
      journal := journal[b.asset := row.(state := Dropped)];
      cleaned := cleaned + {b.asset};
      return true;
    }

    // -------------------------------------------------------------- publication

    /** drafts_for_names: collect the active drafts of those names, and fail on the first whose
        relation has another identity now. */
    method DraftsForNames(references: set<Name>) returns (r: Option<seq<Binding>>)
      ensures r.Some? ==>
        forall b :: b in r.value <==> NamedActive(State(), references, b.asset) && b == BindingOf(State(), b.asset)
      ensures r.Some? <==>
        forall a :: NamedActive(State(), references, a) ==> RelationIs(State(), BindingOf(State(), a))
      ensures r.Some? ==> DistinctNames(r.value)
      ensures r.Some? ==> exists drafts :: NamesDrafts(State(), references, drafts) && |drafts| == |r.value|
    {
      var found: seq<Binding> := [];
      var todo := journal.Keys;
      ghost var drafts: set<nat> := {};
      while todo != {}
        invariant todo <= journal.Keys
        invariant forall b :: b in found <==>
          b.asset !in todo && NamedActive(State(), references, b.asset) && b == BindingOf(State(), b.asset)
        invariant forall a :: a !in todo && NamedActive(State(), references, a) ==>
          RelationIs(State(), BindingOf(State(), a))
        invariant DistinctNames(found)
        invariant drafts !! todo && NamesDrafts(State(), references, drafts) && |drafts| == |found|
        decreases |todo|
      {
        var a :| a in todo;
        todo := todo - {a};
        var row := journal[a];
        if row.state == Active && row.name in references {
          assert NamedActive(State(), references, a);
          if row.name !in registry || registry[row.name] != Relation(a, row.generation) {
            return None;
          }
          assert forall b :: b in found && b.name == row.name ==> RelationIs(State(), b);
          found := found + [Binding(row.name, a, row.generation)];
          drafts := drafts + {a};
        }
      }
      return Some(found);
    }

    /** Resolve the drafts that the workspace names and record the intent to publish them; nothing
        moves when a relation has another identity or the drafts are too many. */
    method PreparePublication(p: nat, references: set<Name>, hidden: bool) returns (r: Option<seq<Binding>>)
      requires p in publishers && publishers[p] == Locked
      modifies this`files, this`publishers, this`nextFile, this`recorded
      ensures r.Some? ==>
        && Resolves(old(State()), references, r.value)
        && State() == DraftModel.WriteIntent(Resolve(old(State()), p, references, hidden, r.value), p)
      ensures r.None? ==> State() == old(State())
      ensures r.None? ==>
        || (exists a :: NamedActive(State(), references, a) && !RelationIs(State(), BindingOf(State(), a)))
        || (exists drafts :: NamesDrafts(State(), references, drafts) && |drafts| > MAX_BINDINGS)
    {
      r := DraftsForNames(references);
      if r.None? {
        return;
      }
      if |r.value| > MAX_BINDINGS {
        return None;
      }
      publishers := publishers[p := Resolved(references, hidden, r.value)];
      assert State() == Resolve(old(State()), p, references, hidden, r.value);
      WriteIntent(p);
    }

    method WriteIntent(p: nat)
      requires p in publishers && publishers[p].Resolved?
      modifies this`files, this`publishers, this`nextFile, this`recorded
      ensures State() == DraftModel.WriteIntent(old(State()), p)
    {
      var w := publishers[p];
      if w.bindings == [] {
        publishers := publishers[p := Recorded(w.references, w.unresolved, None)];
      } else {
        files := files[nextFile := Record(Intent, w.bindings)];
        publishers := publishers[p := Recorded(w.references, w.unresolved, Some(nextFile))];
        nextFile := nextFile + 1;
        recorded := recorded + (set b | b in w.bindings);
      }
    }

    /** After the workspace write: mark the record, adopt, remove the record. A failed adoption
        leaves the committed record for the sweep. */
    method CommitPublication(p: nat)
      requires p in publishers && publishers[p].Written? && publishers[p].file.Some? && publishers[p].file.value in files
      modifies this`files, this`publishers, this`journal
      ensures State() == Unlink(AdoptRecorded(WriteCommitted(old(State()), p), p), p)
    {
      var f := publishers[p].file.value;
      files := files[f := files[f].(state := Committed)];
      publishers := publishers[p := CommittedTo(f)];
      assert State() == WriteCommitted(old(State()), p);
      ghost var committed := State();
      var adopted := AdoptDrafts(files[f].bindings, None);
      if !adopted {
        publishers := publishers - {p};
        assert State() == AdoptRecorded(committed, p);
        return;
      }
      AdoptAllMoves(committed, files[f].bindings, None, State());
      publishers := publishers[p := AdoptedFrom(f)];
      assert State() == AdoptRecorded(committed, p);
      files := files - {f};
      publishers := publishers - {p};
    }

    // -------------------------------------------------------------- the sweep

    /** Scan the publication records, in whatever order the directory yields them. */
    method PublicationState(b: Binding) returns (found: Option<RecordState>)
      ensures DraftModel.PublicationState(files, b, found)
    {
      var todo := files.Keys;
      while todo != {}
        invariant todo <= files.Keys
        invariant forall f :: f in files && f !in todo ==> b !in files[f].bindings
        decreases |todo|
      {
        var f :| f in todo;
        todo := todo - {f};
        if b in files[f].bindings {
          return Some(files[f].state);
        }
      }
      return None;
    }

    /** The decision on the draft under examination. */
    method Settle(b: Binding, d: Draft) returns (verdict: Verdict, owner: Option<nat>, ghost found: Option<RecordState>)
      requires sweeper == Some(Examining(b, d))
      modifies this`journal
      ensures DraftModel.PublicationState(files, b, found)
      ensures Enter(State(), b, verdict, owner) == Decide(old(State()), found)
    {
      hide DraftModel.Judge, DraftModel.PublicationState, Owner;
      owner, found := None, None;
      var met := PublicationState(b);
      found := met;
      if b.name in live {
        return Adopt(None), None, found;
      }
      if unresolved {
        return Keep, None, found;
      }
      if met == Some(Committed) {
        return Adopt(None), None, found;
      }
      if met == Some(Intent) {
        return Keep, None, found;
      }
      var stop;
      stop, owner := SettleOwner(b, d);
      if stop {
        return Keep, None, found;
      }
      verdict := Judge(b, d, owner);
    }

    /** The proposal that owns the draft: the recorded one, or a single pending one that claims it
        with the authority to do so, which is bound first; anything else stops the pass. */
    method SettleOwner(b: Binding, d: Draft) returns (stop: bool, owner: Option<nat>)
      modifies this`journal
      ensures stop <==> Owner(old(State()), b, d).None?
      ensures stop ==> State() == old(State())
      ensures !stop ==> Owner(old(State()), b, d) == Some((State(), owner))
      ensures !stop && owner.Some? ==> owner.value in proposals
    {
      hide BindAll, BindEach;
      stop, owner := false, d.proposal;
      if owner.Some? {
        return owner.value !in proposals, owner;
      }
      var claims := set i | i in proposals && proposals[i].status == Open && b in proposals[i].bindings;
      assert claims == Claimants(State(), b);
      if |claims| == 1 {
        var i :| i in claims;
        OnlyClaim(claims, i);
        var actor := proposals[i].actor;
        if actor != d.createdBy && actor != ADMIN {
          return true, None;
        }
        if d.expiresAt > clock {
          var bound := BindDrafts([b], i, actor);
          if !bound {
            return true, None;
          }
          owner := Some(i);
        }
      } else {
        SeveralClaims(claims);
        return claims != {}, None;
      }
    }

    method Judge(b: Binding, d: Draft, owner: Option<nat>) returns (verdict: Verdict)
      requires owner.Some? ==> owner.value in proposals
      ensures verdict == DraftModel.Judge(State(), b, d, owner)
    {
      var declined := false;
      if owner.Some? {
        var p := proposals[owner.value];
        if b !in p.bindings {
          return Keep;
        }
        if p.status == Applied {
          return Adopt(owner);
        }
        if p.status == Applying || p.status == Conflicted {
          return Keep;
        }
        declined := p.status == Declined || p.status == Cancelled;
      }
      var needed := NeededByOthers(b.name, owner);
      if needed || (!declined && d.expiresAt > clock) || lease > clock || previewQueued {
        return Keep;
      }
      return Drop;
    }

    /** Scan the other proposals for one that still needs the name. */
    method NeededByOthers(name: Name, owner: Option<nat>) returns (needed: bool)
      ensures needed <==> NeededElsewhere(State(), name, owner)
    {
      var todo := proposals.Keys;
      while todo != {}
        invariant todo <= proposals.Keys
        invariant forall i :: i in proposals && i !in todo && Some(i) != owner ==>
          !(Holds(proposals[i]) && References(proposals[i], name))
        decreases |todo|
      {
        var i :| i in todo;
        todo := todo - {i};
        if Some(i) != owner && Holds(proposals[i]) && References(proposals[i], name) {
          return true;
        }
      }
      return false;
    }

    /** The database call that was decided on, and the release of the lock. */
    method Act()
      modifies this
      ensures State() == SweepAct(old(State()))
    {
      if sweeper.Some? {
        match sweeper.value {
          case Examining(_, _) => return;
          case Adopting(b, proposal) => var adopted := AdoptDrafts([b], proposal);
          case Dropping(b, _) => var dropped := CleanupDraft(b);
        }
        sweeper := None;
      }
    }

    /** One pass over one draft under the exclusive lock. */
    method ReconcileOne(asset: nat) returns (verdict: Verdict, ghost found: Option<RecordState>)
      requires sweeper.None? && publishers == map[] && asset in listed
      modifies this
      ensures State() == SweepAct(SweepDecide(SweepLock(old(State()), asset), found))
    {
      hide SweepAct, Decide, DraftModel.PublicationState;
      var d := listed[asset];
      var b := Binding(d.name, asset, d.generation);
      sweeper := Some(Examining(b, d));
      ghost var locked := State();
      assert locked == SweepLock(old(State()), asset);
      var owner;
      verdict, owner, found := Settle(b, d);
      ghost var settled := State();
      match verdict {
        case Keep => sweeper := None;
        case Adopt(proposal) => sweeper := Some(Adopting(b, proposal));
        case Drop => sweeper := Some(Dropping(b, owner));
      }
      assert State() == Enter(settled, b, verdict, owner);
      assert State() == SweepDecide(locked, found);
      Act();
    }
  }

  lemma OnlyClaim(claims: set<nat>, i: nat)
    requires |claims| == 1 && i in claims
    ensures claims == {i}
  {
    assert |claims - {i}| == 0;
  }

  lemma SeveralClaims(claims: set<nat>)
    requires |claims| != 1
    ensures !exists i :: i in claims && claims == {i}
  {
  }
}
