/** What every run of the draft protocol keeps, crashes included: a recorded draft is never
    dropped by cleanup, and cleanup only ever drops the very relation it examined. */
module DraftTheorems {
  import opened DraftModel
  import opened Wrappers

  // ---------------------------------------------------------------- the invariant

  /** Cleaned assets are closed in the journal, and every journal row keeps its fresh asset. */
  ghost predicate JournalInv(journal: map<nat, Draft>, listed: map<nat, Draft>, cleaned: set<nat>, nextAsset: nat) {
    && (forall a :: a in journal ==> a < nextAsset)
    && (forall a :: a in cleaned ==> a in journal && journal[a].state == Dropped)
    && (forall a :: a in listed ==> a in journal && SameDraft(listed[a], journal[a]))
  }

  /** The columns of a journal row that nothing updates. */
  predicate SameDraft(d: Draft, e: Draft) {
    d.name == e.name && d.generation == e.generation && d.createdBy == e.createdBy && d.expiresAt == e.expiresAt
  }

  predicate Settled(journal: map<nat, Draft>, b: Binding) {
    b.asset in journal && journal[b.asset].state != Active
  }

  /** A recorded draft still has its row, is not cleaned, and is either named by a record or
      no longer active. */
  ghost predicate RecordedInv(journal: map<nat, Draft>, files: map<nat, Record>, recorded: set<Binding>,
                              cleaned: set<nat>) {
    && (forall b :: b in recorded ==> RowIs(journal, b) && b.asset !in cleaned)
    && (forall b :: b in recorded ==> Filed(files, b) || Settled(journal, b))
  }

  ghost predicate FilesInv(files: map<nat, Record>, recorded: set<Binding>, nextFile: nat) {
    && (forall f :: f in files ==> f < nextFile)
    && (forall f :: f in files ==> forall b :: b in files[f].bindings ==> b in recorded)
  }

  ghost predicate PublisherOk(p: Publisher, journal: map<nat, Draft>, files: map<nat, Record>, cleaned: set<nat>,
                              nextFile: nat) {
    match p
    case Resolved(_, _, bindings) => forall b :: b in bindings ==> RowIs(journal, b) && b.asset !in cleaned
    case AdoptedFrom(f) =>
      f < nextFile && (f in files ==> forall b :: b in files[f].bindings ==> Settled(journal, b))
    case _ => true
  }

  ghost predicate PublishersInv(publishers: map<nat, Publisher>, journal: map<nat, Draft>, files: map<nat, Record>,
                                cleaned: set<nat>, nextFile: nat) {
    forall p :: p in publishers ==> PublisherOk(publishers[p], journal, files, cleaned, nextFile)
  }

  /** The draft had outlived its lease, or the proposal that owned it was turned down. */
  predicate Disposable(s: State, b: Binding, owner: Option<nat>) {
    || (b.asset in s.journal && s.journal[b.asset].expiresAt <= s.clock)
    || (owner.Some? && owner.value in s.proposals
        && (s.proposals[owner.value].status == Declined || s.proposals[owner.value].status == Cancelled))
  }

  /** Everything that was checked before a drop still holds when the drop happens. */
  ghost predicate ClearedToDrop(s: State, b: Binding, owner: Option<nat>) {
    && b.name !in s.live && !s.unresolved
    && !Filed(s.files, b)
    && !NeededElsewhere(s, b.name, owner)
    && s.lease <= s.clock
    && Disposable(s, b, owner)
  }

  ghost predicate SweeperInv(s: State) {
    s.sweeper.Some? ==>
      && s.publishers == map[]
      && (s.sweeper.value.Dropping? ==> ClearedToDrop(s, s.sweeper.value.binding, s.sweeper.value.owner))
      && (s.sweeper.value.Examining? ==>
            var b, d := s.sweeper.value.binding, s.sweeper.value.draft;
            && b.asset in s.listed && SameDraft(d, s.listed[b.asset])
            && b.name == d.name && b.generation == d.generation)
  }

  ghost predicate Inv(s: State) {
    && JournalInv(s.journal, s.listed, s.cleaned, s.nextAsset)
    && RecordedInv(s.journal, s.files, s.recorded, s.cleaned)
    && FilesInv(s.files, s.recorded, s.nextFile)
    && PublishersInv(s.publishers, s.journal, s.files, s.cleaned, s.nextFile)
    && SweeperInv(s)
  }

  // ---------------------------------------------------------------- steps that only move journal rows

  /** Some rows may have left Active or been bound; nothing else of the journal moved. */
  ghost predicate RowsMoved(journal: Journal, next: Journal) {
    && next.Keys == journal.Keys
    && (forall a :: a in journal ==> SameDraft(journal[a], next[a]))
    && (forall a :: a in journal && journal[a].state != Active ==> next[a].state != Active)
    && (forall a :: a in journal && journal[a].state == Dropped ==> next[a].state == Dropped)
  }

  /** Nothing the invariant reads was touched except that some rows may have left Active. */
  ghost predicate OnlyRowsMoved(s: State, t: State) {
    t == s.(journal := t.journal) && RowsMoved(s.journal, t.journal)
  }

  lemma OnlyRowsMovedReflexive(s: State)
    ensures OnlyRowsMoved(s, s)
  {
  }

  lemma RowsMovedKeeps(s: State, t: State)
    requires Inv(s) && OnlyRowsMoved(s, t)
    ensures Inv(t)
  {
    forall b | RowIs(s.journal, b) ensures RowIs(t.journal, b) {}
    forall b | Settled(s.journal, b) ensures Settled(t.journal, b) {}
    forall p | p in t.publishers ensures PublisherOk(t.publishers[p], t.journal, t.files, t.cleaned, t.nextFile) {
      assert PublisherOk(s.publishers[p], s.journal, s.files, s.cleaned, s.nextFile);
    }
  }

  lemma {:induction false} AdoptEachMoves(registry: map<Name, Relation>, journal: Journal, bindings: seq<Binding>,
                                          proposal: Option<nat>, next: Journal)
    requires AdoptEach(registry, journal, bindings, proposal) == Some(next)
    ensures RowsMoved(journal, next)
    ensures forall b :: b in bindings ==> Settled(next, b)
    decreases |bindings|
  {
    if bindings != [] {
      var row := AdoptRow(registry, journal, bindings[0], proposal).value;
      AdoptEachMoves(registry, row, bindings[1..], proposal, next);
      forall b | b in bindings ensures Settled(next, b) {
        if b != bindings[0] {
          assert b in bindings[1..];
        }
      }
    }
  }

  lemma AdoptAllMoves(s: State, bindings: seq<Binding>, proposal: Option<nat>, t: State)
    requires AdoptAll(s, bindings, proposal) == Some(t)
    ensures OnlyRowsMoved(s, t)
    ensures forall b :: b in bindings ==> Settled(t.journal, b)
  {
    hide RowsMoved, Settled;
    AdoptEachMoves(s.registry, s.journal, bindings, proposal, t.journal);
  }

  lemma {:induction false} BindEachMoves(registry: map<Name, Relation>, clock: int, journal: Journal,
                                         bindings: seq<Binding>, i: nat, actor: nat, next: Journal)
    requires BindEach(registry, clock, journal, bindings, i, actor) == Some(next)
    ensures RowsMoved(journal, next)
    decreases |bindings|
  {
    if bindings != [] {
      var row := BindRow(registry, clock, journal, bindings[0], i, actor).value;
      BindEachMoves(registry, clock, row, bindings[1..], i, actor, next);
    }
  }

  lemma BindAllMoves(s: State, bindings: seq<Binding>, i: nat, actor: nat, t: State)
    requires BindAll(s, bindings, i, actor) == Some(t)
    ensures OnlyRowsMoved(s, t)
  {
    hide RowsMoved;
    BindEachMoves(s.registry, s.clock, s.journal, bindings, i, actor, t.journal);
  }

  // ---------------------------------------------------------------- all or none

  /** What adopting asks of one identity. */
  predicate CanAdopt(registry: map<Name, Relation>, journal: Journal, b: Binding, proposal: Option<nat>) {
    && RowIs(journal, b) && (proposal.Some? ==> journal[b.asset].proposal == proposal)
    && (journal[b.asset].state == Adopted || (journal[b.asset].state == Active && Registered(registry, b)))
  }

  /** What binding asks of one identity. */
  predicate CanBind(registry: map<Name, Relation>, clock: int, journal: Journal, b: Binding, i: nat, actor: nat) {
    && RowIs(journal, b) && Registered(registry, b) && journal[b.asset].state == Active
    && (journal[b.asset].createdBy == actor || actor == ADMIN)
    && (journal[b.asset].proposal == None || journal[b.asset].proposal == Some(i))
    && journal[b.asset].expiresAt > clock
  }

  predicate Names(bindings: seq<Binding>, a: nat) {
    exists b :: b in bindings && b.asset == a
  }

  lemma NamesFirst(bindings: seq<Binding>, a: nat)
    requires bindings != []
    ensures Names(bindings, a) <==> bindings[0].asset == a || Names(bindings[1..], a)
  {
    assert forall b :: b in bindings <==> b == bindings[0] || b in bindings[1..];
  }

  /** Adoption succeeds exactly when every identity can be adopted, and then adopts those rows
      and no other. */
  lemma {:induction false} AdoptEachIff(registry: map<Name, Relation>, journal: Journal, bindings: seq<Binding>,
                                        proposal: Option<nat>)
    requires DistinctNames(bindings)
    ensures AdoptEach(registry, journal, bindings, proposal).Some? <==>
      forall b :: b in bindings ==> CanAdopt(registry, journal, b, proposal)
    ensures AdoptEach(registry, journal, bindings, proposal).Some? ==>
      var next := AdoptEach(registry, journal, bindings, proposal).value;
      && next.Keys == journal.Keys
      && forall a :: a in journal ==>
           next[a] == if Names(bindings, a) then journal[a].(state := Adopted) else journal[a]
    decreases |bindings|
  {
    if bindings != [] {
      var first := bindings[0];
      var row := AdoptRow(registry, journal, first, proposal);
      assert row.Some? <==> CanAdopt(registry, journal, first, proposal);
      if row.Some? {
        AdoptEachIff(registry, row.value, bindings[1..], proposal);
        forall b | b in bindings[1..]
          ensures CanAdopt(registry, row.value, b, proposal) <==> CanAdopt(registry, journal, b, proposal)
        {
          assert b.name != first.name;
        }
        forall a | a in journal
          ensures Names(bindings, a) <==> first.asset == a || Names(bindings[1..], a)
        {
          NamesFirst(bindings, a);
        }
      }
    }
  }

  /** Binding succeeds exactly when every identity can be bound, and then binds those rows and no
      other. */
  lemma {:induction false} BindEachIff(registry: map<Name, Relation>, clock: int, journal: Journal,
                                       bindings: seq<Binding>, i: nat, actor: nat)
    requires DistinctNames(bindings)
    ensures BindEach(registry, clock, journal, bindings, i, actor).Some? <==>
      forall b :: b in bindings ==> CanBind(registry, clock, journal, b, i, actor)
    ensures BindEach(registry, clock, journal, bindings, i, actor).Some? ==>
      var next := BindEach(registry, clock, journal, bindings, i, actor).value;
      && next.Keys == journal.Keys
      && forall a :: a in journal ==>
           next[a] == if Names(bindings, a) then journal[a].(proposal := Some(i)) else journal[a]
    decreases |bindings|
  {
    if bindings != [] {
      var first := bindings[0];
      var row := BindRow(registry, clock, journal, first, i, actor);
      assert row.Some? <==> CanBind(registry, clock, journal, first, i, actor);
      if row.Some? {
        BindEachIff(registry, clock, row.value, bindings[1..], i, actor);
        forall b | b in bindings[1..]
          ensures CanBind(registry, clock, row.value, b, i, actor) <==> CanBind(registry, clock, journal, b, i, actor)
        {
          assert b.name != first.name;
        }
        forall a | a in journal
          ensures Names(bindings, a) <==> first.asset == a || Names(bindings[1..], a)
        {
          NamesFirst(bindings, a);
        }
      }
    }
  }

  // ---------------------------------------------------------------- publishers

  lemma PublisherMovesKeeps(s: State, p: nat, w: Publisher, t: State)
    requires Inv(s) && (p in s.publishers || s.sweeper.None?)
    requires PublisherOk(w, s.journal, s.files, s.cleaned, s.nextFile)
    requires t == s.(publishers := s.publishers[p := w])
    ensures Inv(t)
  {
    assert s.sweeper.None?;
    forall q | q in t.publishers ensures PublisherOk(t.publishers[q], t.journal, t.files, t.cleaned, t.nextFile) {
      assert q != p ==> PublisherOk(s.publishers[q], s.journal, s.files, s.cleaned, s.nextFile);
    }
  }

  lemma ReleaseKeeps(s: State, p: nat, t: State)
    requires Inv(s) && t == Release(s, p)
    ensures Inv(t)
  {
    forall q | q in t.publishers ensures PublisherOk(t.publishers[q], t.journal, t.files, t.cleaned, t.nextFile) {
      assert PublisherOk(s.publishers[q], s.journal, s.files, s.cleaned, s.nextFile);
    }
    if s.sweeper.Some? {
      assert t.publishers == map[];
    }
  }

  lemma LockSharedKeeps(s: State, p: nat, t: State)
    requires Inv(s) && t == LockShared(s, p)
    ensures Inv(t)
  {
    hide Inv;
    if s.sweeper.None? && p !in s.publishers {
      assert t == s.(publishers := s.publishers[p := Locked]);
      PublisherMovesKeeps(s, p, Locked, t);
    }
  }

  lemma ResolveKeeps(s: State, p: nat, r: set<Name>, u: bool, bs: seq<Binding>, t: State)
    requires Inv(s) && t == Resolve(s, p, r, u, bs)
    ensures Inv(t)
  {
    if t != s {
      PublisherMovesKeeps(s, p, Resolved(r, u, bs), t);
    }
  }

  lemma WriteIntentKeeps(s: State, p: nat, t: State)
    requires Inv(s) && t == WriteIntent(s, p)
    ensures Inv(t)
  {
    hide JournalInv;
    if p in s.publishers && s.publishers[p].Resolved? {
      var w := s.publishers[p];
      assert PublisherOk(w, s.journal, s.files, s.cleaned, s.nextFile);
      if w.bindings == [] {
        PublisherMovesKeeps(s, p, Recorded(w.references, w.unresolved, None), t);
      } else {
        assert s.nextFile !in s.files;
        forall b | b in t.recorded ensures RowIs(t.journal, b) && b.asset !in t.cleaned && (Filed(t.files, b) || Settled(t.journal, b)) {
          if b in w.bindings {
            assert b in t.files[s.nextFile].bindings;
          } else if !Settled(s.journal, b) {
            var f :| f in s.files && b in s.files[f].bindings;
            assert b in t.files[f].bindings;
          }
        }
        forall q | q in t.publishers ensures PublisherOk(t.publishers[q], t.journal, t.files, t.cleaned, t.nextFile) {
          assert q != p ==> PublisherOk(s.publishers[q], s.journal, s.files, s.cleaned, s.nextFile);
        }
      }
    }
  }

  lemma WriteCommittedKeeps(s: State, p: nat, t: State)
    requires Inv(s) && t == WriteCommitted(s, p)
    ensures Inv(t)
  {
    if t != s {
      var g := s.publishers[p].file.value;
      forall b | b in t.recorded ensures Filed(t.files, b) || Settled(t.journal, b) {
        if !Settled(s.journal, b) {
          var f :| f in s.files && b in s.files[f].bindings;
          assert b in t.files[f].bindings;
        }
      }
      forall q | q in t.publishers ensures PublisherOk(t.publishers[q], t.journal, t.files, t.cleaned, t.nextFile) {
        assert q != p ==> PublisherOk(s.publishers[q], s.journal, s.files, s.cleaned, s.nextFile);
      }
    }
  }

  lemma WriteWorkspaceKeeps(s: State, p: nat, t: State)
    requires Inv(s) && t == WriteWorkspace(s, p)
    ensures Inv(t)
  {
    if t != s {
      forall q | q in t.publishers ensures PublisherOk(t.publishers[q], t.journal, t.files, t.cleaned, t.nextFile) {
        assert q != p ==> PublisherOk(s.publishers[q], s.journal, s.files, s.cleaned, s.nextFile);
      }
    }
  }

  lemma AdoptRecordedKeeps(s: State, p: nat, t: State)
    requires Inv(s) && t == AdoptRecorded(s, p)
    ensures Inv(t)
  {
    if p in s.publishers && s.publishers[p].CommittedTo? && s.publishers[p].record in s.files {
      var f := s.publishers[p].record;
      var a := AdoptAll(s, s.files[f].bindings, None);
      if a.Some? {
        AdoptAllMoves(s, s.files[f].bindings, None, a.value);
        RowsMovedKeeps(s, a.value);
        PublisherMovesKeeps(a.value, p, AdoptedFrom(f), t);
      } else {
        ReleaseKeeps(s, p, t);
      }
    }
  }

  lemma UnlinkKeeps(s: State, p: nat, t: State)
    requires Inv(s) && t == Unlink(s, p)
    ensures Inv(t)
  {
    if p in s.publishers && s.publishers[p].AdoptedFrom? {
      var g := s.publishers[p].record;
      assert PublisherOk(s.publishers[p], s.journal, s.files, s.cleaned, s.nextFile);
      forall b | b in t.recorded ensures Filed(t.files, b) || Settled(t.journal, b) {
        if !Settled(s.journal, b) {
          var f :| f in s.files && b in s.files[f].bindings;
          assert f != g;
          assert b in t.files[f].bindings;
        }
      }
      forall q | q in t.publishers ensures PublisherOk(t.publishers[q], t.journal, t.files, t.cleaned, t.nextFile) {
        assert PublisherOk(s.publishers[q], s.journal, s.files, s.cleaned, s.nextFile);
      }
    }
  }

  // ---------------------------------------------------------------- the sweep

  lemma SweepLockKeeps(s: State, asset: nat, t: State)
    requires Inv(s) && t == SweepLock(s, asset)
    ensures Inv(t)
  {
  }

  lemma ListDraftKeeps(s: State, asset: nat, t: State)
    requires Inv(s) && t == ListDraft(s, asset)
    ensures Inv(t)
  {
    forall p | p in t.publishers ensures PublisherOk(t.publishers[p], t.journal, t.files, t.cleaned, t.nextFile) {
      assert PublisherOk(s.publishers[p], s.journal, s.files, s.cleaned, s.nextFile);
    }
  }

  /** Settling the owner changes at most which proposal a row belongs to. */
  lemma OwnerMoves(s: State, b: Binding, d: Draft, t: State, owner: Option<nat>)
    requires Owner(s, b, d) == Some((t, owner))
    ensures OnlyRowsMoved(s, t) && t.proposals == s.proposals
    ensures owner.Some? ==> owner.value in s.proposals
  {
    hide OnlyRowsMoved;
    OnlyRowsMovedReflexive(s);
    if d.proposal.None? {
      var claims := Claimants(s, b);
      if exists i :: i in claims && claims == {i} {
        var i :| i in claims && claims == {i};
        if d.expiresAt > s.clock && BindAll(s, [b], i, s.proposals[i].actor).Some? {
          BindAllMoves(s, [b], i, s.proposals[i].actor, BindAll(s, [b], i, s.proposals[i].actor).value);
        }
      }
    }
  }

  /** Judgement ends in a drop only when the drop is cleared. */
  lemma JudgeClears(s: State, b: Binding, d: Draft, owner: Option<nat>)
    requires owner.Some? ==> owner.value in s.proposals
    requires b.asset in s.journal && s.journal[b.asset].expiresAt == d.expiresAt
    requires b.name !in s.live && !s.unresolved && !Filed(s.files, b)
    ensures Judge(s, b, d, owner) == Drop ==> ClearedToDrop(s, b, owner)
  {
  }

  /** The row under examination still has the columns it was listed with. */
  lemma ExaminedRow(s: State)
    requires Inv(s) && s.sweeper.Some? && s.sweeper.value.Examining?
    ensures s.sweeper.value.binding.asset in s.journal
    ensures SameDraft(s.sweeper.value.draft, s.journal[s.sweeper.value.binding.asset])
  {
  }

  lemma SweepDecideKeeps(s: State, found: Option<RecordState>, t: State)
    requires Inv(s) && t == SweepDecide(s, found)
    ensures Inv(t)
  {
    hide JournalInv, RecordedInv, FilesInv, PublishersInv, ClearedToDrop, Owner, Judge;
    if s.sweeper.Some? && s.sweeper.value.Examining? && PublicationState(s.files, s.sweeper.value.binding, found) {
      var b, d := s.sweeper.value.binding, s.sweeper.value.draft;
      ExaminedRow(s);
      EnterKeeps(s, b, Keep, None);
      EnterKeeps(s, b, Adopt(None), None);
      if b.name !in s.live && !s.unresolved && found.None? && Owner(s, b, d).Some? {
        var (u, owner) := Owner(s, b, d).value;
        OwnerMoves(s, b, d, u, owner);
        RowsMovedKeeps(s, u);
        JudgeClears(u, b, d, owner);
        EnterKeeps(u, b, Judge(u, b, d, owner), owner);
      }
    }
  }

  lemma EnterKeeps(s: State, b: Binding, verdict: Verdict, owner: Option<nat>)
    requires Inv(s) && s.sweeper.Some?
    requires verdict == Drop ==> ClearedToDrop(s, b, owner)
    ensures Inv(Enter(s, b, verdict, owner))
  {
  }

  /** A cleared drop never hits a recorded draft. */
  lemma ClearedNotRecorded(s: State, b: Binding)
    requires Inv(s) && !Filed(s.files, b) && RowIs(s.journal, b) && s.journal[b.asset].state == Active
    ensures forall r :: r in s.recorded ==> r.asset != b.asset
  {
    forall r | r in s.recorded ensures r.asset != b.asset {
      assert RowIs(s.journal, r);
      assert r.asset == b.asset ==> r == b;
    }
  }

  lemma SweepActKeeps(s: State, t: State)
    requires Inv(s) && t == SweepAct(s)
    ensures Inv(t)
  {
    if s.sweeper.Some? {
      match s.sweeper.value
      case Examining(_, _) =>
      case Adopting(b, p) =>
        var a := AdoptAll(s, [b], p);
        if a.Some? {
          AdoptAllMoves(s, [b], p, a.value);
          RowsMovedKeeps(s, a.value);
        }
      case Dropping(b, _) => CleanupKeeps(s, b, t);
    }
  }

  lemma CleanupKeeps(s: State, b: Binding, t: State)
    requires Inv(s) && s.publishers == map[] && !Filed(s.files, b) && t == Otherwise(Cleanup(s, b), s).(sweeper := None)
    ensures Inv(t)
  {
    if Cleanup(s, b).Some? && s.journal[b.asset].state == Active {
      ClearedNotRecorded(s, b);
      var u := DropRelation(s, b.name);
      DropKeeps(s, b.name, u);
    }
  }

  // ---------------------------------------------------------------- the rest of the world

  lemma DropKeeps(s: State, name: Name, t: State)
    requires Inv(s) && name in s.registry && t == DropRelation(s, name)
    ensures Inv(t)
  {
    var u := s.(journal := t.journal);
    RowsMovedKeeps(s, u);
    forall p | p in t.publishers ensures PublisherOk(t.publishers[p], t.journal, t.files, t.cleaned, t.nextFile) {
      assert PublisherOk(u.publishers[p], u.journal, u.files, u.cleaned, u.nextFile);
    }
  }

  /** Steps that touch only the registry, the supply of assets, or a fresh journal row. */
  lemma RegistryKeeps(s: State, t: State)
    requires Inv(s)
    requires t == s.(registry := t.registry, journal := t.journal, nextAsset := t.nextAsset)
    requires s.nextAsset <= t.nextAsset
    requires forall a :: a in s.journal ==> a in t.journal && t.journal[a] == s.journal[a]
    requires forall a :: a in t.journal ==> a in s.journal || s.nextAsset <= a < t.nextAsset
    ensures Inv(t)
  {
    forall b | RowIs(s.journal, b) ensures RowIs(t.journal, b) {}
    forall p | p in t.publishers ensures PublisherOk(t.publishers[p], t.journal, t.files, t.cleaned, t.nextFile) {
      assert PublisherOk(s.publishers[p], s.journal, s.files, s.cleaned, s.nextFile);
    }
  }

  lemma OutsideKeeps(s: State, t: State)
    requires Inv(s)
    requires t == s.(proposals := t.proposals, lease := t.lease, previewQueued := t.previewQueued, clock := t.clock,
                     paused := t.paused, dependents := t.dependents)
    requires s.clock <= t.clock
    requires s.sweeper.Some? ==> t.proposals == s.proposals && t.lease == s.lease
    ensures Inv(t)
  {
    forall p | p in t.publishers ensures PublisherOk(t.publishers[p], t.journal, t.files, t.cleaned, t.nextFile) {
      assert PublisherOk(s.publishers[p], s.journal, s.files, s.cleaned, s.nextFile);
    }
  }

  lemma CreateKeeps(s: State, name: Name, draft: Option<(nat, int)>, t: State)
    requires Inv(s) && t == CreateRelation(s, name, draft)
    ensures Inv(t)
  {
    RegistryKeeps(s, t);
  }

  lemma BumpKeeps(s: State, name: Name, t: State)
    requires Inv(s) && t == BumpRelation(s, name)
    ensures Inv(t)
  {
    RegistryKeeps(s, t);
  }

  lemma SucceedKeeps(s: State, name: Name, t: State)
    requires Inv(s) && t == SucceedRelation(s, name)
    ensures Inv(t)
  {
    RegistryKeeps(s, t);
  }

  lemma ArchiveKeeps(s: State, name: Name, t: State)
    requires Inv(s) && t == ArchiveRelation(s, name)
    ensures Inv(t)
  {
    RegistryKeeps(s, t);
  }

  lemma BindKeeps(s: State, bs: seq<Binding>, i: nat, actor: nat, t: State)
    requires Inv(s) && t == Otherwise(BindAll(s, bs, i, actor), s)
    ensures Inv(t)
  {
    if BindAll(s, bs, i, actor).Some? {
      BindAllMoves(s, bs, i, actor, t);
      RowsMovedKeeps(s, t);
    }
  }

  lemma AdoptKeeps(s: State, bs: seq<Binding>, proposal: Option<nat>, t: State)
    requires Inv(s) && t == Otherwise(AdoptAll(s, bs, proposal), s)
    ensures Inv(t)
  {
    if AdoptAll(s, bs, proposal).Some? {
      AdoptAllMoves(s, bs, proposal, t);
      RowsMovedKeeps(s, t);
    }
  }

  predicate ByPublisher(step: Step) {
    step.Lock? || step.ResolveDrafts? || step.RecordIntent? || step.Publish? || step.RecordCommit?
    || step.AdoptDrafts? || step.RemoveRecord? || step.PublisherEnds?
  }

  lemma PublisherStepKeeps(s: State, step: Step, t: State)
    requires Inv(s) && ByPublisher(step) && t == Apply(s, step)
    ensures Inv(t)
  {
    hide Inv, LockShared, Resolve, WriteIntent, WriteWorkspace, WriteCommitted, AdoptRecorded, Unlink, Release;
    match step
    case Lock(p) => LockSharedKeeps(s, p, t);
    case ResolveDrafts(p, r, u, bs) => ResolveKeeps(s, p, r, u, bs, t);
    case RecordIntent(p) => WriteIntentKeeps(s, p, t);
    case Publish(p) => WriteWorkspaceKeeps(s, p, t);
    case RecordCommit(p) => WriteCommittedKeeps(s, p, t);
    case AdoptDrafts(p) => AdoptRecordedKeeps(s, p, t);
    case RemoveRecord(p) => UnlinkKeeps(s, p, t);
    case PublisherEnds(p) => ReleaseKeeps(s, p, t);
  }

  predicate BySweeper(step: Step) {
    step.SweeperLists? || step.SweeperLocks? || step.SweeperDecides? || step.SweeperActs? || step.SweeperEnds?
  }

  lemma SweeperStepKeeps(s: State, step: Step, t: State)
    requires Inv(s) && BySweeper(step) && t == Apply(s, step)
    ensures Inv(t)
  {
    hide Inv, ListDraft, SweepLock, SweepDecide, SweepAct;
    match step
    case SweeperLists(a) => ListDraftKeeps(s, a, t);
    case SweeperLocks(a) => SweepLockKeeps(s, a, t);
    case SweeperDecides(found) => SweepDecideKeeps(s, found, t);
    case SweeperActs => SweepActKeeps(s, t);
    case SweeperEnds => SweeperEndsKeeps(s, t);
  }

  lemma OtherStepKeeps(s: State, step: Step, t: State)
    requires Inv(s) && !ByPublisher(step) && !BySweeper(step) && t == Apply(s, step)
    ensures Inv(t)
  {
    hide Inv, CreateRelation, BumpRelation, ArchiveRelation, SucceedRelation, ManualDrop, BindAll, AdoptAll, Otherwise,
      WriteProposal, RetainLease;
    match step
    case Create(n, d) => CreateKeeps(s, n, d, t);
    case Bump(n) => BumpKeeps(s, n, t);
    case Archive(n) => ArchiveKeeps(s, n, t);
    case Succeed(n) => SucceedKeeps(s, n, t);
    case DropManually(n) => ManualDropKeeps(s, n, t);
    case Gate(_) => OutsideKeeps(s, t);
    case Depend(_) => OutsideKeeps(s, t);
    case BindDrafts(bs, i, actor) => BindKeeps(s, bs, i, actor, t);
    case AdoptForProposal(bs, i) => AdoptKeeps(s, bs, Some(i), t);
    case SaveProposal(i, p) => SaveProposalKeeps(s, i, p, t);
    case Lease(u) => LeaseKeeps(s, u, t);
    case Preview(q) => OutsideKeeps(s, t);
    case Tick(e) => OutsideKeeps(s, t);
  }

  lemma StepKeeps(s: State, step: Step, t: State)
    requires Inv(s) && t == Apply(s, step)
    ensures Inv(t)
  {
    hide Inv, Apply;
    if ByPublisher(step) {
      PublisherStepKeeps(s, step, t);
    } else if BySweeper(step) {
      SweeperStepKeeps(s, step, t);
    } else {
      OtherStepKeeps(s, step, t);
    }
  }

  lemma ManualDropKeeps(s: State, name: Name, t: State)
    requires Inv(s) && t == ManualDrop(s, name)
    ensures Inv(t)
  {
    if t != s {
      DropKeeps(s, name, t);
    }
  }

  lemma SaveProposalKeeps(s: State, i: nat, p: Proposal, t: State)
    requires Inv(s) && t == WriteProposal(s, i, p)
    ensures Inv(t)
  {
    hide Inv;
    if s.sweeper.None? {
      assert t == s.(proposals := s.proposals[i := p]);
      OutsideKeeps(s, t);
    }
  }

  lemma LeaseKeeps(s: State, until: int, t: State)
    requires Inv(s) && t == RetainLease(s, until)
    ensures Inv(t)
  {
    OutsideKeeps(s, t);
  }

  lemma SweeperEndsKeeps(s: State, t: State)
    requires Inv(s) && t == s.(sweeper := None)
    ensures Inv(t)
  {
    forall p | p in t.publishers ensures PublisherOk(t.publishers[p], t.journal, t.files, t.cleaned, t.nextFile) {
      assert PublisherOk(s.publishers[p], s.journal, s.files, s.cleaned, s.nextFile);
    }
  }

  lemma {:induction false} RunKeeps(s: State, steps: seq<Step>)
    requires Inv(s)
    ensures Inv(Run(s, steps))
    decreases |steps|
  {
    hide Inv, Apply;
    if steps != [] {
      StepKeeps(s, steps[0], Apply(s, steps[0]));
      RunKeeps(Apply(s, steps[0]), steps[1..]);
    }
  }

  // ---------------------------------------------------------------- theorems

  ghost predicate Reaches(s: State, t: State, steps: seq<Step>) {
    Run(s, steps) == t
  }

  /** States that some run from the empty store reaches. */
  ghost predicate Reachable(s: State) {
    exists steps :: Reaches(Init, s, steps)
  }

  lemma ReachableInv(s: State)
    requires Reachable(s)
    ensures Inv(s)
  {
    var steps :| Reaches(Init, s, steps);
    RunKeeps(Init, steps);
  }

  predicate Holding(p: Publisher, f: nat) {
    match p
    case Recorded(_, _, file) => file == Some(f)
    case Written(file) => file == Some(f)
    case CommittedTo(record) => record == f
    case AdoptedFrom(record) => record == f
    case _ => false
  }

  /** A record whose publisher is gone. */
  ghost predicate Orphan(files: map<nat, Record>, publishers: map<nat, Publisher>, nextFile: nat, f: nat) {
    f in files && f < nextFile && forall p :: p in publishers ==> !Holding(publishers[p], f)
  }

  ghost predicate SettledOnward(journal: map<nat, Draft>, next: map<nat, Draft>) {
    forall b :: Settled(journal, b) ==> Settled(next, b)
  }

  ghost predicate OrphansOnward(s: State, t: State) {
    forall f: nat :: Orphan(s.files, s.publishers, s.nextFile, f)
      ==> Orphan(t.files, t.publishers, t.nextFile, f) && t.files[f] == s.files[f]
  }

  /** What no step takes back: recorded bindings, settled rows and orphaned records. */
  ghost predicate Onward(s: State, t: State) {
    s.recorded <= t.recorded && SettledOnward(s.journal, t.journal) && OrphansOnward(s, t)
  }

  ghost predicate SameHistory(s: State, t: State) {
    Onward(s, t) && t.cleaned == s.cleaned
  }

  /** A step that leaves records and publishers alone. */
  lemma JournalOnward(s: State, t: State)
    requires t.files == s.files && t.publishers == s.publishers && t.nextFile == s.nextFile
    requires t.recorded == s.recorded && SettledOnward(s.journal, t.journal)
    ensures Onward(s, t)
  {
    hide SettledOnward;
  }

  /** A publisher takes up no record but its own. */
  lemma PublisherMovesOnward(s: State, p: nat, w: Publisher, t: State)
    requires p in s.publishers && t == s.(publishers := s.publishers[p := w])
    requires forall f: nat :: Holding(w, f) ==> Holding(s.publishers[p], f)
    ensures SameHistory(s, t)
  {
    hide Holding;
  }

  lemma LockSharedOnward(s: State, p: nat, t: State)
    requires t == LockShared(s, p)
    ensures SameHistory(s, t)
  {
    assert forall f: nat :: !Holding(Locked, f);
    hide Holding;
  }

  lemma ResolveOnward(s: State, p: nat, r: set<Name>, u: bool, bs: seq<Binding>, t: State)
    requires t == Resolve(s, p, r, u, bs)
    ensures SameHistory(s, t)
  {
    if t != s {
      PublisherMovesOnward(s, p, Resolved(r, u, bs), t);
    }
  }

  lemma WriteIntentOnward(s: State, p: nat, t: State)
    requires t == WriteIntent(s, p)
    ensures SameHistory(s, t)
  {
    if p in s.publishers && s.publishers[p].Resolved? {
      var w := s.publishers[p];
      if w.bindings == [] {
        PublisherMovesOnward(s, p, Recorded(w.references, w.unresolved, None), t);
      } else {
        assert forall f: nat :: Holding(t.publishers[p], f) <==> f == s.nextFile;
        hide Holding;
        assert forall q :: q in s.publishers && q != p ==> t.publishers[q] == s.publishers[q];
      }
    }
  }

  lemma WriteWorkspaceOnward(s: State, p: nat, t: State)
    requires t == WriteWorkspace(s, p)
    ensures SameHistory(s, t)
  {
    if t != s {
      PublisherMovesOnward(s, p, Written(s.publishers[p].file), s.(publishers := t.publishers));
    }
  }

  lemma WriteCommittedOnward(s: State, p: nat, t: State)
    requires t == WriteCommitted(s, p)
    ensures SameHistory(s, t)
  {
    if p in s.publishers && s.publishers[p].Written? && s.publishers[p].file.Some?
       && s.publishers[p].file.value in s.files {
      var g := s.publishers[p].file.value;
      assert forall f: nat :: Holding(t.publishers[p], f) <==> f == g;
      assert Holding(s.publishers[p], g);
      hide Holding;
      assert forall q :: q in s.publishers && q != p ==> t.publishers[q] == s.publishers[q];
    }
  }

  lemma AdoptRecordedOnward(s: State, p: nat, t: State)
    requires t == AdoptRecorded(s, p)
    ensures SameHistory(s, t)
  {
    if p in s.publishers && s.publishers[p].CommittedTo? && s.publishers[p].record in s.files {
      var f := s.publishers[p].record;
      var a := AdoptAll(s, s.files[f].bindings, None);
      if a.Some? {
        AdoptAllMoves(s, s.files[f].bindings, None, a.value);
        RowsMovedOnward(s, a.value);
        PublisherMovesOnward(a.value, p, AdoptedFrom(f), t);
      } else {
        ReleaseOnward(s, p, t);
      }
    }
  }

  lemma RowsMovedOnward(s: State, t: State)
    requires OnlyRowsMoved(s, t)
    ensures SameHistory(s, t)
  {
    JournalOnward(s, t);
  }

  lemma UnlinkOnward(s: State, p: nat, t: State)
    requires t == Unlink(s, p)
    ensures SameHistory(s, t)
  {
    if p in s.publishers && s.publishers[p].AdoptedFrom? {
      assert Holding(s.publishers[p], s.publishers[p].record);
      hide Holding;
      assert forall q :: q in t.publishers ==> t.publishers[q] == s.publishers[q];
    }
  }

  lemma ReleaseOnward(s: State, p: nat, t: State)
    requires t == Release(s, p)
    ensures SameHistory(s, t)
  {
    hide Holding;
    assert forall q :: q in t.publishers ==> t.publishers[q] == s.publishers[q];
  }

  lemma EnterMovesSweeper(s: State, b: Binding, verdict: Verdict, owner: Option<nat>)
    ensures Enter(s, b, verdict, owner) == s.(sweeper := Enter(s, b, verdict, owner).sweeper)
  {
  }

  /** Like OnlyRowsMoved, with the sweeper moving too. */
  ghost predicate RowsAndSweeperMoved(s: State, t: State) {
    && t == s.(journal := t.journal, sweeper := t.sweeper)
    && SettledOnward(s.journal, t.journal)
  }

  lemma EnteredMoves(s: State, u: State, b: Binding, verdict: Verdict, owner: Option<nat>)
    requires OnlyRowsMoved(s, u)
    ensures RowsAndSweeperMoved(s, Enter(u, b, verdict, owner))
  {
  }

  /** Deciding moves the sweeper, and at most binds the examined row to its proposal. */
  lemma SweepDecideMoves(s: State, found: Option<RecordState>, t: State)
    requires t == SweepDecide(s, found)
    ensures RowsAndSweeperMoved(s, t)
  {
    hide Judge, Owner, Enter, PublicationState, OnlyRowsMoved, RowsAndSweeperMoved, RowsMoved;
    OnlyRowsMovedReflexive(s);
    NothingMoved(s);
    if s.sweeper.Some? && s.sweeper.value.Examining? {
      var b, d := s.sweeper.value.binding, s.sweeper.value.draft;
      EnteredMoves(s, s, b, Adopt(None), None);
      EnteredMoves(s, s, b, Keep, None);
      if Owner(s, b, d).Some? {
        var u, owner := Owner(s, b, d).value.0, Owner(s, b, d).value.1;
        OwnerMoves(s, b, d, u, owner);
        EnteredMoves(s, u, b, Judge(u, b, d, owner), owner);
      }
    }
  }

  lemma NothingMoved(s: State)
    ensures RowsAndSweeperMoved(s, s)
  {
  }

  lemma SweepDecideOnward(s: State, found: Option<RecordState>, t: State)
    requires t == SweepDecide(s, found)
    ensures SameHistory(s, t)
  {
    hide Orphan, SweepDecide;
    SweepDecideMoves(s, found, t);
    JournalOnward(s, t);
  }

  lemma SweepActOnward(s: State, t: State)
    requires t == SweepAct(s)
    ensures Onward(s, t)
  {
    hide Orphan, AdoptAll;
    if s.sweeper.Some? {
      match s.sweeper.value
      case Examining(_, _) => JournalOnward(s, t);
      case Adopting(b, p) =>
        if AdoptAll(s, [b], p).Some? {
          AdoptAllMoves(s, [b], p, AdoptAll(s, [b], p).value);
        }
        JournalOnward(s, t);
      case Dropping(b, _) => CleanupOnward(s, b, t);
    }
  }

  lemma CleanupOnward(s: State, b: Binding, t: State)
    requires t == Otherwise(Cleanup(s, b), s).(sweeper := None)
    ensures Onward(s, t)
  {
    hide Orphan;
    JournalOnward(s, t);
  }

  lemma PublisherOnward(s: State, step: Step, t: State)
    requires ByPublisher(step) && t == Apply(s, step)
    ensures SameHistory(s, t)
  {
    hide SameHistory, LockShared, Resolve, WriteIntent, WriteWorkspace, WriteCommitted, AdoptRecorded, Unlink, Release;
    match step
    case Lock(p) => LockSharedOnward(s, p, t);
    case ResolveDrafts(p, r, u, bs) => ResolveOnward(s, p, r, u, bs, t);
    case RecordIntent(p) => WriteIntentOnward(s, p, t);
    case Publish(p) => WriteWorkspaceOnward(s, p, t);
    case RecordCommit(p) => WriteCommittedOnward(s, p, t);
    case AdoptDrafts(p) => AdoptRecordedOnward(s, p, t);
    case RemoveRecord(p) => UnlinkOnward(s, p, t);
    case PublisherEnds(p) => ReleaseOnward(s, p, t);
  }

  lemma SweeperOnward(s: State, step: Step, t: State)
    requires BySweeper(step) && t == Apply(s, step)
    ensures Onward(s, t) && (step != SweeperActs ==> t.cleaned == s.cleaned)
  {
    hide Orphan, SweepDecide, SweepAct;
    match step
    case SweeperDecides(found) => SweepDecideOnward(s, found, t);
    case SweeperActs => SweepActOnward(s, t);
    case _ => JournalOnward(s, t);
  }

  lemma UntouchedOnward(s: State, t: State)
    requires t.files == s.files && t.publishers == s.publishers && t.nextFile == s.nextFile
    requires t.recorded == s.recorded && t.journal == s.journal && t.cleaned == s.cleaned
    ensures SameHistory(s, t)
  {
    hide Orphan, OrphansOnward;
    JournalOnward(s, t);
  }

  lemma ProposalOnward(s: State, i: nat, p: Proposal, t: State)
    requires t == WriteProposal(s, i, p)
    ensures SameHistory(s, t)
  {
    if s.sweeper.None? {
      assert t == s.(proposals := s.proposals[i := p]);
    }
    UntouchedOnward(s, t);
  }

  lemma LeaseOnward(s: State, until: int, t: State)
    requires t == RetainLease(s, until)
    ensures SameHistory(s, t)
  {
    if s.sweeper.None? && s.lease < until {
      assert t == s.(lease := until);
      UntouchedOnward(s, t);
    } else {
      UntouchedOnward(s, s);
    }
  }

  lemma OutsideOnward(s: State, step: Step, t: State)
    requires step.SaveProposal? || step.Lease? || step.Preview? || step.Tick? || step.Gate? || step.Depend?
    requires t == Apply(s, step)
    ensures SameHistory(s, t)
  {
    hide SameHistory, WriteProposal, RetainLease;
    match step
    case SaveProposal(i, p) => ProposalOnward(s, i, p, t);
    case Lease(until) => LeaseOnward(s, until, t);
    case Preview(_) => UntouchedOnward(s, t);
    case Tick(_) => UntouchedOnward(s, t);
    case Gate(_) => UntouchedOnward(s, t);
    case Depend(_) => UntouchedOnward(s, t);
  }

  lemma RegistryOnward(s: State, step: Step, t: State)
    requires forall a :: a in s.journal ==> a < s.nextAsset
    requires step.Create? || step.Bump? || step.Archive? || step.Succeed? || step.DropManually?
    requires t == Apply(s, step)
    ensures SameHistory(s, t)
  {
    hide OrphansOnward, SettledOnward;
    RowsOnward(s, step, t);
    JournalOnward(s, t);
  }

  lemma RowsOnward(s: State, step: Step, t: State)
    requires forall a :: a in s.journal ==> a < s.nextAsset
    requires step.Create? || step.Bump? || step.Archive? || step.Succeed? || step.DropManually?
    requires t == Apply(s, step)
    ensures SettledOnward(s.journal, t.journal)
    ensures t.files == s.files && t.publishers == s.publishers && t.nextFile == s.nextFile
    ensures t.recorded == s.recorded && t.cleaned == s.cleaned
  {
  }

  lemma JournalStepOnward(s: State, step: Step, t: State)
    requires step.BindDrafts? || step.AdoptForProposal?
    requires t == Apply(s, step)
    ensures SameHistory(s, t)
  {
    hide AdoptAll, BindAll, SameHistory, OnlyRowsMoved;
    OnlyRowsMovedReflexive(s);
    match step
    case BindDrafts(bs, i, actor) =>
      if BindAll(s, bs, i, actor).Some? { BindAllMoves(s, bs, i, actor, t); }
      RowsMovedOnward(s, t);
    case AdoptForProposal(bs, i) =>
      if AdoptAll(s, bs, Some(i)).Some? { AdoptAllMoves(s, bs, Some(i), t); }
      RowsMovedOnward(s, t);
  }

  lemma OtherOnward(s: State, step: Step, t: State)
    requires forall a :: a in s.journal ==> a < s.nextAsset
    requires !ByPublisher(step) && !BySweeper(step) && t == Apply(s, step)
    ensures SameHistory(s, t)
  {
    hide Apply, SameHistory;
    if step.BindDrafts? || step.AdoptForProposal? {
      JournalStepOnward(s, step, t);
    } else if step.SaveProposal? || step.Lease? || step.Preview? || step.Tick? || step.Gate? || step.Depend? {
      OutsideOnward(s, step, t);
    } else {
      RegistryOnward(s, step, t);
    }
  }

  /** No step forgets, and only the sweeper's own drop cleans. */
  lemma StepOnward(s: State, step: Step, t: State)
    requires Inv(s) && t == Apply(s, step)
    ensures Onward(s, t) && (step != SweeperActs ==> t.cleaned == s.cleaned)
  {
    hide Apply, Onward;
    if ByPublisher(step) {
      PublisherOnward(s, step, t);
    } else if BySweeper(step) {
      SweeperOnward(s, step, t);
    } else {
      OtherOnward(s, step, t);
    }
  }

  /** Once the record of a publication names a draft, automatic cleanup never drops it: not in any
      run, wherever publishers and the sweeper crash, whatever the workspace names later. */
  lemma {:induction false} RecordedNeverCleaned(s: State, b: Binding, steps: seq<Step>)
    requires Inv(s) && b in s.recorded
    ensures b.asset !in Run(s, steps).cleaned
    decreases |steps|
  {
    hide Apply;
    if steps != [] {
      StepOnward(s, steps[0], Apply(s, steps[0]));
      StepKeeps(s, steps[0], Apply(s, steps[0]));
      RecordedNeverCleaned(Apply(s, steps[0]), b, steps[1..]);
    }
  }

  /** A publisher that resolved a draft and wrote its intent has put it out of reach of cleanup,
      whether or not the publication ever goes further. */
  lemma PreparedNeverCleaned(s: State, p: nat, b: Binding, steps: seq<Step>)
    requires Reachable(s) && p in s.publishers && s.publishers[p].Resolved? && b in s.publishers[p].bindings
    ensures b.asset !in Run(Apply(s, RecordIntent(p)), steps).cleaned
  {
    ReachableInv(s);
    StepKeeps(s, RecordIntent(p), Apply(s, RecordIntent(p)));
    RecordedNeverCleaned(Apply(s, RecordIntent(p)), b, steps);
  }

  /** A draft that was adopted, or dropped by hand, is never cleaned afterwards. */
  lemma {:induction false} SettledNeverCleaned(s: State, b: Binding, steps: seq<Step>)
    requires Inv(s) && Settled(s.journal, b) && b.asset !in s.cleaned
    ensures b.asset !in Run(s, steps).cleaned
    decreases |steps|
  {
    hide Apply;
    if steps != [] {
      var t := Apply(s, steps[0]);
      SettledStays(s, b, steps[0], t);
      StepKeeps(s, steps[0], t);
      SettledNeverCleaned(t, b, steps[1..]);
    }
  }

  lemma SettledStays(s: State, b: Binding, step: Step, t: State)
    requires Inv(s) && Settled(s.journal, b) && b.asset !in s.cleaned && t == Apply(s, step)
    ensures Settled(t.journal, b) && b.asset !in t.cleaned
  {
    hide Apply, Inv;
    StepOnward(s, step, t);
    if step == SweeperActs {
      ActIsSweepAct(s, step, t);
      if b.asset in t.cleaned {
        CleansOnlyActive(s, b.asset, t);
      }
    }
  }

  lemma CleansOnlyActive(s: State, a: nat, t: State)
    requires t == SweepAct(s) && a !in s.cleaned && a in t.cleaned
    ensures a in s.journal && s.journal[a].state == Active
  {
  }

  /** The relation dropped is the examined draft, asset and generation; its row was active; and
      everything checked before the drop held at the drop. */
  ghost predicate RightfulDrop(s: State, t: State, a: nat, b: Binding, owner: Option<nat>) {
    && b.asset == a && b.name in s.registry && s.registry[b.name] == Relation(a, b.generation)
    && RowIs(s.journal, b) && s.journal[a].state == Active
    && t.registry == s.registry - {b.name} && t.journal == s.journal[a := s.journal[a].(state := Dropped)]
    && s.publishers == map[] && ClearedToDrop(s, b, owner) && !s.paused && b.name !in s.dependents
    && (forall r :: r in s.recorded ==> r.asset != a)
  }

  /** Every automatic drop in every run hits the relation that was examined, under a name the
      workspace does not hold, no other open proposal needs and no relation is built on, with no reset
      on; no publication ever recorded it; and it had expired or its proposal was turned down. */
  lemma CleanupHitsExaminedRelation(s: State, step: Step, t: State, a: nat)
    requires Reachable(s) && t == Apply(s, step) && a !in s.cleaned && a in t.cleaned
    ensures s.sweeper.Some? && s.sweeper.value.Dropping?
    ensures RightfulDrop(s, t, a, s.sweeper.value.binding, s.sweeper.value.owner)
  {
    hide Apply, Inv, SweepAct, Onward, RightfulDrop;
    ReachableInv(s);
    StepOnward(s, step, t);
    ActIsSweepAct(s, step, t);
    OnlyDroppingCleans(s, t, a);
    DropIsRightful(s, t, a);
  }

  lemma OnlyDroppingCleans(s: State, t: State, a: nat)
    requires t == SweepAct(s) && a !in s.cleaned && a in t.cleaned
    ensures s.sweeper.Some? && s.sweeper.value.Dropping? && Cleanup(s, s.sweeper.value.binding).Some?
    ensures s.journal[s.sweeper.value.binding.asset].state == Active
    ensures t == Cleanup(s, s.sweeper.value.binding).value.(sweeper := None) && a == s.sweeper.value.binding.asset
  {
  }

  lemma DropIsRightful(s: State, t: State, a: nat)
    requires Inv(s) && s.sweeper.Some? && s.sweeper.value.Dropping? && a == s.sweeper.value.binding.asset
    requires Cleanup(s, s.sweeper.value.binding).Some?
    requires s.journal[a].state == Active
    requires t == Cleanup(s, s.sweeper.value.binding).value.(sweeper := None)
    ensures RightfulDrop(s, t, a, s.sweeper.value.binding, s.sweeper.value.owner)
  {
    hide JournalInv, FilesInv, PublishersInv, RecordedInv;
    ClearedNotRecorded(s, s.sweeper.value.binding);
  }

  lemma ActIsSweepAct(s: State, step: Step, t: State)
    requires step == SweeperActs && t == Apply(s, step)
    ensures t == SweepAct(s)
  {
  }

  // ---------------------------------------------------------------- recovery

  /** Every record that names the draft got as far as committed, and there is one. */
  ghost predicate OnlyCommitted(files: map<nat, Record>, b: Binding) {
    Filed(files, b) && forall f :: f in files && b in files[f].bindings ==> files[f].state == Committed
  }

  function SweepOf(asset: nat, found: Option<RecordState>): seq<Step> {
    [SweeperLists(asset), SweeperLocks(asset), SweeperDecides(found), SweeperActs]
  }

  lemma RunSweep(s: State, asset: nat, found: Option<RecordState>)
    ensures Run(s, SweepOf(asset, found)) == SweepAct(SweepDecide(SweepLock(ListDraft(s, asset), asset), found))
  {
    hide ListDraft, SweepLock, SweepDecide, SweepAct;
    var steps := SweepOf(asset, found);
    var s1 := ListDraft(s, asset);
    var s2 := SweepLock(s1, asset);
    var s3 := SweepDecide(s2, found);
    assert steps[1..] == [SweeperLocks(asset), SweeperDecides(found), SweeperActs];
    assert Run(s, steps) == Run(s1, steps[1..]);
    assert steps[1..][1..] == [SweeperDecides(found), SweeperActs];
    assert Run(s1, steps[1..]) == Run(s2, [SweeperDecides(found), SweeperActs]);
    assert [SweeperDecides(found), SweeperActs][1..] == [SweeperActs];
    assert Run(s2, [SweeperDecides(found), SweeperActs]) == Run(s3, [SweeperActs]);
    assert [SweeperActs][1..] == [];
  }

  predicate TurnedDown(p: Proposal) {
    p.status == Declined || p.status == Cancelled
  }

  /** At most one open proposal claims the draft, on its creator's authority or the administrator's. */
  predicate Unclaimed(s: State, b: Binding, d: Draft) {
    || Claimants(s, b) == {}
    || exists i :: Claimants(s, b) == {i} && i in s.proposals
                   && (s.proposals[i].actor == d.createdBy || s.proposals[i].actor == ADMIN)
  }

  /** The owner that the journal records has been turned down, or has left the draft to expire. */
  predicate LeftBy(s: State, b: Binding, d: Draft, i: nat) {
    && i in s.proposals && b in s.proposals[i].bindings
    && s.proposals[i].status != Applied && s.proposals[i].status != Applying && s.proposals[i].status != Conflicted
    && (TurnedDown(s.proposals[i]) || d.expiresAt <= s.clock)
  }

  /** Nothing that reconciliation looks at speaks for the draft. */
  predicate Unneeded(s: State, b: Binding, d: Draft) {
    && b.name !in s.live && !s.unresolved && !Filed(s.files, b)
    && s.lease <= s.clock && !s.previewQueued && !NeededElsewhere(s, b.name, d.proposal)
    && match d.proposal
       case None => Unclaimed(s, b, d) && d.expiresAt <= s.clock
       case Some(i) => LeftBy(s, b, d, i)
  }

  /** The workspace names the draft, or the record that was met is committed, or no record names
      it and its own proposal was applied. */
  predicate Adoptable(s: State, b: Binding, d: Draft, found: Option<RecordState>) {
    || b.name in s.live
    || (!s.unresolved && found == Some(Committed))
    || (!s.unresolved && found.None? && d.proposal.Some? && d.proposal.value in s.proposals
        && b in s.proposals[d.proposal.value].bindings && s.proposals[d.proposal.value].status == Applied)
  }

  /** The state is as it was but for bindings to proposals. */
  ghost predicate OnlyBound(s: State, t: State) {
    && t == s.(journal := t.journal) && t.journal.Keys == s.journal.Keys
    && forall a :: a in s.journal ==> t.journal[a].state == s.journal[a].state
  }

  lemma OneBound(s: State, b: Binding, i: nat, actor: nat, t: State)
    requires BindAll(s, [b], i, actor) == Some(t)
    ensures OnlyBound(s, t)
  {
    assert [b][1..] == [];
    assert BindEach(s.registry, s.clock, s.journal, [b], i, actor) == BindRow(s.registry, s.clock, s.journal, b, i, actor);
  }

  /** How an owner is settled on: the recorded one, or a single claim, bound while unexpired. */
  lemma OwnerCases(s: State, b: Binding, d: Draft)
    ensures d.proposal.Some? ==>
      Owner(s, b, d) == if d.proposal.value in s.proposals then Some((s, d.proposal)) else None
    ensures d.proposal.None? && d.expiresAt <= s.clock ==>
      Owner(s, b, d) == if Unclaimed(s, b, d) then Some((s, None)) else None
    ensures d.proposal.None? && d.expiresAt > s.clock && Owner(s, b, d).Some? ==>
      var (u, owner) := Owner(s, b, d).value;
      && OnlyBound(s, u)
      && (owner.Some? ==> owner.value in u.proposals && u.proposals[owner.value].status == Open)
  {
    if d.proposal.None? {
      var claims := Claimants(s, b);
      if i :| i in claims && claims == {i} {
        assert claims != {};
        forall j | j in claims && claims == {j}
          ensures j == i
        {
        }
        if d.expiresAt > s.clock && BindAll(s, [b], i, s.proposals[i].actor).Some? {
          OneBound(s, b, i, s.proposals[i].actor, BindAll(s, [b], i, s.proposals[i].actor).value);
        }
      } else {
        assert Unclaimed(s, b, d) <==> claims == {};
      }
    }
  }

  ghost predicate Examined(s: State, b: Binding, d: Draft, found: Option<RecordState>) {
    s.sweeper == Some(Examining(b, d)) && PublicationState(s.files, b, found)
  }

  /** A pass decides to drop exactly what is unneeded and to adopt exactly what is adoptable;
      otherwise it lets go, with at most a binding recovered. */
  lemma DecidesIff(s: State, b: Binding, d: Draft, found: Option<RecordState>)
    requires Examined(s, b, d, found)
    ensures var t := SweepDecide(s, found);
      if Adoptable(s, b, d, found) then
        t == s.(sweeper := Some(Adopting(b, if b.name in s.live || found.Some? then None else d.proposal)))
      else if Unneeded(s, b, d) then t == s.(sweeper := Some(Dropping(b, d.proposal)))
      else OnlyBound(s.(sweeper := None), t)
  {
    hide Owner, NeededElsewhere, Unclaimed, Filed, OnlyBound;
    OwnerCases(s, b, d);
    BoundItself(s.(sweeper := None));
    FoundNone(s, b, found);
    if b.name !in s.live && !s.unresolved && found.None? && Owner(s, b, d).Some? {
      var (u, owner) := Owner(s, b, d).value;
      BoundAfter(s, u);
      if d.proposal.None? && d.expiresAt > s.clock {
        Unexpired(u, b, d, owner);
      }
    }
  }

  lemma FoundNone(s: State, b: Binding, found: Option<RecordState>)
    requires PublicationState(s.files, b, found)
    ensures found.None? <==> !Filed(s.files, b)
  {
  }

  lemma BoundItself(s: State)
    ensures OnlyBound(s, s)
  {
  }

  lemma BoundAfter(s: State, u: State)
    ensures OnlyBound(s, u) ==> OnlyBound(s.(sweeper := None), u.(sweeper := None))
  {
  }

  /** An unexpired draft without a decided owner is kept. */
  lemma Unexpired(u: State, b: Binding, d: Draft, owner: Option<nat>)
    requires d.expiresAt > u.clock
    requires owner.Some? ==> owner.value in u.proposals && u.proposals[owner.value].status == Open
    ensures Judge(u, b, d, owner) == Keep
  {
  }

  lemma OneAdopted(s: State, b: Binding, p: Option<nat>)
    ensures AdoptAll(s, [b], p) ==
      if s.paused || AdoptRow(s.registry, s.journal, b, p).None? then None
      else Some(s.(journal := AdoptRow(s.registry, s.journal, b, p).value))
  {
    hide AdoptRow;
    assert [b][1..] == [];
    assert AdoptEach(s.registry, s.journal, [b], p) == AdoptRow(s.registry, s.journal, b, p);
  }

  lemma AdoptingActs(s: State, b: Binding, p: Option<nat>, t: State)
    requires s.sweeper == Some(Adopting(b, p)) && t == SweepAct(s)
    requires RowIs(s.journal, b) && s.journal[b.asset].state == Active && (p.Some? ==> s.journal[b.asset].proposal == p)
    ensures t.registry == s.registry && t.cleaned == s.cleaned
    ensures t.journal == if !s.paused && RelationIs(s, b)
                         then s.journal[b.asset := s.journal[b.asset].(state := Adopted)] else s.journal
  {
    hide AdoptAll;
    OneAdopted(s, b, p);
  }

  lemma DroppingActs(s: State, b: Binding, owner: Option<nat>, t: State)
    requires s.sweeper == Some(Dropping(b, owner)) && t == SweepAct(s)
    requires RowIs(s.journal, b) && s.journal[b.asset].state == Active
    ensures if !s.paused && RelationIs(s, b) && b.name !in s.dependents then
        && t.registry == s.registry - {b.name} && t.cleaned == s.cleaned + {b.asset}
        && t.journal == s.journal[b.asset := s.journal[b.asset].(state := Dropped)]
      else t.registry == s.registry && t.cleaned == s.cleaned && t.journal == s.journal
  {
  }

  /** What one pass over draft b leaves behind. */
  ghost predicate Passed(s: State, b: Binding, found: Option<RecordState>, t: State)
    requires b.asset in s.journal
  {
    var d := s.journal[b.asset];
    if Adoptable(s, b, d, found) then
      && t.registry == s.registry && t.cleaned == s.cleaned
      && t.journal == (if !s.paused && RelationIs(s, b) then s.journal[b.asset := d.(state := Adopted)] else s.journal)
    else if Unneeded(s, b, d) && !s.paused && RelationIs(s, b) && b.name !in s.dependents then
      && t.registry == s.registry - {b.name} && t.cleaned == s.cleaned + {b.asset}
      && t.journal == s.journal[b.asset := d.(state := Dropped)]
    else
      && t.registry == s.registry && t.cleaned == s.cleaned && t.journal.Keys == s.journal.Keys
      && forall a :: a in s.journal ==> t.journal[a].state == s.journal[a].state
  }

  lemma AdoptingPasses(s: State, b: Binding, found: Option<RecordState>, p: Option<nat>, u: State)
    requires RowIs(s.journal, b) && s.journal[b.asset].state == Active
    requires Adoptable(s, b, s.journal[b.asset], found) && u == s.(sweeper := Some(Adopting(b, p)))
    requires p.Some? ==> s.journal[b.asset].proposal == p
    ensures Passed(s, b, found, SweepAct(u))
  {
    hide SweepAct, Unneeded, Adoptable, RelationIs;
    SameRelation(s, u, b);
    AdoptingActs(u, b, p, SweepAct(u));
  }

  lemma DroppingPasses(s: State, b: Binding, found: Option<RecordState>, owner: Option<nat>, u: State)
    requires RowIs(s.journal, b) && s.journal[b.asset].state == Active
    requires !Adoptable(s, b, s.journal[b.asset], found) && Unneeded(s, b, s.journal[b.asset])
    requires u == s.(sweeper := Some(Dropping(b, owner)))
    ensures Passed(s, b, found, SweepAct(u))
  {
    hide SweepAct, Unneeded, Adoptable, RelationIs;
    SameRelation(s, u, b);
    DroppingActs(u, b, owner, SweepAct(u));
  }

  /** Acting on the decision, from the state in which draft b was examined. */
  lemma DecisionPasses(s: State, b: Binding, found: Option<RecordState>)
    requires b.asset in s.journal && Examined(s, b, s.journal[b.asset], found)
    requires RowIs(s.journal, b) && s.journal[b.asset].state == Active
    ensures Passed(s, b, found, SweepAct(SweepDecide(s, found)))
  {
    hide SweepDecide, SweepAct, Unneeded, Adoptable, PublicationState, OnlyBound, Passed;
    var d := s.journal[b.asset];
    DecidesIff(s, b, d, found);
    var u := SweepDecide(s, found);
    if Adoptable(s, b, d, found) {
      AdoptingPasses(s, b, found, if b.name in s.live || found.Some? then None else d.proposal, u);
    } else if Unneeded(s, b, d) {
      DroppingPasses(s, b, found, d.proposal, u);
    } else {
      LetGo(s, u);
      KeptPasses(s, b, found, u);
    }
  }

  lemma KeptPasses(s: State, b: Binding, found: Option<RecordState>, t: State)
    requires b.asset in s.journal
    requires !Adoptable(s, b, s.journal[b.asset], found) && !Unneeded(s, b, s.journal[b.asset])
    requires t.registry == s.registry && t.cleaned == s.cleaned && t.journal.Keys == s.journal.Keys
    requires forall a :: a in s.journal ==> t.journal[a].state == s.journal[a].state
    ensures Passed(s, b, found, t)
  {
    hide Unneeded, Adoptable;
  }

  lemma SameRelation(s: State, t: State, b: Binding)
    requires t.registry == s.registry
    ensures RelationIs(t, b) <==> RelationIs(s, b)
  {
  }

  lemma PassEffect(s: State, b: Binding, found: Option<RecordState>, t: State)
    requires s.publishers == map[] && s.sweeper.None?
    requires RowIs(s.journal, b) && s.journal[b.asset].state == Active && PublicationState(s.files, b, found)
    requires t == Run(s, SweepOf(b.asset, found))
    ensures Passed(s, b, found, t)
  {
    hide SweepDecide, SweepAct, Unneeded, Adoptable, PublicationState;
    var d := s.journal[b.asset];
    RunSweep(s, b.asset, found);
    var u := SweepLock(ListDraft(s, b.asset), b.asset);
    assert u == s.(listed := s.listed[b.asset := d], sweeper := Some(Examining(b, d)));
    SameNeeds(s, u, b, d, found);
    SameRelation(s, u, b);
    DecisionPasses(u, b, found);
  }

  lemma LetGo(s: State, t: State)
    requires OnlyBound(s.(sweeper := None), t)
    ensures SweepAct(t) == t && t.registry == s.registry && t.cleaned == s.cleaned && t.journal.Keys == s.journal.Keys
    ensures forall a :: a in s.journal ==> t.journal[a].state == s.journal[a].state
  {
  }

  /** Listing the draft and taking the lock change nothing that the decision reads. */
  lemma SameNeeds(s: State, t: State, b: Binding, d: Draft, found: Option<RecordState>)
    requires t == s.(listed := t.listed, sweeper := t.sweeper)
    ensures Unneeded(t, b, d) <==> Unneeded(s, b, d)
    ensures Adoptable(t, b, d, found) <==> Adoptable(s, b, d, found)
  {
    assert Claimants(t, b) == Claimants(s, b);
  }

  /** A publication that crashed after its workspace write is finished by the sweep: with no lock
      held, one pass over an active draft adopts it exactly when the workspace names it, or the
      record that the scan meets is committed, or its own proposal was applied, and when besides
      no reset is on and the relation still is the draft. */
  lemma SweepAdoptsIff(s: State, b: Binding, found: Option<RecordState>)
    requires s.publishers == map[] && s.sweeper.None?
    requires RowIs(s.journal, b) && s.journal[b.asset].state == Active && PublicationState(s.files, b, found)
    ensures var t := Run(s, SweepOf(b.asset, found));
      && (b.asset in t.journal && t.journal[b.asset].state == Adopted <==>
            !s.paused && RelationIs(s, b) && Adoptable(s, b, s.journal[b.asset], found))
      && (Adoptable(s, b, s.journal[b.asset], found) ==> t.registry == s.registry && t.cleaned == s.cleaned)
  {
    hide Adoptable, Unneeded, RelationIs;
    PassEffect(s, b, found, Run(s, SweepOf(b.asset, found)));
  }

  /** The other side of safety: with no lock held, one pass over an active draft drops it exactly
      when nothing speaks for it (no workspace, record, proposal, unexpired lease or queued
      preview, its own owner turned down or its time over), no reset is on, the relation still is
      the draft and none is built on it. */
  lemma SweepDropsIff(s: State, b: Binding, found: Option<RecordState>)
    requires s.publishers == map[] && s.sweeper.None? && b.asset !in s.cleaned
    requires RowIs(s.journal, b) && s.journal[b.asset].state == Active && PublicationState(s.files, b, found)
    ensures var t := Run(s, SweepOf(b.asset, found));
      && (b.asset in t.cleaned <==>
            && Unneeded(s, b, s.journal[b.asset])
            && !s.paused && RelationIs(s, b) && b.name !in s.dependents)
      && (if b.asset in t.cleaned then
            && t.registry == s.registry - {b.name} && t.cleaned == s.cleaned + {b.asset}
            && t.journal == s.journal[b.asset := s.journal[b.asset].(state := Dropped)]
          else t.registry == s.registry && t.cleaned == s.cleaned)
  {
    hide RelationIs, NeededElsewhere, Unclaimed;
    PassEffect(s, b, found, Run(s, SweepOf(b.asset, found)));
    FoundNone(s, b, found);
  }

  // ---------------------------------------------------------------- orphans

  /** Nothing ever removes the record of a publisher that died holding it: a draft it names stays
      out of reach of cleanup for the rest of every run, adopted or not. */
  lemma {:induction false} OrphanRecordStays(s: State, f: nat, steps: seq<Step>)
    requires Inv(s) && Orphan(s.files, s.publishers, s.nextFile, f)
    ensures f in Run(s, steps).files && Run(s, steps).files[f] == s.files[f]
    decreases |steps|
  {
    hide Apply, Inv;
    if steps != [] {
      StepOnward(s, steps[0], Apply(s, steps[0]));
      StepKeeps(s, steps[0], Apply(s, steps[0]));
      OrphanRecordStays(Apply(s, steps[0]), f, steps[1..]);
    }
  }
}
