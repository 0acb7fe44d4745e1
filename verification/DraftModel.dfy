/** Disposable drafts (config-ui/derived_drafts.py and the draft journal of
    config-ui/derived_layers.py): publishers under a shared lock, one sweeper under the
    exclusive lock, a crash possible after every step, and the database changing underneath. */
module DraftModel {
  import opened Wrappers

  type Name = nat

  datatype Binding = Binding(name: Name, asset: nat, generation: nat)

  datatype DraftState = Active | Adopted | Dropped
  datatype Draft = Draft(name: Name, generation: nat, state: DraftState,
                         createdBy: nat, proposal: Option<nat>, expiresAt: int)

  /** A row of the registry: the identity a relation name has now. */
  datatype Relation = Relation(asset: nat, generation: nat)

  datatype RecordState = Intent | Committed
  datatype Record = Record(state: RecordState, bindings: seq<Binding>)

  datatype ProposalStatus = Open | Applying | Applied | Declined | Cancelled | Conflicted | BindingFailed
  datatype Proposal = Proposal(status: ProposalStatus, actor: nat, references: set<Name>, unresolved: bool,
                               bindings: seq<Binding>)

  /** How far a publisher holding the shared lock has come; the file is absent when the
      workspace names no active draft. */
  datatype Publisher =
    | Locked
    | Resolved(references: set<Name>, unresolved: bool, bindings: seq<Binding>)
    | Recorded(references: set<Name>, unresolved: bool, file: Option<nat>)
    | Written(file: Option<nat>)
    | CommittedTo(record: nat)
    | AdoptedFrom(record: nat)

  /** How far the sweeper has come with one draft; it holds the exclusive lock throughout. */
  datatype Sweep =
    | Examining(binding: Binding, draft: Draft)
    | Adopting(binding: Binding, proposal: Option<nat>)
    | Dropping(binding: Binding, owner: Option<nat>)

  /** `paused` is the maintenance gate of a data reset and `dependents` the names that some other
      relation is built on; `listed` holds the journal rows as the sweeper read them, `recorded`
      remembers every binding ever written to a publication record, and `cleaned` every asset that
      automatic cleanup dropped. */
  datatype State = State(
    journal: map<nat, Draft>, listed: map<nat, Draft>, registry: map<Name, Relation>,
    paused: bool, dependents: set<Name>, files: map<nat, Record>, live: set<Name>, unresolved: bool,
    publishers: map<nat, Publisher>, sweeper: Option<Sweep>,
    proposals: map<nat, Proposal>, lease: int, previewQueued: bool, clock: int,
    nextFile: nat, nextAsset: nat, recorded: set<Binding>, cleaned: set<nat>)

  const Init := State(map[], map[], map[], false, {}, map[], {}, false, map[], None, map[], 0, false, 0, 0, 0, {}, {})

  /** A publication that names more active drafts than this is refused. */
  const MAX_BINDINGS: nat := 64

  /** One database call takes no more identities than this. */
  const MAX_IDENTITIES: nat := 100

  /** The administrator, who may bind anyone's draft. */
  const ADMIN: nat := 0

  // ---------------------------------------------------------------- the journal

  /** The journal row is exactly this draft: same name, same generation. */
  predicate RowIs(journal: map<nat, Draft>, b: Binding) {
    b.asset in journal && journal[b.asset].name == b.name && journal[b.asset].generation == b.generation
  }

  /** The registered relation is exactly this draft. */
  predicate RelationIs(s: State, b: Binding) {
    Registered(s.registry, b)
  }

  predicate Registered(registry: map<Name, Relation>, b: Binding) {
    b.name in registry && registry[b.name] == Relation(b.asset, b.generation)
  }

  function BindingOf(s: State, asset: nat): Binding
    requires asset in s.journal
  {
    Binding(s.journal[asset].name, asset, s.journal[asset].generation)
  }

  predicate NamedActive(s: State, references: set<Name>, asset: nat) {
    asset in s.journal && s.journal[asset].state == Active && s.journal[asset].name in references
  }

  predicate DistinctNames(bindings: seq<Binding>) {
    forall j, k :: 0 <= j < k < |bindings| ==> bindings[j].name != bindings[k].name
  }

  /** The identities that one database call takes: at least one, not too many, no name twice. */
  predicate Identities(bindings: seq<Binding>) {
    1 <= |bindings| <= MAX_IDENTITIES && DistinctNames(bindings)
  }

  /** drafts_for_names succeeds with these bindings: every active draft of those names, in any
      order, each of them still the registered relation. */
  ghost predicate Resolves(s: State, references: set<Name>, bindings: seq<Binding>) {
    && (forall a :: NamedActive(s, references, a) ==> RelationIs(s, BindingOf(s, a)))
    && (forall b :: b in bindings <==> NamedActive(s, references, b.asset) && b == BindingOf(s, b.asset))
    && |bindings| <= MAX_BINDINGS && DistinctNames(bindings)
  }

  /** A transaction that raises leaves the state as it was. */
  function Otherwise(t: Option<State>, s: State): State {
    if t.Some? then t.value else s
  }

  type Journal = map<nat, Draft>

  /** adopt_drafts for one identity; None where it raises. */
  function AdoptRow(registry: map<Name, Relation>, journal: Journal, b: Binding, proposal: Option<nat>): Option<Journal> {
    if !RowIs(journal, b) || (proposal.Some? && journal[b.asset].proposal != proposal) then None
    else if journal[b.asset].state == Adopted then Some(journal)
    else if journal[b.asset].state != Active || !Registered(registry, b) then None
    else Some(journal[b.asset := journal[b.asset].(state := Adopted)])
  }

  function AdoptEach(registry: map<Name, Relation>, journal: Journal, bindings: seq<Binding>,
                     proposal: Option<nat>): Option<Journal>
    decreases |bindings|
  {
    if bindings == [] then Some(journal)
    else
      var next := AdoptRow(registry, journal, bindings[0], proposal);
      if next.None? then None else AdoptEach(registry, next.value, bindings[1..], proposal)
  }

  /** adopt_drafts is one transaction, refused while a reset is on: all of the identities or none. */
  function AdoptAll(s: State, bindings: seq<Binding>, proposal: Option<nat>): Option<State> {
    var next := AdoptEach(s.registry, s.journal, bindings, proposal);
    if !Identities(bindings) || s.paused || next.None? then None else Some(s.(journal := next.value))
  }

  /** bind_drafts for one identity; None where it raises. */
  function BindRow(registry: map<Name, Relation>, clock: int, journal: Journal, b: Binding, i: nat,
                   actor: nat): Option<Journal> {
    if !RowIs(journal, b) || !Registered(registry, b) then None
    else
      var row := journal[b.asset];
      if row.state != Active || (row.createdBy != actor && actor != ADMIN)
         || (row.proposal.Some? && row.proposal != Some(i)) || row.expiresAt <= clock then None
      else Some(journal[b.asset := row.(proposal := Some(i))])
  }

  function BindEach(registry: map<Name, Relation>, clock: int, journal: Journal, bindings: seq<Binding>, i: nat,
                    actor: nat): Option<Journal>
    decreases |bindings|
  {
    if bindings == [] then Some(journal)
    else
      var next := BindRow(registry, clock, journal, bindings[0], i, actor);
      if next.None? then None else BindEach(registry, clock, next.value, bindings[1..], i, actor)
  }

  /** bind_drafts, again one transaction that a reset refuses. */
  function BindAll(s: State, bindings: seq<Binding>, i: nat, actor: nat): Option<State> {
    var next := BindEach(s.registry, s.clock, s.journal, bindings, i, actor);
    if !Identities(bindings) || s.paused || next.None? then None else Some(s.(journal := next.value))
  }

  /** The shared tail of every drop: the relation goes, and its journal row is closed. */
  function DropRelation(s: State, name: Name): State
    requires name in s.registry
  {
    var asset := s.registry[name].asset;
    s.(registry := s.registry - {name},
       journal := if asset in s.journal && s.journal[asset].state != Dropped
                  then s.journal[asset := s.journal[asset].(state := Dropped)] else s.journal)
  }

  /** cleanup_draft; None where it raises. A draft that is already dropped is left as it is. */
  function Cleanup(s: State, b: Binding): Option<State> {
    if s.paused || !RowIs(s.journal, b) then None
    else if s.journal[b.asset].state == Dropped then Some(s)
    else if s.journal[b.asset].state != Active || !RelationIs(s, b) || b.name in s.dependents then None
    else Some(DropRelation(s, b.name).(cleaned := s.cleaned + {b.asset}))
  }

  // ---------------------------------------------------------------- publication

  function Release(s: State, p: nat): State {
    s.(publishers := s.publishers - {p})
  }

  function LockShared(s: State, p: nat): State {
    if s.sweeper.Some? || p in s.publishers then s else s.(publishers := s.publishers[p := Locked])
  }

  ghost function Resolve(s: State, p: nat, references: set<Name>, unresolved: bool, bindings: seq<Binding>): State {
    if p in s.publishers && s.publishers[p] == Locked && Resolves(s, references, bindings)
    then s.(publishers := s.publishers[p := Resolved(references, unresolved, bindings)])
    else s
  }

  /** Write the intent file, unless there is nothing to record. */
  function WriteIntent(s: State, p: nat): State {
    if p in s.publishers && s.publishers[p].Resolved? then
      var w := s.publishers[p];
      if w.bindings == [] then s.(publishers := s.publishers[p := Recorded(w.references, w.unresolved, None)])
      else
        s.(files := s.files[s.nextFile := Record(Intent, w.bindings)],
           publishers := s.publishers[p := Recorded(w.references, w.unresolved, Some(s.nextFile))],
           nextFile := s.nextFile + 1,
           recorded := s.recorded + (set b | b in w.bindings))
    else s
  }

  /** Replace the workspace; with no file to commit the publisher is done. */
  function WriteWorkspace(s: State, p: nat): State {
    if p in s.publishers && s.publishers[p].Recorded? then
      var w := s.publishers[p];
      s.(live := w.references, unresolved := w.unresolved, publishers := s.publishers[p := Written(w.file)])
    else s
  }

  function WriteCommitted(s: State, p: nat): State {
    if p in s.publishers && s.publishers[p].Written? && s.publishers[p].file.Some?
       && s.publishers[p].file.value in s.files then
      var f := s.publishers[p].file.value;
      s.(files := s.files[f := s.files[f].(state := Committed)], publishers := s.publishers[p := CommittedTo(f)])
    else s
  }

  /** Adoption; when it raises, the publisher lets go and the record stays. */
  function AdoptRecorded(s: State, p: nat): State {
    if p in s.publishers && s.publishers[p].CommittedTo? && s.publishers[p].record in s.files then
      var f := s.publishers[p].record;
      var t := AdoptAll(s, s.files[f].bindings, None);
      if t.Some? then t.value.(publishers := s.publishers[p := AdoptedFrom(f)]) else Release(s, p)
    else s
  }

  function Unlink(s: State, p: nat): State {
    if p in s.publishers && s.publishers[p].AdoptedFrom?
    then Release(s, p).(files := s.files - {s.publishers[p].record})
    else s
  }

  // ---------------------------------------------------------------- the sweep

  /** Some publication record names the draft. */
  predicate Filed(files: map<nat, Record>, b: Binding) {
    exists f :: f in files && b in files[f].bindings
  }

  /** publication_state: the state of some record naming the draft, whichever is met first. */
  ghost predicate PublicationState(files: map<nat, Record>, b: Binding, found: Option<RecordState>) {
    match found
    case None => !Filed(files, b)
    case Some(state) => exists f :: f in files && b in files[f].bindings && files[f].state == state
  }

  predicate Holds(p: Proposal) {
    p.status == Open || p.status == Applying || p.status == Conflicted
  }

  predicate References(p: Proposal, name: Name) {
    name in p.references || p.unresolved
  }

  /** Some proposal that is still open, applying or conflicted, other than the owner, needs the name. */
  predicate NeededElsewhere(s: State, name: Name, owner: Option<nat>) {
    exists i :: i in s.proposals && Some(i) != owner && Holds(s.proposals[i]) && References(s.proposals[i], name)
  }

  predicate Claims(s: State, b: Binding, i: nat) {
    i in s.proposals && s.proposals[i].status == Open && b in s.proposals[i].bindings
  }

  function Claimants(s: State, b: Binding): set<nat> {
    set i | i in s.proposals && Claims(s, b, i)
  }

  /** The owner that reconciliation settles on, and the state after recovering a binding that
      was filed but never reached the database; None where it stops with a blocking reason. */
  function Owner(s: State, b: Binding, d: Draft): Option<(State, Option<nat>)> {
    if d.proposal.Some? then
      if d.proposal.value !in s.proposals then None else Some((s, d.proposal))
    else
      var claims := Claimants(s, b);
      if exists i :: i in claims && claims == {i} then
        var i :| i in claims && claims == {i};
        if s.proposals[i].actor != d.createdBy && s.proposals[i].actor != ADMIN then None
        else if d.expiresAt <= s.clock then Some((s, None))
        else
          var t := BindAll(s, [b], i, s.proposals[i].actor);
          if t.None? then None else Some((t.value, Some(i)))
      else if claims != {} then None
      else Some((s, None))
  }

  datatype Verdict = Keep | Adopt(proposal: Option<nat>) | Drop

  /** What reconciliation decides once the owner is known. */
  function Judge(s: State, b: Binding, d: Draft, owner: Option<nat>): Verdict
    requires owner.Some? ==> owner.value in s.proposals
  {
    if owner.Some? && b !in s.proposals[owner.value].bindings then Keep
    else if owner.Some? && s.proposals[owner.value].status == Applied then Adopt(owner)
    else if owner.Some? && (s.proposals[owner.value].status == Applying || s.proposals[owner.value].status == Conflicted) then Keep
    else if NeededElsewhere(s, b.name, owner) then Keep
    else
      var declined := owner.Some? && (s.proposals[owner.value].status == Declined || s.proposals[owner.value].status == Cancelled);
      if !declined && d.expiresAt > s.clock then Keep
      else if s.lease > s.clock || s.previewQueued then Keep
      else Drop
  }

  function Enter(s: State, b: Binding, verdict: Verdict, owner: Option<nat>): State {
    match verdict
    case Keep => s.(sweeper := None)
    case Adopt(p) => s.(sweeper := Some(Adopting(b, p)))
    case Drop => s.(sweeper := Some(Dropping(b, owner)))
  }

  /** reconcile_one up to its database call, given what publication_state found. */
  function Decide(s: State, found: Option<RecordState>): State {
    if s.sweeper.None? || !s.sweeper.value.Examining? then s
    else
      var b, d := s.sweeper.value.binding, s.sweeper.value.draft;
      if b.name in s.live then Enter(s, b, Adopt(None), None)
      else if s.unresolved then Enter(s, b, Keep, None)
      else if found == Some(Committed) then Enter(s, b, Adopt(None), None)
      else if found == Some(Intent) then Enter(s, b, Keep, None)
      else
        var settled := Owner(s, b, d);
        if settled.None? then Enter(s, b, Keep, None)
        else Enter(settled.value.0, b, Judge(settled.value.0, b, d, settled.value.1), settled.value.1)
  }

  ghost function SweepDecide(s: State, found: Option<RecordState>): State {
    if s.sweeper.Some? && s.sweeper.value.Examining? && PublicationState(s.files, s.sweeper.value.binding, found)
    then Decide(s, found)
    else s
  }

  /** list_drafts reads the active rows before any lock is taken. */
  function ListDraft(s: State, asset: nat): State {
    if asset in s.journal && s.journal[asset].state == Active then s.(listed := s.listed[asset := s.journal[asset]]) else s
  }

  /** The exclusive lock, refused while any publisher holds the shared one. */
  function SweepLock(s: State, asset: nat): State {
    if s.sweeper.Some? || s.publishers != map[] || asset !in s.listed then s
    else
      var d := s.listed[asset];
      s.(sweeper := Some(Examining(Binding(d.name, asset, d.generation), d)))
  }

  /** The database call, in its own transaction, and the release of the lock. */
  function SweepAct(s: State): State {
    if s.sweeper.None? then s
    else match s.sweeper.value
      case Examining(_, _) => s
      case Adopting(b, p) =>
        Otherwise(AdoptAll(s, [b], p), s).(sweeper := None)
      case Dropping(b, _) =>
        Otherwise(Cleanup(s, b), s).(sweeper := None)
  }

  // ---------------------------------------------------------------- the rest of the world

  function CreateRelation(s: State, name: Name, draft: Option<(nat, int)>): State {
    if s.paused || name in s.registry then s
    else
      s.(registry := s.registry[name := Relation(s.nextAsset, 1)],
         journal := if draft.Some?
                    then s.journal[s.nextAsset := Draft(name, 1, Active, draft.value.0, None, draft.value.1)] else s.journal,
         nextAsset := s.nextAsset + 1)
  }

  function NextGeneration(s: State, name: Name): State
    requires name in s.registry
  {
    s.(registry := s.registry[name := s.registry[name].(generation := s.registry[name].generation + 1)])
  }

  /** Refresh and replace, both refused on an active draft. */
  function BumpRelation(s: State, name: Name): State {
    if s.paused || name !in s.registry then s
    else if s.registry[name].asset in s.journal && s.journal[s.registry[name].asset].state == Active then s
    else NextGeneration(s, name)
  }

  /** Queueing the archive of a definition gives it a new generation, draft or not. */
  function ArchiveRelation(s: State, name: Name): State {
    if name !in s.registry then s else NextGeneration(s, name)
  }

  /** Reset recovery gives the definition another asset; it runs behind the gate only. */
  function SucceedRelation(s: State, name: Name): State {
    if !s.paused || name !in s.registry then s
    else s.(registry := s.registry[name := Relation(s.nextAsset, 1)], nextAsset := s.nextAsset + 1)
  }

  function ManualDrop(s: State, name: Name): State {
    if s.paused || name !in s.registry || name in s.dependents then s else DropRelation(s, name)
  }

  /** Proposals and the preview lease are written under the shared lock. */
  function WriteProposal(s: State, i: nat, p: Proposal): State {
    if s.sweeper.Some? then s else s.(proposals := s.proposals[i := p])
  }

  function RetainLease(s: State, until: int): State {
    if s.sweeper.Some? || until <= s.lease then s else s.(lease := until)
  }

  datatype Step =
    | Lock(p: nat)
    | ResolveDrafts(p: nat, references: set<Name>, unresolved: bool, bindings: seq<Binding>)
    | RecordIntent(p: nat)
    | Publish(p: nat)
    | RecordCommit(p: nat)
    | AdoptDrafts(p: nat)
    | RemoveRecord(p: nat)
    | PublisherEnds(p: nat)                      // done, failed or crashed
    | SweeperLists(asset: nat)
    | SweeperLocks(asset: nat)
    | SweeperDecides(found: Option<RecordState>)
    | SweeperActs
    | SweeperEnds                                // blocked or crashed
    | Create(name: Name, draft: Option<(nat, int)>)
    | Bump(name: Name)
    | Archive(name: Name)
    | Succeed(name: Name)
    | DropManually(name: Name)
    | Gate(closed: bool)                         // a data reset begins or ends
    | Depend(names: set<Name>)                   // relations are built on others, or no longer
    | BindDrafts(bindings: seq<Binding>, i: nat, actor: nat)
    | AdoptForProposal(bindings: seq<Binding>, i: nat)
    | SaveProposal(i: nat, proposal: Proposal)
    | Lease(until: int)
    | Preview(queued: bool)
    | Tick(elapsed: nat)

  ghost function Apply(s: State, step: Step): State {
    match step
    case Lock(p) => LockShared(s, p)
    case ResolveDrafts(p, r, u, bs) => Resolve(s, p, r, u, bs)
    case RecordIntent(p) => WriteIntent(s, p)
    case Publish(p) => WriteWorkspace(s, p)
    case RecordCommit(p) => WriteCommitted(s, p)
    case AdoptDrafts(p) => AdoptRecorded(s, p)
    case RemoveRecord(p) => Unlink(s, p)
    case PublisherEnds(p) => Release(s, p)
    case SweeperLists(a) => ListDraft(s, a)
    case SweeperLocks(a) => SweepLock(s, a)
    case SweeperDecides(found) => SweepDecide(s, found)
    case SweeperActs => SweepAct(s)
    case SweeperEnds => s.(sweeper := None)
    case Create(n, d) => CreateRelation(s, n, d)
    case Bump(n) => BumpRelation(s, n)
    case Archive(n) => ArchiveRelation(s, n)
    case Succeed(n) => SucceedRelation(s, n)
    case DropManually(n) => ManualDrop(s, n)
    case Gate(closed) => s.(paused := closed)
    case Depend(names) => s.(dependents := names)
    case BindDrafts(bs, i, actor) => Otherwise(BindAll(s, bs, i, actor), s)
    case AdoptForProposal(bs, i) => Otherwise(AdoptAll(s, bs, Some(i)), s)
    case SaveProposal(i, p) => WriteProposal(s, i, p)
    case Lease(t) => RetainLease(s, t)
    case Preview(q) => s.(previewQueued := q)
    case Tick(t) => s.(clock := s.clock + t)
  }

  ghost function Run(s: State, steps: seq<Step>): State
    decreases |steps|
  {
    if steps == [] then s else Run(Apply(s, steps[0]), steps[1..])
  }
}
