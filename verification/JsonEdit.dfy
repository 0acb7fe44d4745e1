/** Workspace edits (config-ui/control_api.py, apply_operations) on values: what an operation
    changes, what it leaves alone, and how its diff takes it back. */
module JsonEdit {
  import opened Wrappers
  import opened CanonicalNumber
  import opened JsonPointer

  /** A JSON document; a dict is compared as a Python dict is, whatever the order of its keys. */
  datatype Doc = Scalar(text: string) | List(items: seq<Doc>) | Dict(members: map<string, Doc>)

  datatype Operation = Set(path: string, value: Doc) | Unset(path: string) | Unsupported(name: string)

  datatype Entry =
    | Added(path: string, value: Doc)
    | Replaced(path: string, was: Doc, value: Doc)
    | Removed(path: string, was: Doc)

  datatype EditError = NotAnObject | UnsupportedOperation | BadPath(error: PointerError) | IsRoot
                     | BadIndex | OutOfRange | NoSuchMember | InsideScalar

  // ---------------------------------------------------------------- walking

  function ListIndex(part: string, length: nat, allowEnd: bool): (r: Result<nat, EditError>)
    ensures r.Ok? ==> r.value < length || (allowEnd && r.value == length)
  {
    if !IsIndex(part) then Err(BadIndex)
    else if NatOf(part) < length || (allowEnd && NatOf(part) == length) then Ok(NatOf(part))
    else Err(OutOfRange)
  }

  function Child(v: Doc, part: string): Result<Doc, EditError> {
    match v
    case List(items) =>
      var i := ListIndex(part, |items|, false);
      if i.Err? then Err(i.error) else Ok(items[i.value])
    case Dict(members) => if part in members then Ok(members[part]) else Err(NoSuchMember)
    case Scalar(_) => Err(InsideScalar)
  }

  function Get(v: Doc, parts: seq<string>): Result<Doc, EditError> {
    if parts == [] then Ok(v)
    else
      var child := Child(v, parts[0]);
      if child.Err? then child else Get(child.value, parts[1..])
  }

  /** The parent with one of its children exchanged. */
  function Plug(v: Doc, part: string, child: Doc): Doc
    requires Child(v, part).Ok?
  {
    match v
    case List(items) => List(items[ListIndex(part, |items|, false).value := child])
    case Dict(members) => Dict(members[part := child])
  }

  // ---------------------------------------------------------------- one operation

  /** What one operation does at the end of its path. */
  datatype Change = Adding | Replacing(prior: Doc) | Removing(prior: Doc)
  datatype Edited = Edited(doc: Doc, change: Change)

  function SetLeaf(v: Doc, key: string, x: Doc): Result<Edited, EditError> {
    match v
    case List(items) =>
      var i := ListIndex(key, |items|, true);
      if i.Err? then Err(i.error)
      else if i.value == |items| then Ok(Edited(List(items + [x]), Adding))
      else Ok(Edited(List(items[i.value := x]), Replacing(items[i.value])))
    case Dict(members) =>
      Ok(Edited(Dict(members[key := x]), if key in members then Replacing(members[key]) else Adding))
    case Scalar(_) => Err(InsideScalar)
  }

  function UnsetLeaf(v: Doc, key: string): Result<Edited, EditError> {
    match v
    case List(items) =>
      var i := ListIndex(key, |items|, false);
      if i.Err? then Err(i.error)
      else Ok(Edited(List(items[..i.value] + items[i.value + 1..]), Removing(items[i.value])))
    case Dict(members) =>
      if key in members then Ok(Edited(Dict(members - {key}), Removing(members[key]))) else Err(NoSuchMember)
    case Scalar(_) => Err(InsideScalar)
  }

  function EditLeaf(v: Doc, key: string, x: Option<Doc>): Result<Edited, EditError> {
    if x.Some? then SetLeaf(v, key, x.value) else UnsetLeaf(v, key)
  }

  /** Set to x, or unset, at the end of a non-empty path. */
  function EditAt(v: Doc, parts: seq<string>, x: Option<Doc>): Result<Edited, EditError>
    requires parts != []
  {
    if |parts| == 1 then EditLeaf(v, parts[0], x)
    else
      var child := Child(v, parts[0]);
      if child.Err? then Err(child.error)
      else
        var r := EditAt(child.value, parts[1..], x);
        if r.Err? then r else Ok(Edited(Plug(v, parts[0], r.value.doc), r.value.change))
  }

  function EntryOf(op: Operation, change: Change): Entry
    requires !op.Unsupported? && (op.Set? <==> !change.Removing?)
  {
    match change
    case Adding => Added(op.path, op.value)
    case Replacing(prior) => Replaced(op.path, prior, op.value)
    case Removing(prior) => Removed(op.path, prior)
  }

  function Submitted(op: Operation): Option<Doc> {
    if op.Set? then Some(op.value) else None
  }

  datatype Applied = Applied(doc: Doc, entry: Entry)

  function ApplyOne(v: Doc, op: Operation): Result<Applied, EditError> {
    if op.Unsupported? then Err(UnsupportedOperation)
    else
      var parts := Parse(op.path);
      if parts.Err? then Err(BadPath(parts.error))
      else if parts.value == [] then Err(IsRoot)
      else
        var r := EditAt(v, parts.value, Submitted(op));
        if r.Err? then Err(r.error)
        else
          ChangeMatches(v, parts.value, Submitted(op));
          Ok(Applied(r.value.doc, EntryOf(op, r.value.change)))
  }

  lemma {:induction false} ChangeMatches(v: Doc, parts: seq<string>, x: Option<Doc>)
    requires parts != [] && EditAt(v, parts, x).Ok?
    ensures x.Some? <==> !EditAt(v, parts, x).value.change.Removing?
    ensures EditAt(v, parts, x).value.doc.Dict? <==> v.Dict?
    decreases |parts|
  {
    if |parts| > 1 {
      ChangeMatches(Child(v, parts[0]).value, parts[1..], x);
    }
  }

  // ---------------------------------------------------------------- all operations

  datatype Outcome = Outcome(doc: Doc, diff: seq<Entry>)

  function ApplyAll(v: Doc, ops: seq<Operation>): Result<Outcome, EditError> {
    if ops == [] then Ok(Outcome(v, []))
    else
      var front := ApplyAll(v, ops[..|ops| - 1]);
      if front.Err? then front
      else
        var r := ApplyOne(front.value.doc, ops[|ops| - 1]);
        if r.Err? then Err(r.error) else Ok(Outcome(r.value.doc, front.value.diff + [r.value.entry]))
  }

  /** apply_operations: one failing operation fails them all. */
  function Apply(v: Doc, ops: seq<Operation>): Result<Outcome, EditError> {
    if !v.Dict? then Err(NotAnObject) else ApplyAll(v, ops)
  }

  // ---------------------------------------------------------------- taking a diff back

  function RevertLeaf(v: Doc, key: string, entry: Entry): Option<Doc> {
    match v
    case List(items) =>
      (match entry
       case Added(_, _) => if items == [] then None else Some(List(items[..|items| - 1]))
       case Replaced(_, was, _) =>
         if IsIndex(key) && NatOf(key) < |items| then Some(List(items[NatOf(key) := was])) else None
       case Removed(_, was) =>
         if IsIndex(key) && NatOf(key) <= |items|
         then Some(List(items[..NatOf(key)] + [was] + items[NatOf(key)..])) else None)
    case Dict(members) =>
      (match entry
       case Added(_, _) => Some(Dict(members - {key}))
       case Replaced(_, was, _) => Some(Dict(members[key := was]))
       case Removed(_, was) => Some(Dict(members[key := was])))
    case Scalar(_) => None
  }

  function RevertAt(v: Doc, parts: seq<string>, entry: Entry): Option<Doc>
    requires parts != []
  {
    if |parts| == 1 then RevertLeaf(v, parts[0], entry)
    else
      var child := Child(v, parts[0]);
      if child.Err? then None
      else
        var r := RevertAt(child.value, parts[1..], entry);
        if r.None? then None else Some(Plug(v, parts[0], r.value))
  }

  function RevertOne(v: Doc, entry: Entry): Option<Doc> {
    var parts := Parse(entry.path);
    if parts.Err? || parts.value == [] then None else RevertAt(v, parts.value, entry)
  }

  /** Replay a diff backwards. */
  function RevertAll(v: Doc, diff: seq<Entry>): Option<Doc>
    decreases |diff|
  {
    if diff == [] then Some(v)
    else
      var r := RevertOne(v, diff[|diff| - 1]);
      if r.None? then None else RevertAll(r.value, diff[..|diff| - 1])
  }

  lemma PlugChild(v: Doc, part: string, child: Doc)
    requires Child(v, part).Ok?
    ensures Child(Plug(v, part, child), part) == Ok(child)
    ensures Plug(Plug(v, part, child), part, Child(v, part).value) == v
  {
    match v
    case List(items) =>
      var i := ListIndex(part, |items|, false).value;
      assert items[i := child][i := items[i]] == items;
    case Dict(members) =>
      assert members[part := child][part := members[part]] == members;
  }

  lemma RevertEditLeaf(v: Doc, key: string, x: Option<Doc>, entry: Entry)
    requires EditLeaf(v, key, x).Ok?
    requires match EditLeaf(v, key, x).value.change
      case Adding => entry.Added?
      case Replacing(prior) => entry.Replaced? && entry.was == prior
      case Removing(prior) => entry.Removed? && entry.was == prior
    ensures RevertLeaf(EditLeaf(v, key, x).value.doc, key, entry) == Some(v)
  {
    match v
    case List(items) =>
      if x.Some? && NatOf(key) < |items| {
        assert items[NatOf(key) := x.value][NatOf(key) := items[NatOf(key)]] == items;
      } else if x.Some? {
        assert (items + [x.value])[..|items|] == items;
      } else {
        var i := NatOf(key);
        var rest := items[..i] + items[i + 1..];
        assert rest[..i] + [items[i]] + rest[i..] == items;
      }
    case Dict(members) =>
      if x.Some? && key !in members {
        assert members[key := x.value] - {key} == members;
      } else if x.Some? {
        assert members[key := x.value][key := members[key]] == members;
      } else {
        assert (members - {key})[key := members[key]] == members;
      }
  }

  lemma {:induction false} RevertEdit(v: Doc, parts: seq<string>, x: Option<Doc>, entry: Entry)
    requires parts != [] && EditAt(v, parts, x).Ok?
    requires match EditAt(v, parts, x).value.change
      case Adding => entry.Added?
      case Replacing(prior) => entry.Replaced? && entry.was == prior
      case Removing(prior) => entry.Removed? && entry.was == prior
    ensures RevertAt(EditAt(v, parts, x).value.doc, parts, entry) == Some(v)
    decreases |parts|
  {
    hide EditLeaf, RevertLeaf, Plug, Child;
    if |parts| == 1 {
      RevertEditLeaf(v, parts[0], x, entry);
    } else {
      var child := Child(v, parts[0]).value;
      RevertEdit(child, parts[1..], x, entry);
      PlugChild(v, parts[0], EditAt(child, parts[1..], x).value.doc);
      PlugAgain(v, parts[0], EditAt(child, parts[1..], x).value.doc, child);
    }
  }

  lemma PlugAgain(v: Doc, part: string, child: Doc, other: Doc)
    requires Child(v, part).Ok?
    ensures Child(Plug(v, part, child), part).Ok?
    ensures Plug(Plug(v, part, child), part, other) == Plug(v, part, other)
  {
    match v
    case List(items) =>
      var i := ListIndex(part, |items|, false).value;
      assert items[i := child][i := other] == items[i := other];
    case Dict(members) =>
      assert members[part := child][part := other] == members[part := other];
  }

  lemma RevertApplied(v: Doc, op: Operation)
    requires ApplyOne(v, op).Ok?
    ensures RevertOne(ApplyOne(v, op).value.doc, ApplyOne(v, op).value.entry) == Some(v)
  {
    var parts := Parse(op.path).value;
    ChangeMatches(v, parts, Submitted(op));
    RevertEdit(v, parts, Submitted(op), ApplyOne(v, op).value.entry);
  }

  /** Replaying the diff of any accepted list of operations backwards restores the document exactly:
      replaced values, dropped members, and removed list items at their index. */
  lemma {:induction false} DiffRestores(v: Doc, ops: seq<Operation>)
    requires ApplyAll(v, ops).Ok?
    ensures RevertAll(ApplyAll(v, ops).value.doc, ApplyAll(v, ops).value.diff) == Some(v)
    decreases |ops|
  {
    if ops != [] {
      var front := ApplyAll(v, ops[..|ops| - 1]).value;
      DiffRestores(v, ops[..|ops| - 1]);
      RevertApplied(front.doc, ops[|ops| - 1]);
      var diff := ApplyAll(v, ops).value.diff;
      assert diff[..|diff| - 1] == front.diff;
    }
  }

  // ---------------------------------------------------------------- what an edit leaves alone

  /** Two paths that part company at some step: neither leads through the other. */
  predicate Diverge(p: seq<string>, q: seq<string>) {
    p != [] && q != [] && (p[0] != q[0] || Diverge(p[1..], q[1..]))
  }

  lemma PlugElsewhere(v: Doc, part: string, other: string, child: Doc)
    requires Child(v, part).Ok? && part != other
    ensures Child(Plug(v, part, child), other) == Child(v, other)
  {
    if v.List? && IsIndex(part) && IsIndex(other) && NatOf(part) == NatOf(other) {
      IndexSpelling(part, other);
    }
  }

  lemma SetElsewhere(v: Doc, key: string, other: string, x: Doc)
    requires SetLeaf(v, key, x).Ok? && key != other && Child(v, other).Ok?
    ensures Child(SetLeaf(v, key, x).value.doc, other) == Child(v, other)
  {
    if v.List? && NatOf(key) == NatOf(other) {
      IndexSpelling(key, other);
    }
  }

  /** A set operation leaves everything that is not on its path as it was. */
  lemma {:induction false} SetPreservesUnrelated(v: Doc, parts: seq<string>, x: Doc, q: seq<string>)
    requires parts != [] && EditAt(v, parts, Some(x)).Ok? && Diverge(parts, q) && Get(v, q).Ok?
    ensures Get(EditAt(v, parts, Some(x)).value.doc, q) == Get(v, q)
    decreases |parts|
  {
    if |parts| == 1 {
      SetElsewhere(v, parts[0], q[0], x);
    } else {
      var child := Child(v, parts[0]).value;
      var after := EditAt(child, parts[1..], Some(x)).value.doc;
      if parts[0] == q[0] {
        SetPreservesUnrelated(child, parts[1..], x, q[1..]);
        PlugChild(v, parts[0], after);
      } else {
        PlugElsewhere(v, parts[0], q[0], after);
      }
    }
  }

  /** What was set is what is read there afterwards. */
  lemma {:induction false} SetReadsBack(v: Doc, parts: seq<string>, x: Doc)
    requires parts != [] && EditAt(v, parts, Some(x)).Ok?
    ensures Get(EditAt(v, parts, Some(x)).value.doc, parts) == Ok(x)
    decreases |parts|
  {
    if |parts| == 1 {
      assert parts[1..] == [];
    } else {
      var child := Child(v, parts[0]).value;
      SetReadsBack(child, parts[1..], x);
      PlugChild(v, parts[0], EditAt(child, parts[1..], Some(x)).value.doc);
    }
  }

  /** Removing an item shifts only the later items of that one list. */
  predicate Shifted(v: Doc, parts: seq<string>, q: seq<string>)
    requires Get(v, parts).Ok?
  {
    parts != [] && q != [] &&
    if |parts| > 1 then
      && parts[0] == q[0] && Get(Child(v, parts[0]).value, parts[1..]).Ok?
      && Shifted(Child(v, parts[0]).value, parts[1..], q[1..])
    else v.List? && IsIndex(q[0]) && NatOf(q[0]) > NatOf(parts[0])
  }

  lemma UnsetElsewhere(v: Doc, key: string, other: string)
    requires UnsetLeaf(v, key).Ok? && key != other && Child(v, other).Ok?
    requires v.List? ==> NatOf(other) <= NatOf(key)
    ensures Child(UnsetLeaf(v, key).value.doc, other) == Child(v, other)
  {
    if v.List? && NatOf(key) == NatOf(other) {
      IndexSpelling(key, other);
    }
  }

  lemma {:induction false} UnsetPreservesUnrelated(v: Doc, parts: seq<string>, q: seq<string>)
    requires parts != [] && EditAt(v, parts, None).Ok? && Diverge(parts, q) && Get(v, q).Ok?
    requires Get(v, parts).Ok? && !Shifted(v, parts, q)
    ensures Get(EditAt(v, parts, None).value.doc, q) == Get(v, q)
    decreases |parts|
  {
    if |parts| == 1 {
      UnsetElsewhere(v, parts[0], q[0]);
    } else {
      var child := Child(v, parts[0]).value;
      var after := EditAt(child, parts[1..], None).value.doc;
      if parts[0] == q[0] {
        UnsetPreservesUnrelated(child, parts[1..], q[1..]);
        PlugChild(v, parts[0], after);
      } else {
        PlugElsewhere(v, parts[0], q[0], after);
      }
    }
  }

  /** The path of a shifted item after the removal: its index in that list, one less. */
  function MovedDown(parts: seq<string>, q: seq<string>): seq<string>
    requires parts != [] && q != []
    decreases |parts|
  {
    if |parts| == 1 || |q| == 1 then [Digits(if NatOf(q[0]) > 0 then NatOf(q[0]) - 1 else 0)] + q[1..]
    else [q[0]] + MovedDown(parts[1..], q[1..])
  }

  lemma UnsetMoves(items: seq<Doc>, key: string, other: string)
    requires UnsetLeaf(List(items), key).Ok? && IsIndex(other) && NatOf(key) < NatOf(other) < |items|
    ensures Child(UnsetLeaf(List(items), key).value.doc, Digits(NatOf(other) - 1)) == Child(List(items), other)
  {
    DigitsIndex(NatOf(other) - 1);
  }

  lemma DigitsIndex(n: nat)
    ensures IsIndex(Digits(n)) && NatOf(Digits(n)) == n
  {
    NatOfDigits(n);
    DigitsEnds(n);
  }

  /** What stood behind a removed item of the list is read one index lower, all the way down. */
  lemma {:induction false} UnsetShiftsDown(v: Doc, parts: seq<string>, q: seq<string>)
    requires parts != [] && EditAt(v, parts, None).Ok? && Get(v, parts).Ok? && Get(v, q).Ok? && Shifted(v, parts, q)
    ensures Get(EditAt(v, parts, None).value.doc, MovedDown(parts, q)) == Get(v, q)
    decreases |parts|
  {
    hide Plug;
    if |parts| == 1 {
      UnsetMoves(v.items, parts[0], q[0]);
      assert MovedDown(parts, q)[1..] == q[1..];
    } else {
      var child := Child(v, parts[0]).value;
      var after := EditAt(child, parts[1..], None).value.doc;
      UnsetShiftsDown(child, parts[1..], q[1..]);
      PlugChild(v, parts[0], after);
      assert MovedDown(parts, q)[1..] == MovedDown(parts[1..], q[1..]);
    }
  }

  /** An unset succeeds exactly where something can be read. */
  lemma {:induction false} UnsetIffPresent(v: Doc, parts: seq<string>)
    requires parts != []
    ensures EditAt(v, parts, None).Ok? <==> Get(v, parts).Ok?
    ensures Get(v, parts).Ok? ==> EditAt(v, parts, None).value.change == Removing(Get(v, parts).value)
    decreases |parts|
  {
    if |parts| == 1 {
      assert parts[1..] == [];
    } else if Child(v, parts[0]).Ok? {
      UnsetIffPresent(Child(v, parts[0]).value, parts[1..]);
    }
  }
}
