/** apply_operations as it runs (config-ui/control_api.py): a mutable document in memory, edited in
    place through references, with the copies that keep it apart from its input and its diff.

    Memory is a map from references to cells; a document is a tree of cells. */
module JsonHeap {
  import opened Wrappers
  import opened CanonicalNumber
  import opened JsonPointer
  import opened JsonEdit

  type Ref = int
  datatype Cell = Atom(text: string) | ListCell(items: seq<Ref>) | DictCell(members: map<string, Ref>)
  type Heap = map<Ref, Cell>

  // ---------------------------------------------------------------- trees of cells

  datatype Slot = Index(i: nat) | Name(k: string)

  predicate HasSlot(v: Doc, s: Slot) {
    (v.List? && s.Index? && s.i < |v.items|) || (v.Dict? && s.Name? && s.k in v.members)
  }

  function KidOf(v: Doc, s: Slot): (kid: Doc)
    requires HasSlot(v, s)
    ensures kid < v
  {
    match v
    case List(items) => items[s.i]
    case Dict(members) => members[s.k]
  }

  /** The cell is of the document's kind and has the same slots. */
  predicate Fits(c: Cell, v: Doc) {
    match v
    case Scalar(text) => c == Atom(text)
    case List(items) => c.ListCell? && |c.items| == |items|
    case Dict(members) => c.DictCell? && c.members.Keys == members.Keys
  }

  function RefAt(c: Cell, v: Doc, s: Slot): Ref
    requires Fits(c, v) && HasSlot(v, s)
  {
    match v
    case List(_) => c.items[s.i]
    case Dict(_) => c.members[s.k]
  }

  /** x is the cell of r or one under it. */
  ghost predicate Under(h: Heap, r: Ref, v: Doc, x: Ref)
    decreases v
  {
    x == r || (r in h && Fits(h[r], v) && exists s :: HasSlot(v, s) && Under(h, RefAt(h[r], v, s), KidOf(v, s), x))
  }

  /** The reference r holds the document v, and no cell is used twice. */
  ghost predicate Tree(h: Heap, r: Ref, v: Doc)
    decreases v
  {
    && r in h && Fits(h[r], v)
    && (forall s :: HasSlot(v, s) ==> Tree(h, RefAt(h[r], v, s), KidOf(v, s)))
    && (forall s :: HasSlot(v, s) ==> !Under(h, RefAt(h[r], v, s), KidOf(v, s), r))
    && (forall s, t :: HasSlot(v, s) && HasSlot(v, t) && s != t ==>
          Apart(h, RefAt(h[r], v, s), KidOf(v, s), RefAt(h[r], v, t), KidOf(v, t)))
  }

  ghost predicate Apart(h: Heap, r: Ref, v: Doc, q: Ref, w: Doc) {
    forall x :: !(Under(h, r, v, x) && Under(h, q, w, x))
  }

  ghost predicate Below(h: Heap, r: Ref, v: Doc, low: Ref) {
    forall x :: Under(h, r, v, x) ==> x < low
  }

  ghost predicate From(h: Heap, r: Ref, v: Doc, low: Ref) {
    forall x :: Under(h, r, v, x) ==> x >= low
  }

  /** Whatever is under the tree in g was under the other one in h, or is from `low` on. */
  ghost predicate OldOrNew(g: Heap, q: Ref, w: Doc, h: Heap, r: Ref, v: Doc, low: Ref) {
    forall x :: Under(g, q, w, x) ==> Under(h, r, v, x) || x >= low
  }

  ghost predicate SameCells(g: Heap, q: Ref, w: Doc, h: Heap, r: Ref, v: Doc) {
    forall x :: Under(g, q, w, x) <==> Under(h, r, v, x)
  }

  /** Only the cell p may differ, among those of h. */
  predicate AllBut(h: Heap, g: Heap, p: Ref) {
    forall x :: x in h && x != p ==> x in g && g[x] == h[x]
  }

  ghost predicate SameUnder(h: Heap, r: Ref, v: Doc, g: Heap) {
    forall x :: Under(h, r, v, x) ==> x in h && x in g && g[x] == h[x]
  }

  /** A tree depends on its own cells only. */
  lemma {:induction false} Framed(h: Heap, r: Ref, v: Doc, g: Heap)
    requires Tree(h, r, v) && SameUnder(h, r, v, g)
    ensures Tree(g, r, v) && SameCells(g, r, v, h, r, v)
    decreases v
  {
    assert Under(h, r, v, r);
    forall s | HasSlot(v, s)
      ensures Tree(g, RefAt(h[r], v, s), KidOf(v, s))
      ensures SameCells(g, RefAt(h[r], v, s), KidOf(v, s), h, RefAt(h[r], v, s), KidOf(v, s))
    {
      Framed(h, RefAt(h[r], v, s), KidOf(v, s), g);
    }
  }

  lemma {:induction false} UnderAllocated(h: Heap, r: Ref, v: Doc, x: Ref)
    requires Tree(h, r, v) && Under(h, r, v, x)
    ensures x in h
    decreases v
  {
    if x != r {
      var s :| HasSlot(v, s) && Under(h, RefAt(h[r], v, s), KidOf(v, s), x);
      UnderAllocated(h, RefAt(h[r], v, s), KidOf(v, s), x);
    }
  }

  /** More memory, or other memory changed: the tree is the same. */
  lemma Extended(h: Heap, r: Ref, v: Doc, g: Heap)
    requires Tree(h, r, v)
    requires forall x :: x in h && Under(h, r, v, x) ==> x in g && g[x] == h[x]
    ensures Tree(g, r, v) && SameCells(g, r, v, h, r, v)
  {
    forall x | Under(h, r, v, x) ensures x in h {
      UnderAllocated(h, r, v, x);
    }
    Framed(h, r, v, g);
  }

  // ---------------------------------------------------------------- changing one cell

  /** Where a kid of the new contents comes from: an old slot of the cell, or a new tree. */
  ghost predicate KidFrom(h: Heap, g: Heap, p: Ref, v: Doc, w: Doc, s: Slot, from: map<Slot, Slot>, low: Ref)
    requires Tree(h, p, v) && p in g && Fits(g[p], w) && HasSlot(w, s)
  {
    if s in from then
      HasSlot(v, from[s]) && KidOf(w, s) == KidOf(v, from[s]) && RefAt(g[p], w, s) == RefAt(h[p], v, from[s])
    else Tree(g, RefAt(g[p], w, s), KidOf(w, s)) && From(g, RefAt(g[p], w, s), KidOf(w, s), low)
  }

  /** One kid of the new contents is sound, apart from its own cell, and made of old or new cells. */
  lemma KidSound(h: Heap, g: Heap, p: Ref, v: Doc, w: Doc, s: Slot, from: map<Slot, Slot>, low: Ref)
    requires Tree(h, p, v) && Below(h, p, v, low) && p in g && Fits(g[p], w) && HasSlot(w, s) && AllBut(h, g, p)
    requires KidFrom(h, g, p, v, w, s, from, low)
    ensures Tree(g, RefAt(g[p], w, s), KidOf(w, s)) && !Under(g, RefAt(g[p], w, s), KidOf(w, s), p)
    ensures OldOrNew(g, RefAt(g[p], w, s), KidOf(w, s), h, p, v, low)
    ensures s in from ==> SameCells(g, RefAt(g[p], w, s), KidOf(w, s), h, RefAt(h[p], v, from[s]), KidOf(v, from[s]))
  {
    assert Under(h, p, v, p);
    if s in from {
      Extended(h, RefAt(h[p], v, from[s]), KidOf(v, from[s]), g);
    }
  }

  lemma KidsApart(h: Heap, g: Heap, p: Ref, v: Doc, w: Doc, s: Slot, t: Slot, from: map<Slot, Slot>, low: Ref)
    requires Tree(h, p, v) && Below(h, p, v, low) && p in g && Fits(g[p], w) && AllBut(h, g, p)
    requires HasSlot(w, s) && HasSlot(w, t) && s != t
    requires KidFrom(h, g, p, v, w, s, from, low) && KidFrom(h, g, p, v, w, t, from, low)
    requires s in from && t in from ==> from[s] != from[t]
    requires s in from || t in from
    ensures Apart(g, RefAt(g[p], w, s), KidOf(w, s), RefAt(g[p], w, t), KidOf(w, t))
  {
    KidSound(h, g, p, v, w, s, from, low);
    KidSound(h, g, p, v, w, t, from, low);
    if s in from && t in from {
      assert Apart(h, RefAt(h[p], v, from[s]), KidOf(v, from[s]), RefAt(h[p], v, from[t]), KidOf(v, from[t]));
    } else if s in from {
      OldBelow(h, p, v, from[s], low);
    } else {
      OldBelow(h, p, v, from[t], low);
    }
  }

  lemma OldBelow(h: Heap, p: Ref, v: Doc, s: Slot, low: Ref)
    requires Tree(h, p, v) && Below(h, p, v, low) && HasSlot(v, s)
    ensures Below(h, RefAt(h[p], v, s), KidOf(v, s), low)
  {
    forall x | Under(h, RefAt(h[p], v, s), KidOf(v, s), x) ensures x < low {
      assert Under(h, p, v, x);
    }
  }

  /** A cell gets new contents: some of its old kids, each once, and at most one new tree, whose
      cells are all from `low` on. */
  lemma CellReplaced(h: Heap, g: Heap, p: Ref, v: Doc, w: Doc, from: map<Slot, Slot>, low: Ref)
    requires Tree(h, p, v) && Below(h, p, v, low) && p in g && Fits(g[p], w) && AllBut(h, g, p)
    requires forall s :: HasSlot(w, s) ==> KidFrom(h, g, p, v, w, s, from, low)
    requires forall s, t :: HasSlot(w, s) && HasSlot(w, t) && s != t ==>
      (s in from || t in from) && (s in from && t in from ==> from[s] != from[t])
    ensures Tree(g, p, w) && OldOrNew(g, p, w, h, p, v, low)
  {
    hide Apart, KidFrom, SameCells;
    assert Under(h, p, v, p);
    forall s | HasSlot(w, s)
      ensures Tree(g, RefAt(g[p], w, s), KidOf(w, s)) && !Under(g, RefAt(g[p], w, s), KidOf(w, s), p)
      ensures OldOrNew(g, RefAt(g[p], w, s), KidOf(w, s), h, p, v, low)
    {
      KidSound(h, g, p, v, w, s, from, low);
    }
    forall s, t | HasSlot(w, s) && HasSlot(w, t) && s != t
      ensures Apart(g, RefAt(g[p], w, s), KidOf(w, s), RefAt(g[p], w, t), KidOf(w, t))
    {
      KidsApart(h, g, p, v, w, s, t, from, low);
    }
  }

  // ---------------------------------------------------------------- changing a cell down a path

  function SlotOf(v: Doc, part: string): Slot
    requires Child(v, part).Ok?
    ensures HasSlot(v, SlotOf(v, part)) && KidOf(v, SlotOf(v, part)) == Child(v, part).value
  {
    if v.List? then Index(ListIndex(part, |v.items|, false).value) else Name(part)
  }

  /** The cell at the end of a path. */
  ghost function RefDown(h: Heap, r: Ref, v: Doc, parts: seq<string>): Ref
    requires Tree(h, r, v) && Get(v, parts).Ok?
    decreases |parts|
  {
    if parts == [] then r
    else RefDown(h, RefAt(h[r], v, SlotOf(v, parts[0])), Child(v, parts[0]).value, parts[1..])
  }

  /** The document with the part at the end of a path exchanged. */
  function PlugDown(v: Doc, parts: seq<string>, w: Doc): Doc
    requires Get(v, parts).Ok?
  {
    if parts == [] then w else Plug(v, parts[0], PlugDown(Child(v, parts[0]).value, parts[1..], w))
  }

  lemma {:induction false} DownIsUnder(h: Heap, r: Ref, v: Doc, parts: seq<string>)
    requires Tree(h, r, v) && Get(v, parts).Ok?
    ensures Under(h, r, v, RefDown(h, r, v, parts))
    ensures Tree(h, RefDown(h, r, v, parts), Get(v, parts).value)
    ensures forall x :: Under(h, RefDown(h, r, v, parts), Get(v, parts).value, x) ==> Under(h, r, v, x)
    decreases |parts|
  {
    if parts != [] {
      DownIsUnder(h, RefAt(h[r], v, SlotOf(v, parts[0])), Child(v, parts[0]).value, parts[1..]);
    }
  }

  lemma PlugSlots(v: Doc, part: string, kid: Doc)
    requires Child(v, part).Ok?
    ensures forall s :: HasSlot(Plug(v, part, kid), s) <==> HasSlot(v, s)
    ensures KidOf(Plug(v, part, kid), SlotOf(v, part)) == kid
    ensures forall s :: HasSlot(v, s) && s != SlotOf(v, part) ==> KidOf(Plug(v, part, kid), s) == KidOf(v, s)
    ensures forall c :: Fits(c, Plug(v, part, kid)) <==> Fits(c, v)
  {
  }

  /** Only the cell at the end of the path changed, and it holds w now: the whole tree is the document
      with w plugged in there. */
  lemma {:induction false} DownReplaced(h: Heap, g: Heap, r: Ref, v: Doc, parts: seq<string>, w: Doc, low: Ref)
    requires Tree(h, r, v) && Get(v, parts).Ok? && Below(h, r, v, low) && AllBut(h, g, RefDown(h, r, v, parts))
    requires Tree(g, RefDown(h, r, v, parts), w)
    requires OldOrNew(g, RefDown(h, r, v, parts), w, h, RefDown(h, r, v, parts), Get(v, parts).value, low)
    ensures Tree(g, r, PlugDown(v, parts, w)) && OldOrNew(g, r, PlugDown(v, parts, w), h, r, v, low)
    decreases |parts|
  {
    if parts != [] {
      var s, kid := SlotOf(v, parts[0]), Child(v, parts[0]).value;
      var k := RefAt(h[r], v, s);
      var p := RefDown(h, r, v, parts);
      DownIsUnder(h, k, kid, parts[1..]);
      OldBelow(h, r, v, s, low);
      DownReplaced(h, g, k, kid, parts[1..], w, low);
      PlugSlots(v, parts[0], PlugDown(kid, parts[1..], w));
      KidReplaced(h, g, r, v, parts[0], p, PlugDown(kid, parts[1..], w), low);
    }
  }

  /** One slot of a cell holds another tree, and nothing else was touched. */
  lemma KidReplaced(h: Heap, g: Heap, r: Ref, v: Doc, part: string, p: Ref, kid: Doc, low: Ref)
    requires Tree(h, r, v) && Child(v, part).Ok? && Below(h, r, v, low) && AllBut(h, g, p)
    requires Under(h, RefAt(h[r], v, SlotOf(v, part)), Child(v, part).value, p)
    requires Tree(g, RefAt(h[r], v, SlotOf(v, part)), kid)
    requires OldOrNew(g, RefAt(h[r], v, SlotOf(v, part)), kid, h, RefAt(h[r], v, SlotOf(v, part)), Child(v, part).value, low)
    ensures Tree(g, r, Plug(v, part, kid)) && OldOrNew(g, r, Plug(v, part, kid), h, r, v, low)
  {
    var s, w := SlotOf(v, part), Plug(v, part, kid);
    assert Under(h, r, v, r);
    assert r != p && g[r] == h[r];
    PlugSlots(v, part, kid);
    forall t | HasSlot(v, t) && t != s
      ensures Tree(g, RefAt(h[r], v, t), KidOf(w, t))
      ensures SameCells(g, RefAt(h[r], v, t), KidOf(w, t), h, RefAt(h[r], v, t), KidOf(v, t))
    {
      assert Apart(h, RefAt(h[r], v, s), KidOf(v, s), RefAt(h[r], v, t), KidOf(v, t));
      Extended(h, RefAt(h[r], v, t), KidOf(v, t), g);
    }
    SiblingsKept(h, g, r, v, s, w, low);
  }

  lemma SiblingsKept(h: Heap, g: Heap, r: Ref, v: Doc, s: Slot, w: Doc, low: Ref)
    requires Tree(h, r, v) && HasSlot(v, s) && Below(h, r, v, low) && r in g && g[r] == h[r] && Fits(g[r], w)
    requires forall t :: HasSlot(w, t) <==> HasSlot(v, t)
    requires v.List? == w.List?
    requires forall t :: HasSlot(v, t) ==> Tree(g, RefAt(h[r], v, t), KidOf(w, t))
    requires OldOrNew(g, RefAt(h[r], v, s), KidOf(w, s), h, RefAt(h[r], v, s), KidOf(v, s), low)
    requires forall t :: HasSlot(v, t) && t != s ==>
      SameCells(g, RefAt(h[r], v, t), KidOf(w, t), h, RefAt(h[r], v, t), KidOf(v, t))
    ensures Tree(g, r, w) && OldOrNew(g, r, w, h, r, v, low)
  {
    hide Apart, Under, SameCells;
    forall t | HasSlot(w, t)
      ensures RefAt(g[r], w, t) == RefAt(h[r], v, t)
      ensures OldOrNew(g, RefAt(g[r], w, t), KidOf(w, t), h, RefAt(h[r], v, t), KidOf(v, t), low)
    {
      if t != s {
        SameIsOld(g, RefAt(h[r], v, t), KidOf(w, t), h, KidOf(v, t), low);
      }
    }
    hide OldOrNew;
    forall t | HasSlot(w, t) ensures !Under(g, RefAt(g[r], w, t), KidOf(w, t), r) {
      NotUnderItself(h, r, v, t, low);
      OldNotUnder(g, RefAt(h[r], v, t), KidOf(w, t), h, KidOf(v, t), low, r);
    }
    forall t, u | HasSlot(w, t) && HasSlot(w, u) && t != u
      ensures Apart(g, RefAt(g[r], w, t), KidOf(w, t), RefAt(g[r], w, u), KidOf(w, u))
    {
      ApartKept(h, g, r, v, t, u, w, low);
    }
    KidsOldOrNew(h, g, r, v, w, low);
  }

  lemma SameIsOld(g: Heap, q: Ref, w: Doc, h: Heap, v: Doc, low: Ref)
    requires SameCells(g, q, w, h, q, v)
    ensures OldOrNew(g, q, w, h, q, v, low)
  {
  }

  lemma OldNotUnder(g: Heap, q: Ref, w: Doc, h: Heap, v: Doc, low: Ref, x: Ref)
    requires OldOrNew(g, q, w, h, q, v, low) && !Under(h, q, v, x) && x < low
    ensures !Under(g, q, w, x)
  {
  }

  lemma NotUnderItself(h: Heap, r: Ref, v: Doc, t: Slot, low: Ref)
    requires Tree(h, r, v) && HasSlot(v, t) && Below(h, r, v, low)
    ensures !Under(h, RefAt(h[r], v, t), KidOf(v, t), r) && r < low
  {
    assert Under(h, r, v, r);
  }

  lemma KidsOldOrNew(h: Heap, g: Heap, r: Ref, v: Doc, w: Doc, low: Ref)
    requires Tree(h, r, v) && r in g && Fits(g[r], w)
    requires forall t :: HasSlot(w, t) ==>
      && HasSlot(v, t)
      && OldOrNew(g, RefAt(g[r], w, t), KidOf(w, t), h, RefAt(h[r], v, t), KidOf(v, t), low)
    ensures OldOrNew(g, r, w, h, r, v, low)
  {
    forall x | Under(g, r, w, x) ensures Under(h, r, v, x) || x >= low {
      if x != r {
        var t :| HasSlot(w, t) && Under(g, RefAt(g[r], w, t), KidOf(w, t), x);
        assert Under(h, RefAt(h[r], v, t), KidOf(v, t), x) || x >= low;
      }
    }
  }

  lemma ApartKept(h: Heap, g: Heap, r: Ref, v: Doc, t: Slot, u: Slot, w: Doc, low: Ref)
    requires Tree(h, r, v) && HasSlot(v, t) && HasSlot(v, u) && t != u && Below(h, r, v, low)
    requires r in g && g[r] == h[r] && Fits(g[r], w) && HasSlot(w, t) && HasSlot(w, u)
    requires v.List? == w.List?
    requires OldOrNew(g, RefAt(g[r], w, t), KidOf(w, t), h, RefAt(h[r], v, t), KidOf(v, t), low)
    requires OldOrNew(g, RefAt(g[r], w, u), KidOf(w, u), h, RefAt(h[r], v, u), KidOf(v, u), low)
    requires SameCells(g, RefAt(g[r], w, t), KidOf(w, t), h, RefAt(h[r], v, t), KidOf(v, t))
          || SameCells(g, RefAt(g[r], w, u), KidOf(w, u), h, RefAt(h[r], v, u), KidOf(v, u))
    ensures Apart(g, RefAt(g[r], w, t), KidOf(w, t), RefAt(g[r], w, u), KidOf(w, u))
  {
    OldBelow(h, r, v, t, low);
    OldBelow(h, r, v, u, low);
    assert Apart(h, RefAt(h[r], v, t), KidOf(v, t), RefAt(h[r], v, u), KidOf(v, u));
  }

  /** Editing at the end of a path is editing the part and plugging it back in. */
  lemma {:induction false} EditIsPlug(v: Doc, parts: seq<string>, key: string, x: Option<Doc>)
    ensures EditAt(v, parts + [key], x).Ok? <==> Get(v, parts).Ok? && EditLeaf(Get(v, parts).value, key, x).Ok?
    ensures EditAt(v, parts + [key], x).Ok? ==>
      var leaf := EditLeaf(Get(v, parts).value, key, x).value;
      EditAt(v, parts + [key], x) == Ok(Edited(PlugDown(v, parts, leaf.doc), leaf.change))
    ensures Get(v, parts).Err? ==> EditAt(v, parts + [key], x) == Err(Get(v, parts).error)
    ensures Get(v, parts).Ok? && EditLeaf(Get(v, parts).value, key, x).Err? ==>
      EditAt(v, parts + [key], x) == Err(EditLeaf(Get(v, parts).value, key, x).error)
    decreases |parts|
  {
    if parts == [] {
      assert parts + [key] == [key];
    } else {
      assert (parts + [key])[1..] == parts[1..] + [key];
      if Child(v, parts[0]).Ok? {
        EditIsPlug(Child(v, parts[0]).value, parts[1..], key, x);
      }
    }
  }

  // ---------------------------------------------------------------- memory

  /** Operations and diff entries as they are in memory, and what they stand for. */
  datatype HeapOp = SetTo(path: string, value: Ref) | Drop(path: string) | Other(name: string)
  datatype HeapEntry =
    | HeapAdded(path: string, value: Ref)
    | HeapReplaced(path: string, was: Ref, value: Ref)
    | HeapRemoved(path: string, was: Ref)

  ghost predicate StandsFor(h: Heap, hop: HeapOp, op: Operation) {
    match hop
    case SetTo(path, value) => op.Set? && op.path == path && Tree(h, value, op.value)
    case Drop(path) => op == Unset(path)
    case Other(name) => op == Unsupported(name)
  }

  /** The entry's documents are in memory, in cells from `low` on that the tree of `r` does not use. */
  ghost predicate Records(h: Heap, e: HeapEntry, entry: Entry, low: Ref, r: Ref, v: Doc) {
    match e
    case HeapAdded(path, value) => entry.Added? && entry.path == path && Kept(h, value, entry.value, low, r, v)
    case HeapReplaced(path, was, value) =>
      && entry.Replaced? && entry.path == path
      && Kept(h, was, entry.was, low, r, v) && Kept(h, value, entry.value, low, r, v)
    case HeapRemoved(path, was) => entry.Removed? && entry.path == path && Kept(h, was, entry.was, low, r, v)
  }

  ghost predicate Kept(h: Heap, q: Ref, w: Doc, low: Ref, r: Ref, v: Doc) {
    Tree(h, q, w) && From(h, q, w, low) && Apart(h, q, w, r, v)
  }

  /** Every cell of h is as it was. */
  predicate Unchanged(h: Heap, g: Heap) {
    forall x :: x in h ==> x in g && g[x] == h[x]
  }

  // ---------------------------------------------------------------- copies

  /** Trees made of cells from `low` on, no two of them sharing a cell. */
  ghost predicate Copies(h: Heap, kids: map<Slot, (Ref, Doc)>, low: Ref) {
    && (forall s :: s in kids ==> Tree(h, kids[s].0, kids[s].1) && From(h, kids[s].0, kids[s].1, low))
    && (forall s, t :: s in kids && t in kids && s != t ==> Apart(h, kids[s].0, kids[s].1, kids[t].0, kids[t].1))
  }

  lemma TreeBelow(h: Heap, r: Ref, v: Doc, next: Ref)
    requires Tree(h, r, v) && forall x :: x in h ==> x < next
    ensures Below(h, r, v, next)
  {
    forall x | Under(h, r, v, x) ensures x < next {
      UnderAllocated(h, r, v, x);
    }
  }

  lemma CopiesKept(before: Heap, after: Heap, kids: map<Slot, (Ref, Doc)>, low: Ref)
    requires Copies(before, kids, low) && Unchanged(before, after)
    ensures Copies(after, kids, low)
    ensures forall s :: s in kids ==> SameCells(after, kids[s].0, kids[s].1, before, kids[s].0, kids[s].1)
  {
    forall s | s in kids
      ensures Tree(after, kids[s].0, kids[s].1) && From(after, kids[s].0, kids[s].1, low)
      ensures SameCells(after, kids[s].0, kids[s].1, before, kids[s].0, kids[s].1)
    {
      Extended(before, kids[s].0, kids[s].1, after);
    }
  }

  lemma CopiesGrow(before: Heap, after: Heap, next: Ref, kids: map<Slot, (Ref, Doc)>, low: Ref, s: Slot, c: Ref, w: Doc)
    requires Copies(before, kids, low) && Unchanged(before, after) && (forall x :: x in before ==> x < next) && low <= next
    requires s !in kids && Tree(after, c, w) && From(after, c, w, next)
    ensures Copies(after, kids[s := (c, w)], low)
  {
    CopiesKept(before, after, kids, low);
    hide Tree, Under;
    forall t | t in kids
      ensures Apart(after, kids[t].0, kids[t].1, c, w) && Apart(after, c, w, kids[t].0, kids[t].1)
    {
      TreeBelow(before, kids[t].0, kids[t].1, next);
    }
  }

  /** A new cell over copies is a copy. */
  lemma CellOverCopies(h: Heap, r: Ref, v: Doc, kids: map<Slot, (Ref, Doc)>, low: Ref)
    requires Copies(h, kids, low) && r in h && Fits(h[r], v) && low <= r
    requires forall s :: HasSlot(v, s) ==> s in kids && kids[s] == (RefAt(h[r], v, s), KidOf(v, s))
    requires forall s :: s in kids ==> Below(h, kids[s].0, kids[s].1, r)
    ensures Tree(h, r, v) && From(h, r, v, low)
  {
    hide Apart;
    forall s, t | HasSlot(v, s) && HasSlot(v, t) && s != t
      ensures Apart(h, RefAt(h[r], v, s), KidOf(v, s), RefAt(h[r], v, t), KidOf(v, t))
    {
      assert Apart(h, kids[s].0, kids[s].1, kids[t].0, kids[t].1);
    }
    forall x | Under(h, r, v, x) ensures x >= low {
      if x != r {
        var s :| HasSlot(v, s) && Under(h, RefAt(h[r], v, s), KidOf(v, s), x);
        assert From(h, kids[s].0, kids[s].1, low);
      }
    }
  }

  lemma KidTree(h: Heap, r: Ref, v: Doc, s: Slot)
    requires Tree(h, r, v) && HasSlot(v, s)
    ensures Fits(h[r], v) && Tree(h, RefAt(h[r], v, s), KidOf(v, s))
  {
  }

  lemma TreeFits(h: Heap, r: Ref, v: Doc)
    requires Tree(h, r, v)
    ensures r in h && Fits(h[r], v)
  {
  }

  lemma NoCopies(h: Heap, low: Ref)
    ensures Copies(h, map[], low)
  {
  }

  // ---------------------------------------------------------------- edits of one cell

  /** The child of a cell, as _pointer_child finds it. */
  function CellChild(c: Cell, part: string): Result<Ref, EditError> {
    match c
    case ListCell(items) =>
      var i := ListIndex(part, |items|, false);
      if i.Err? then Err(i.error) else Ok(items[i.value])
    case DictCell(members) => if part in members then Ok(members[part]) else Err(NoSuchMember)
    case Atom(_) => Err(InsideScalar)
  }

  lemma CellChildAgrees(c: Cell, v: Doc, part: string)
    requires Fits(c, v)
    ensures Child(v, part).Err? ==> CellChild(c, part) == Err(Child(v, part).error)
    ensures Child(v, part).Ok? ==> CellChild(c, part) == Ok(RefAt(c, v, SlotOf(v, part)))
  {
  }

  /** The slots that stay when item i of n is exchanged, or appended when i is n. */
  function ListStays(n: nat, i: nat): map<Slot, Slot> {
    map j: nat | j < n && j != i :: Index(j) := Index(j)
  }

  /** Where the items come from when item i of n is removed. */
  function ListShifts(n: nat, i: nat): map<Slot, Slot> {
    map j: nat | j + 1 < n :: Index(j) := Past(i, j)
  }

  function Past(i: nat, j: nat): Slot {
    Index(if j < i then j else j + 1)
  }

  function DictStays(names: set<string>, key: string): map<Slot, Slot> {
    map k | k in names && k != key :: Name(k) := Name(k)
  }

  lemma ListSetFrom(h: Heap, g: Heap, p: Ref, v: Doc, i: nat, c: Ref, x: Doc, low: Ref)
    requires Tree(h, p, v) && v.List? && i < |v.items| && Tree(g, c, x) && From(g, c, x, low)
    requires p in g && Fits(h[p], v) && g[p] == ListCell(h[p].items[i := c])
    ensures (var w := List(v.items[i := x]);
      && Fits(g[p], w)
      && (forall s :: HasSlot(w, s) ==> KidFrom(h, g, p, v, w, s, ListStays(|v.items|, i), low))
      && Separate(w, ListStays(|v.items|, i)))
  {
    hide Tree, From, Under;
  }

  lemma ListAppendFrom(h: Heap, g: Heap, p: Ref, v: Doc, c: Ref, x: Doc, low: Ref)
    requires Tree(h, p, v) && v.List? && Tree(g, c, x) && From(g, c, x, low)
    requires p in g && Fits(h[p], v) && g[p] == ListCell(h[p].items + [c])
    ensures (var w := List(v.items + [x]);
      && Fits(g[p], w)
      && (forall s :: HasSlot(w, s) ==> KidFrom(h, g, p, v, w, s, ListStays(|v.items|, |v.items|), low))
      && Separate(w, ListStays(|v.items|, |v.items|)))
  {
    hide Tree, From, Under;
  }

  /** At most one new kid, and no old one twice. */
  ghost predicate Separate(w: Doc, from: map<Slot, Slot>) {
    forall s, t :: HasSlot(w, s) && HasSlot(w, t) && s != t ==>
      (s in from || t in from) && (s in from && t in from ==> from[s] != from[t])
  }

  lemma ListUnsetFrom(h: Heap, g: Heap, p: Ref, v: Doc, i: nat, low: Ref)
    requires Tree(h, p, v) && v.List? && i < |v.items|
    requires p in g && g[p] == ListCell(h[p].items[..i] + h[p].items[i + 1..])
    ensures (var w := List(v.items[..i] + v.items[i + 1..]);
      && Fits(g[p], w)
      && (forall s :: HasSlot(w, s) ==> KidFrom(h, g, p, v, w, s, ListShifts(|v.items|, i), low))
      && Separate(w, ListShifts(|v.items|, i)))
  {
  }

  lemma DictSetFrom(h: Heap, g: Heap, p: Ref, v: Doc, key: string, c: Ref, x: Doc, low: Ref)
    requires Tree(h, p, v) && v.Dict? && Tree(g, c, x) && From(g, c, x, low)
    requires p in g && g[p] == DictCell(h[p].members[key := c])
    ensures (var w := Dict(v.members[key := x]);
      && Fits(g[p], w)
      && (forall s :: HasSlot(w, s) ==> KidFrom(h, g, p, v, w, s, DictStays(v.members.Keys, key), low))
      && Separate(w, DictStays(v.members.Keys, key)))
  {
  }

  lemma DictUnsetFrom(h: Heap, g: Heap, p: Ref, v: Doc, key: string, low: Ref)
    requires Tree(h, p, v) && v.Dict? && key in v.members
    requires p in g && g[p] == DictCell(h[p].members - {key})
    ensures (var w := Dict(v.members - {key});
      && Fits(g[p], w)
      && (forall s :: HasSlot(w, s) ==> KidFrom(h, g, p, v, w, s, DictStays(v.members.Keys, key), low))
      && Separate(w, DictStays(v.members.Keys, key)))
  {
  }

  /** Writing one cell at the end of a path edits the whole tree there. */
  lemma Written(h: Heap, g: Heap, r: Ref, v: Doc, parts: seq<string>, p: Ref, w: Doc, from: map<Slot, Slot>, low: Ref)
    requires Tree(h, r, v) && Get(v, parts).Ok? && p == RefDown(h, r, v, parts) && Below(h, r, v, low)
    requires p in g && AllBut(h, g, p) && Fits(g[p], w) && Separate(w, from) && Tree(h, p, Get(v, parts).value)
    requires forall s :: HasSlot(w, s) ==> KidFrom(h, g, p, Get(v, parts).value, w, s, from, low)
    ensures Tree(g, r, PlugDown(v, parts, w)) && OldOrNew(g, r, PlugDown(v, parts, w), h, r, v, low)
  {
    DownIsUnder(h, r, v, parts);
    assert Below(h, p, Get(v, parts).value, low);
    hide Tree, Under, KidFrom, OldOrNew;
    CellReplaced(h, g, p, Get(v, parts).value, w, from, low);
    DownReplaced(h, g, r, v, parts, w, low);
  }

  // ---------------------------------------------------------------- what copies leave alone

  lemma {:induction false} RefDownKept(h: Heap, g: Heap, r: Ref, v: Doc, parts: seq<string>)
    requires Tree(h, r, v) && Tree(g, r, v) && Get(v, parts).Ok? && Unchanged(h, g)
    ensures RefDown(g, r, v, parts) == RefDown(h, r, v, parts)
    decreases |parts|
  {
    if parts != [] {
      RefDownKept(h, g, RefAt(h[r], v, SlotOf(v, parts[0])), Child(v, parts[0]).value, parts[1..]);
    }
  }

  /** The edited document and the cell to be edited, after some copies were made. */
  lemma Waiting(h: Heap, g: Heap, r: Ref, v: Doc, parts: seq<string>, p: Ref, low: Ref)
    requires Tree(h, r, v) && Get(v, parts).Ok? && p == RefDown(h, r, v, parts)
    requires Unchanged(h, g) && forall x :: x in h ==> x < low
    ensures Tree(g, r, v) && Below(g, r, v, low) && p == RefDown(g, r, v, parts) && SameCells(g, r, v, h, r, v)
    ensures p in h && p in g && g[p] == h[p] && p < low && Tree(g, p, Get(v, parts).value) && Under(h, r, v, p)
  {
    TreeBelow(h, r, v, low);
    Extended(h, r, v, g);
    RefDownKept(h, g, r, v, parts);
    DownIsUnder(g, r, v, parts);
    DownIsUnder(h, r, v, parts);
    UnderAllocated(h, r, v, p);
  }

  /** A copy made before the edit is apart from the edited tree, whose new cells came later. */
  lemma EarlierKept(h: Heap, g: Heap, q: Ref, x: Doc, low: Ref, mid: Ref, before: Heap, r: Ref, v: Doc, w: Doc)
    requires Tree(h, q, x) && From(h, q, x, low) && (forall c :: c in h ==> c < mid)
    requires forall c :: c in h && c >= low ==> c in g && g[c] == h[c]
    requires Below(before, r, v, low) && OldOrNew(g, r, w, before, r, v, mid)
    ensures Kept(g, q, x, low, r, w)
  {
    Extended(h, q, x, g);
    TreeBelow(h, q, x, mid);
  }

  /** A copy made after the edit is apart from the edited tree, all of whose cells were there. */
  lemma LaterKept(h: Heap, g: Heap, q: Ref, x: Doc, low: Ref, mid: Ref, r: Ref, w: Doc)
    requires Tree(g, q, x) && From(g, q, x, mid) && low <= mid && Unchanged(h, g)
    requires Tree(h, r, w) && forall c :: c in h ==> c < mid
    ensures Kept(g, q, x, low, r, w) && Tree(g, r, w) && SameCells(g, r, w, h, r, w)
  {
    TreeBelow(h, r, w, mid);
    Extended(h, r, w, g);
  }

  /** The document at r was edited: its cells are its old ones or new, and no other old cell changed. */
  ghost predicate EditedInPlace(h: Heap, g: Heap, r: Ref, v: Doc, w: Doc, low: Ref) {
    && Tree(g, r, w) && OldOrNew(g, r, w, h, r, v, low)
    && (forall x :: x in h && !Under(h, r, v, x) ==> x in g && g[x] == h[x])
  }

  lemma CopyStays(h: Heap, g: Heap, q: Ref, x: Doc, low: Ref)
    requires Tree(h, q, x) && From(h, q, x, low) && Unchanged(h, g)
    ensures Tree(g, q, x) && From(g, q, x, low)
  {
    Extended(h, q, x, g);
  }

  lemma KidApartFromCell(h: Heap, p: Ref, v: Doc, s: Slot, cell: Cell)
    requires Tree(h, p, v) && HasSlot(v, s) && Fits(h[p], v)
    ensures Tree(h[p := cell], RefAt(h[p], v, s), KidOf(v, s))
  {
    Extended(h, RefAt(h[p], v, s), KidOf(v, s), h[p := cell]);
  }

  lemma EditedThenCopied(h: Heap, written: Heap, g: Heap, r: Ref, v: Doc, w: Doc, p: Ref, low: Ref)
    requires AllBut(h, written, p) && Unchanged(written, g) && Under(h, r, v, p)
    requires Tree(g, r, w) && OldOrNew(written, r, w, h, r, v, low) && SameCells(g, r, w, written, r, w)
    ensures EditedInPlace(h, g, r, v, w, low)
  {
  }

  lemma FromLower(h: Heap, q: Ref, x: Doc, low: Ref, lower: Ref)
    requires From(h, q, x, low) && lower <= low
    ensures From(h, q, x, lower)
  {
  }

  /** A tree of new cells is not disturbed by overwriting an old one. */
  lemma NewTreeAt(h: Heap, p: Ref, cell: Cell, q: Ref, x: Doc, low: Ref)
    requires Tree(h, q, x) && From(h, q, x, low) && p < low
    ensures Tree(h[p := cell], q, x) && From(h[p := cell], q, x, low)
  {
    Extended(h, q, x, h[p := cell]);
  }

  /** Copies, then one cell of the document overwritten: an edit in place. */
  lemma EditedSince(h: Heap, mid: Heap, g: Heap, r: Ref, v: Doc, w: Doc, p: Ref, first: Ref, low: Ref)
    requires Unchanged(h, mid) && AllBut(mid, g, p) && Under(h, r, v, p) && first <= low
    requires SameCells(mid, r, v, h, r, v) && Tree(g, r, w) && OldOrNew(g, r, w, mid, r, v, low)
    ensures EditedInPlace(h, g, r, v, w, first)
  {
  }

  /** The members of a dict copied so far, and the ones still to do. */
  ghost predicate Tracked(copies: map<string, Ref>, kids: map<Slot, (Ref, Doc)>, todo: set<string>, v: Doc) {
    && v.Dict? && (forall k :: k in v.members <==> k in copies || k in todo) && (forall k :: !(k in copies && k in todo))
    && (forall k :: k in todo ==> Name(k) !in kids)
    && (forall k :: k in copies ==> Name(k) in kids && k in v.members && kids[Name(k)] == (copies[k], v.members[k]))
  }

  lemma NothingTracked(v: Doc)
    ensures v.Dict? ==> Tracked(map[], map[], v.members.Keys, v)
  {
  }

  lemma TrackedKey(copies: map<string, Ref>, kids: map<Slot, (Ref, Doc)>, todo: set<string>, v: Doc, k: string)
    requires Tracked(copies, kids, todo, v) && k in todo
    ensures HasSlot(v, Name(k)) && Name(k) !in kids
  {
  }

  lemma TrackedStep(copies: map<string, Ref>, kids: map<Slot, (Ref, Doc)>, todo: set<string>, v: Doc, k: string, copy: Ref)
    requires Tracked(copies, kids, todo, v) && k in todo && HasSlot(v, Name(k))
    ensures Tracked(copies[k := copy], kids[Name(k) := (copy, KidOf(v, Name(k)))], todo - {k}, v)
  {
  }

  lemma AllTracked(copies: map<string, Ref>, kids: map<Slot, (Ref, Doc)>, v: Doc)
    requires Tracked(copies, kids, {}, v)
    ensures Fits(DictCell(copies), v)
    ensures forall s :: HasSlot(v, s) ==> s in kids && kids[s] == (RefAt(DictCell(copies), v, s), KidOf(v, s))
  {
  }

  /** Some copies were made since `base`, and the cell p of the document at r is about to be edited. */
  ghost predicate Editing(base: Heap, h: Heap, r: Ref, v: Doc, parts: seq<string>, p: Ref, first: Ref) {
    && Tree(base, r, v) && Get(v, parts).Ok? && p == RefDown(base, r, v, parts) && Unchanged(base, h)
    && (forall x :: x in base ==> x < first)
    && p in h && Tree(h, p, Get(v, parts).value)
    && Tree(h, r, v) && OldOrNew(h, r, v, base, r, v, first)
  }

  lemma StartEditing(base: Heap, h: Heap, r: Ref, v: Doc, parts: seq<string>, p: Ref, first: Ref)
    requires Tree(base, r, v) && Get(v, parts).Ok? && p == RefDown(base, r, v, parts) && Unchanged(base, h)
    requires forall x :: x in base ==> x < first
    ensures Editing(base, h, r, v, parts, p, first)
  {
    hide Tree, Under;
    Waiting(base, h, r, v, parts, p, first);
    SameIsOld(h, r, v, base, v, first);
  }

  lemma StillEditing(base: Heap, h: Heap, g: Heap, r: Ref, v: Doc, parts: seq<string>, p: Ref, first: Ref, low: Ref)
    requires Editing(base, h, r, v, parts, p, first) && Unchanged(h, g) && first <= low
    ensures Tree(g, r, v) && Below(g, r, v, first) && Below(g, r, v, low) && p == RefDown(g, r, v, parts)
    ensures SameCells(g, r, v, base, r, v) && Unchanged(base, g) && Under(base, r, v, p)
    ensures p in g && g[p] == h[p] && p < first && Tree(g, p, Get(v, parts).value)
  {
    hide Tree, Under;
    Waiting(base, g, r, v, parts, p, first);
  }

  /** A copy made before the edit stays with the diff. */
  lemma WasKept(h: Heap, g: Heap, q: Ref, x: Doc, from: Ref, first: Ref, low: Ref, before: Heap, r: Ref, v: Doc, w: Doc, p: Ref)
    requires Tree(h, q, x) && From(h, q, x, from) && first <= from && (forall c :: c in h ==> c < low) && p < first
    requires Unchanged(h, before) && AllBut(before, g, p)
    requires Below(before, r, v, first) && OldOrNew(g, r, w, before, r, v, low)
    ensures Kept(g, q, x, first, r, w)
  {
    FromLower(h, q, x, from, first);
    EarlierKept(h, g, q, x, first, low, before, r, v, w);
  }

  class Memory {
    var cells: Heap
    var next: Ref

    ghost predicate Valid()
      reads this
    {
      forall x :: x in cells ==> x < next
    }

    method Allocate(c: Cell) returns (r: Ref)
      requires Valid()
      modifies this
      ensures Valid() && r == old(next) && next == old(next) + 1 && cells == old(cells)[r := c]
    {
      r := next;
      cells := cells[r := c];
      next := next + 1;
    }

    /** copy.deepcopy of a tree: a tree of new cells. */
    method DeepCopy(r: Ref, ghost v: Doc) returns (c: Ref)
      requires Valid() && Tree(cells, r, v)
      modifies this
      ensures Valid() && old(next) <= next && Unchanged(old(cells), cells)
      ensures Tree(cells, c, v) && From(cells, c, v, old(next))
      decreases v
    {
      match cells[r]
      case Atom(text) =>
        c := Allocate(Atom(text));
        assert v == Scalar(text);
      case ListCell(items) =>
        c := CopyList(r, items, v);
      case DictCell(members) =>
        c := CopyDict(r, members, v);
    }

    method CopyList(r: Ref, items: seq<Ref>, ghost v: Doc) returns (c: Ref)
      requires Valid() && Tree(cells, r, v) && cells[r] == ListCell(items)
      modifies this
      ensures Valid() && old(next) <= next && Unchanged(old(cells), cells)
      ensures Tree(cells, c, v) && From(cells, c, v, old(next))
      decreases v, 1
    {
      hide Tree, Under, From, Apart, Copies;
      NoCopies(cells, next);
      TreeFits(cells, r, v);
      var copies: seq<Ref> := [];
      ghost var kids: map<Slot, (Ref, Doc)> := map[];
      while |copies| < |items|
        invariant |copies| <= |items| && Valid() && old(next) <= next && Unchanged(old(cells), cells)
        invariant Copies(cells, kids, old(next))
        invariant forall s :: s in kids <==> s.Index? && s.i < |copies|
        invariant forall j: nat :: j < |copies| ==> kids[Index(j)] == (copies[j], v.items[j])
      {
        var i := |copies|;
        var copy := CopyKid(items[i], old(cells), r, v, Index(i), kids, old(next));
        copies, kids := copies + [copy], kids[Index(i) := (copy, v.items[i])];
      }
      c := Seal(ListCell(copies), v, kids, old(next));
    }

    method CopyDict(r: Ref, members: map<string, Ref>, ghost v: Doc) returns (c: Ref)
      requires Valid() && Tree(cells, r, v) && cells[r] == DictCell(members)
      modifies this
      ensures Valid() && old(next) <= next && Unchanged(old(cells), cells)
      ensures Tree(cells, c, v) && From(cells, c, v, old(next))
      decreases v, 1
    {
      hide Tree, Under, From, Apart, Copies, Tracked;
      NoCopies(cells, next);
      TreeFits(cells, r, v);
      var copies: map<string, Ref> := map[];
      var todo := members.Keys;
      ghost var kids: map<Slot, (Ref, Doc)> := map[];
      NothingTracked(v);
      while todo != {}
        invariant Valid() && old(next) <= next && Unchanged(old(cells), cells)
        invariant Copies(cells, kids, old(next)) && Tracked(copies, kids, todo, v)
        decreases |todo|
      {
        var k :| k in todo;
        TrackedKey(copies, kids, todo, v, k);
        var copy := CopyKid(members[k], old(cells), r, v, Name(k), kids, old(next));
        TrackedStep(copies, kids, todo, v, k, copy);
        todo, copies, kids := todo - {k}, copies[k := copy], kids[Name(k) := (copy, KidOf(v, Name(k)))];
      }
      AllTracked(copies, kids, v);
      c := Seal(DictCell(copies), v, kids, old(next));
    }

    /** Copy one kid of a tree of an earlier memory, apart from the copies there are. */
    method CopyKid(kid: Ref, ghost base: Heap, ghost r: Ref, ghost v: Doc, ghost s: Slot,
                   ghost kids: map<Slot, (Ref, Doc)>, ghost low: Ref) returns (c: Ref)
      requires Valid() && Tree(base, r, v) && Unchanged(base, cells)
      requires HasSlot(v, s) && Fits(base[r], v) && kid == RefAt(base[r], v, s)
      requires Copies(cells, kids, low) && s !in kids && low <= next
      modifies this
      ensures Valid() && old(next) <= next && Unchanged(old(cells), cells)
      ensures Copies(cells, kids[s := (c, KidOf(v, s))], low)
      decreases v, 0
    {
      hide Tree, Under, From, Apart, Copies;
      KidTree(base, r, v, s);
      Extended(base, kid, KidOf(v, s), cells);
      c := DeepCopy(kid, KidOf(v, s));
      CopiesGrow(old(cells), cells, old(next), kids, low, s, c, KidOf(v, s));
    }

    /** Put a new cell over its copied kids. */
    method Seal(cell: Cell, ghost v: Doc, ghost kids: map<Slot, (Ref, Doc)>, ghost low: Ref) returns (c: Ref)
      requires Valid() && low <= next && Fits(cell, v) && Copies(cells, kids, low)
      requires forall s :: HasSlot(v, s) ==> s in kids && kids[s] == (RefAt(cell, v, s), KidOf(v, s))
      modifies this
      ensures Valid() && old(next) <= next && Unchanged(old(cells), cells)
      ensures Tree(cells, c, v) && From(cells, c, v, low)
    {
      c := Allocate(cell);
      CopiesKept(old(cells), cells, kids, low);
      forall s | s in kids ensures Below(cells, kids[s].0, kids[s].1, c) {
        TreeBelow(old(cells), kids[s].0, kids[s].1, c);
      }
      CellOverCopies(cells, c, v, kids, low);
    }

    // -------------------------------------------------------------- one operation, in place

    /** Follow the path through the references. */
    method Walk(root: Ref, parts: seq<string>, ghost v: Doc) returns (r: Result<Ref, EditError>)
      requires Tree(cells, root, v)
      ensures Get(v, parts).Err? ==> r == Err(Get(v, parts).error)
      ensures Get(v, parts).Ok? ==> r == Ok(RefDown(cells, root, v, parts))
    {
      var p, i := root, 0;
      ghost var d := v;
      assert parts[0..] == parts;
      while i < |parts|
        invariant 0 <= i <= |parts| && Tree(cells, p, d)
        invariant Get(v, parts) == Get(d, parts[i..])
        invariant Get(v, parts).Ok? ==> RefDown(cells, root, v, parts) == RefDown(cells, p, d, parts[i..])
      {
        assert parts[i..][0] == parts[i] && parts[i..][1..] == parts[i + 1..];
        CellChildAgrees(cells[p], d, parts[i]);
        var child := CellChild(cells[p], parts[i]);
        if child.Err? {
          return Err(child.error);
        }
        p, d, i := child.value, Child(d, parts[i]).value, i + 1;
      }
      assert parts[i..] == [];
      return Ok(p);
    }

    /** Overwrite the cell at the end of the path. */
    method Write(root: Ref, p: Ref, cell: Cell, ghost v: Doc, ghost parts: seq<string>, ghost w: Doc,
                 ghost from: map<Slot, Slot>, ghost low: Ref)
      requires Valid() && Tree(cells, root, v) && Get(v, parts).Ok? && p == RefDown(cells, root, v, parts)
      requires p in cells && Below(cells, root, v, low) && Tree(cells, p, Get(v, parts).value)
      requires Fits(cell, w) && Separate(w, from)
      requires forall s :: HasSlot(w, s) ==> KidFrom(cells, cells[p := cell], p, Get(v, parts).value, w, s, from, low)
      modifies this`cells
      ensures Valid() && cells == old(cells)[p := cell]
      ensures Tree(cells, root, PlugDown(v, parts, w))
      ensures OldOrNew(cells, root, PlugDown(v, parts, w), old(cells), root, v, low)
    {
      cells := cells[p := cell];
      Written(old(cells), cells, root, v, parts, p, w, from, low);
    }

    /** Write the cell, and copy what was submitted once more for the diff. */
    method WriteAndShow(root: Ref, p: Ref, cell: Cell, submitted: Ref, ghost v: Doc, ghost parts: seq<string>,
                        ghost w: Doc, ghost from: map<Slot, Slot>, ghost x: Doc, ghost low: Ref, ghost first: Ref)
      returns (shown: Ref)
      requires Valid() && Tree(cells, root, v) && Get(v, parts).Ok? && p == RefDown(cells, root, v, parts)
      requires p in cells && p < first <= low <= next && Below(cells, root, v, low) && Tree(cells, p, Get(v, parts).value)
      requires Fits(cell, w) && Separate(w, from)
      requires forall s :: HasSlot(w, s) ==> KidFrom(cells, cells[p := cell], p, Get(v, parts).value, w, s, from, low)
      requires Tree(cells, submitted, x) && From(cells, submitted, x, first)
      modifies this
      ensures Valid() && old(next) <= next && AllBut(old(cells), cells, p)
      ensures Tree(cells, root, PlugDown(v, parts, w))
      ensures OldOrNew(cells, root, PlugDown(v, parts, w), old(cells), root, v, low)
      ensures Kept(cells, shown, x, first, root, PlugDown(v, parts, w))
    {
      hide Tree, Under, KidFrom, Separate;
      Write(root, p, cell, v, parts, w, from, low);
      Extended(old(cells), submitted, x, cells);
      ghost var written, mid := cells, next;
      shown := DeepCopy(submitted, x);
      LaterKept(written, cells, shown, x, first, mid, root, PlugDown(v, parts, w));
    }

    /** Append a copy of what was submitted to the list at p. */
    method AppendItem(root: Ref, p: Ref, path: string, submitted: Ref, ghost base: Heap, ghost v: Doc,
                      ghost parts: seq<string>, ghost x: Doc, ghost first: Ref)
      returns (r: HeapEntry)
      requires Valid() && Editing(base, cells, root, v, parts, p, first) && first <= next
      requires Tree(cells, submitted, x) && From(cells, submitted, x, first)
      requires Get(v, parts).value.List? && Fits(cells[p], Get(v, parts).value)
      modifies this
      ensures Valid() && old(next) <= next
      ensures (var w := PlugDown(v, parts, List(Get(v, parts).value.items + [x]));
        EditedInPlace(base, cells, root, v, w, first) && Records(cells, r, Added(path, x), first, root, w))
    {
      hide Tree, Under, KidFrom, Separate, From, OldOrNew, Below, SameCells, EditedInPlace, Kept;
      ghost var d, low := Get(v, parts).value, next;
      var placed := DeepCopy(submitted, x);
      ghost var h := cells;
      CopyStays(old(cells), h, submitted, x, first);
      StillEditing(base, old(cells), h, root, v, parts, p, first, low);
      var cell := ListCell(cells[p].items + [placed]);
      NewTreeAt(h, p, cell, placed, x, low);
      ListAppendFrom(h, h[p := cell], p, d, placed, x, low);
      var shown := WriteAndShow(root, p, cell, submitted, v, parts, List(d.items + [x]), ListStays(|d.items|, |d.items|), x,
                                low, first);
      EditedSince(base, h, cells, root, v, PlugDown(v, parts, List(d.items + [x])), p, first, low);
      return HeapAdded(path, shown);
    }

    /** Exchange an item of the list at p for a copy of what was submitted. */
    method ExchangeItem(root: Ref, p: Ref, path: string, i: nat, submitted: Ref, ghost base: Heap, ghost v: Doc,
                        ghost parts: seq<string>, ghost x: Doc, ghost first: Ref)
      returns (r: HeapEntry)
      requires Valid() && Editing(base, cells, root, v, parts, p, first) && first <= next
      requires Tree(cells, submitted, x) && From(cells, submitted, x, first)
      requires Get(v, parts).value.List? && Fits(cells[p], Get(v, parts).value) && i < |Get(v, parts).value.items|
      modifies this
      ensures Valid() && old(next) <= next
      ensures (var items := Get(v, parts).value.items;
        var w := PlugDown(v, parts, List(items[i := x]));
        EditedInPlace(base, cells, root, v, w, first) && Records(cells, r, Replaced(path, items[i], x), first, root, w))
    {
      hide Tree, Under, KidFrom, Separate, From, OldOrNew, Below, SameCells, EditedInPlace, Kept;
      ghost var d := Get(v, parts).value;
      KidTree(cells, p, d, Index(i));
      var was := DeepCopy(cells[p].items[i], d.items[i]);
      ghost var h2, low := cells, next;
      CopyStays(old(cells), h2, submitted, x, first);
      var placed := DeepCopy(submitted, x);
      ghost var h := cells;
      CopyStays(h2, h, submitted, x, first);
      StillEditing(base, old(cells), h, root, v, parts, p, first, low);
      var cell := ListCell(cells[p].items[i := placed]);
      NewTreeAt(h, p, cell, placed, x, low);
      ListSetFrom(h, h[p := cell], p, d, i, placed, x, low);
      var shown := WriteAndShow(root, p, cell, submitted, v, parts, List(d.items[i := x]), ListStays(|d.items|, i), x, low, first);
      ghost var w := PlugDown(v, parts, List(d.items[i := x]));
      EditedSince(base, h, cells, root, v, w, p, first, low);
      WasKept(h2, cells, was, d.items[i], old(next), first, low, h, root, v, w, p);
      return HeapReplaced(path, was, shown);
    }

    /** Put a copy of what was submitted under a name of the dict at p; `was` is a copy of what the
        name held. */
    method PutMember(root: Ref, p: Ref, key: string, submitted: Ref, was: Option<Ref>, ghost prior: Option<Doc>,
                     ghost base: Heap, ghost v: Doc, ghost parts: seq<string>, ghost x: Doc, ghost first: Ref)
      returns (shown: Ref)
      requires Valid() && Editing(base, cells, root, v, parts, p, first) && first <= next
      requires Tree(cells, submitted, x) && From(cells, submitted, x, first)
      requires Get(v, parts).value.Dict? && Fits(cells[p], Get(v, parts).value)
      requires was.Some? <==> prior.Some?
      requires was.Some? ==> Tree(cells, was.value, prior.value) && From(cells, was.value, prior.value, first)
      modifies this
      ensures Valid() && old(next) <= next
      ensures (var w := PlugDown(v, parts, Dict(Get(v, parts).value.members[key := x]));
        && EditedInPlace(base, cells, root, v, w, first) && Kept(cells, shown, x, first, root, w)
        && (was.Some? ==> Kept(cells, was.value, prior.value, first, root, w)))
    {
      hide Tree, Under, KidFrom, Separate, From, OldOrNew, Below, SameCells, EditedInPlace, Kept;
      ghost var d, low := Get(v, parts).value, next;
      var placed := DeepCopy(submitted, x);
      ghost var h := cells;
      CopyStays(old(cells), h, submitted, x, first);
      StillEditing(base, old(cells), h, root, v, parts, p, first, low);
      var cell := DictCell(cells[p].members[key := placed]);
      NewTreeAt(h, p, cell, placed, x, low);
      DictSetFrom(h, h[p := cell], p, d, key, placed, x, low);
      shown := WriteAndShow(root, p, cell, submitted, v, parts, Dict(d.members[key := x]), DictStays(d.members.Keys, key), x,
                            low, first);
      ghost var w := PlugDown(v, parts, Dict(d.members[key := x]));
      EditedSince(base, h, cells, root, v, w, p, first, low);
      if was.Some? {
        WasKept(old(cells), cells, was.value, prior.value, first, first, low, h, root, v, w, p);
      }
    }

    /** Exchange, or append, an item of the list at p. */
    method SetInList(root: Ref, p: Ref, path: string, key: string, value: Ref, ghost v: Doc, ghost parts: seq<string>, ghost x: Doc)
      returns (r: Result<HeapEntry, EditError>)
      requires Valid() && Tree(cells, root, v) && Get(v, parts).Ok? && p == RefDown(cells, root, v, parts)
      requires Tree(cells, value, x) && Get(v, parts).value.List?
      modifies this
      ensures Valid() && old(next) <= next
      ensures EditOutcome(old(cells), cells, root, v, parts, path, key, Some(x), old(next), r)
    {
      hide Tree, Under, KidFrom, Separate, From, OldOrNew, Below, SameCells, EditedInPlace, Kept;
      ghost var first := next;
      var submitted := DeepCopy(value, x);
      StartEditing(old(cells), cells, root, v, parts, p, first);
      TreeFits(cells, p, Get(v, parts).value);
      var i := ListIndex(key, |cells[p].items|, true);
      if i.Err? {
        return Err(i.error);
      }
      var entry;
      if i.value == |cells[p].items| {
        entry := AppendItem(root, p, path, submitted, old(cells), v, parts, x, first);
      } else {
        entry := ExchangeItem(root, p, path, i.value, submitted, old(cells), v, parts, x, first);
      }
      return Ok(entry);
    }

    /** Add, or exchange, a member of the dict at p. */
    method SetInDict(root: Ref, p: Ref, path: string, key: string, value: Ref, ghost v: Doc, ghost parts: seq<string>, ghost x: Doc)
      returns (r: Result<HeapEntry, EditError>)
      requires Valid() && Tree(cells, root, v) && Get(v, parts).Ok? && p == RefDown(cells, root, v, parts)
      requires Tree(cells, value, x) && Get(v, parts).value.Dict?
      modifies this
      ensures Valid() && old(next) <= next
      ensures EditOutcome(old(cells), cells, root, v, parts, path, key, Some(x), old(next), r)
    {
      hide Tree, Under, KidFrom, Separate, From, OldOrNew, Below, SameCells, EditedInPlace, Kept;
      ghost var d, first := Get(v, parts).value, next;
      var submitted := DeepCopy(value, x);
      StartEditing(old(cells), cells, root, v, parts, p, first);
      TreeFits(cells, p, d);
      if key !in cells[p].members {
        var shown := PutMember(root, p, key, submitted, None, None, old(cells), v, parts, x, first);
        return Ok(HeapAdded(path, shown));
      }
      ghost var h1, mid := cells, next;
      KidTree(cells, p, d, Name(key));
      var was := DeepCopy(cells[p].members[key], d.members[key]);
      CopyStays(h1, cells, submitted, x, first);
      FromLower(cells, was, d.members[key], mid, first);
      StartEditing(old(cells), cells, root, v, parts, p, first);
      var shown := PutMember(root, p, key, submitted, Some(was), Some(d.members[key]), old(cells), v, parts, x, first);
      return Ok(HeapReplaced(path, was, shown));
    }

    /** Write the cell that the item or member was taken from, and copy what was taken for the diff. */
    method TakeOut(root: Ref, p: Ref, cell: Cell, path: string, taken: Ref, ghost v: Doc, ghost parts: seq<string>,
                   ghost w: Doc, ghost from: map<Slot, Slot>, ghost s: Slot)
      returns (r: HeapEntry)
      requires Valid() && Tree(cells, root, v) && Get(v, parts).Ok? && p == RefDown(cells, root, v, parts)
      requires HasSlot(Get(v, parts).value, s) && p in cells && Fits(cells[p], Get(v, parts).value)
      requires taken == RefAt(cells[p], Get(v, parts).value, s) && Tree(cells, p, Get(v, parts).value)
      requires Fits(cell, w) && Separate(w, from)
      requires forall t :: HasSlot(w, t) ==> KidFrom(cells, cells[p := cell], p, Get(v, parts).value, w, t, from, next)
      modifies this
      ensures Valid() && old(next) <= next
      ensures EditedInPlace(old(cells), cells, root, v, PlugDown(v, parts, w), old(next))
      ensures Records(cells, r, Removed(path, KidOf(Get(v, parts).value, s)), old(next), root, PlugDown(v, parts, w))
    {
      hide Tree, Under, KidFrom, Separate, From, OldOrNew, Below, SameCells;
      ghost var d, first := Get(v, parts).value, next;
      Waiting(cells, cells, root, v, parts, p, first);
      KidApartFromCell(cells, p, d, s, cell);
      Write(root, p, cell, v, parts, w, from, first);
      ghost var written := cells;
      var was := DeepCopy(taken, KidOf(d, s));
      LaterKept(written, cells, was, KidOf(d, s), first, first, root, PlugDown(v, parts, w));
      SameIsOld(cells, root, PlugDown(v, parts, w), written, PlugDown(v, parts, w), first);
      EditedThenCopied(old(cells), written, cells, root, v, PlugDown(v, parts, w), p, first);
      return HeapRemoved(path, was);
    }

    /** Pop the item, or the member, at the end of the path. */
    method UnsetIn(root: Ref, p: Ref, path: string, key: string, ghost v: Doc, ghost parts: seq<string>)
      returns (r: Result<HeapEntry, EditError>)
      requires Valid() && Tree(cells, root, v) && Get(v, parts).Ok? && p == RefDown(cells, root, v, parts)
      modifies this
      ensures Valid() && old(next) <= next
      ensures EditOutcome(old(cells), cells, root, v, parts, path, key, None, old(next), r)
    {
      hide Tree, Under, KidFrom, Separate, From, OldOrNew, Below, SameCells;
      ghost var d := Get(v, parts).value;
      Waiting(cells, cells, root, v, parts, p, next);
      TreeFits(cells, p, d);
      SameIsOld(cells, root, v, cells, v, next);
      match cells[p]
      case Atom(_) => return Err(InsideScalar);
      case ListCell(items) =>
        var i := ListIndex(key, |items|, false);
        if i.Err? {
          return Err(i.error);
        }
        var cell := ListCell(items[..i.value] + items[i.value + 1..]);
        ListUnsetFrom(cells, cells[p := cell], p, d, i.value, next);
        var entry := TakeOut(root, p, cell, path, items[i.value], v, parts, List(d.items[..i.value] + d.items[i.value + 1..]),
                             ListShifts(|d.items|, i.value), Index(i.value));
        return Ok(entry);
      case DictCell(members) =>
        if key !in members {
          return Err(NoSuchMember);
        }
        var cell := DictCell(members - {key});
        DictUnsetFrom(cells, cells[p := cell], p, d, key, next);
        var entry := TakeOut(root, p, cell, path, members[key], v, parts, Dict(d.members - {key}),
                             DictStays(d.members.Keys, key), Name(key));
        return Ok(entry);
    }

    /** The edit of the cell that the path leads to. */
    method EditCell(root: Ref, p: Ref, hop: HeapOp, key: string, ghost v: Doc, ghost parts: seq<string>, ghost op: Operation)
      returns (r: Result<HeapEntry, EditError>)
      requires Valid() && Tree(cells, root, v) && Get(v, parts).Ok? && p == RefDown(cells, root, v, parts)
      requires StandsFor(cells, hop, op) && !hop.Other?
      modifies this
      ensures Valid() && old(next) <= next
      ensures EditOutcome(old(cells), cells, root, v, parts, op.path, key, Submitted(op), old(next), r)
    {
      DownIsUnder(cells, root, v, parts);
      TreeFits(cells, p, Get(v, parts).value);
      SameIsOld(cells, root, v, cells, v, next);
      hide Tree, Under, Records, EditedInPlace, OldOrNew;
      match hop
      case Drop(path) => r := UnsetIn(root, p, path, key, v, parts);
      case SetTo(path, value) =>
        match cells[p]
        case Atom(_) => return Err(InsideScalar);
        case ListCell(_) => r := SetInList(root, p, path, key, value, v, parts, op.value);
        case DictCell(_) => r := SetInDict(root, p, path, key, value, v, parts, op.value);
    }

    /** One operation of the list, in the order the source checks and does things. */
    method ApplyOperation(root: Ref, hop: HeapOp, ghost v: Doc, ghost op: Operation) returns (r: Result<HeapEntry, EditError>)
      requires Valid() && Tree(cells, root, v) && StandsFor(cells, hop, op)
      modifies this
      ensures Valid() && old(next) <= next
      ensures OpOutcome(old(cells), cells, root, v, op, old(next), r)
    {
      if hop.Other? {
        return Err(UnsupportedOperation);
      }
      var parsed := PointerParts(hop.path);
      if parsed.Err? {
        return Err(BadPath(parsed.error));
      }
      if parsed.value == [] {
        return Err(IsRoot);
      }
      var n := |parsed.value| - 1;
      var front, key := parsed.value[..n], parsed.value[n];
      assert parsed.value == front + [key];
      EditIsPlug(v, front, key, Submitted(op));
      var at := Walk(root, front, v);
      if at.Err? {
        return Err(at.error);
      }
      r := EditCell(root, at.value, hop, key, v, front, op);
      OutcomeOfOp(old(cells), cells, root, v, front, key, op, old(next), r);
    }

    /** Deep-copy the document, edit the copy operation by operation, and list what each one did. */
    method ApplyOperations(document: Ref, hops: seq<HeapOp>, ghost v: Doc, ghost ops: seq<Operation>)
      returns (r: Result<(Ref, seq<HeapEntry>), EditError>)
      requires Valid() && Tree(cells, document, v)
      requires |hops| == |ops| && forall k :: 0 <= k < |hops| ==> StandsFor(cells, hops[k], ops[k])
      modifies this
      ensures Valid() && Unchanged(old(cells), cells)
      ensures Apply(v, ops).Err? ==> r == Err(Apply(v, ops).error)
      ensures Apply(v, ops).Ok? ==>
        && r.Ok? && Tree(cells, r.value.0, Apply(v, ops).value.doc)
        && Diffs(cells, r.value.1, Apply(v, ops).value.diff, old(next), r.value.0, Apply(v, ops).value.doc)
    {
      TreeFits(cells, document, v);
      if !cells[document].DictCell? {
        return Err(NotAnObject);
      }
      hide Tree, Under, From, Records, EditedInPlace, StandsFor, ApplyOne;
      var candidate := DeepCopy(document, v);
      var diff: seq<HeapEntry> := [];
      var i := 0;
      ghost var done := Outcome(v, []);
      while i < |hops|
        invariant 0 <= i <= |hops| && Valid() && old(next) <= next && Unchanged(old(cells), cells)
        invariant ApplyAll(v, ops[..i]) == Ok(done)
        invariant Tree(cells, candidate, done.doc) && From(cells, candidate, done.doc, old(next))
        invariant Diffs(cells, diff, done.diff, old(next), candidate, done.doc)
      {
        StandsStill(old(cells), cells, hops[i], ops[i]);
        ghost var h, low := cells, next;
        OneMore(v, ops, i);
        var entry := ApplyOperation(candidate, hops[i], done.doc, ops[i]);
        if entry.Err? {
          return Err(entry.error);
        }
        ghost var a := ApplyOne(done.doc, ops[i]).value;
        CandidateEdited(old(cells), h, cells, candidate, done.doc, a.doc, old(next), low);
        DiffsGrow(h, cells, diff, done.diff, entry.value, a.entry, old(next), candidate, done.doc, a.doc, low);
        diff, done, i := diff + [entry.value], Outcome(a.doc, done.diff + [a.entry]), i + 1;
      }
      assert ops[..i] == ops;
      return Ok((candidate, diff));
    }
  }

  /** What one operation must leave behind: the edited tree, its diff entry, and every other cell. */
  ghost predicate OpOutcome(h: Heap, g: Heap, root: Ref, v: Doc, op: Operation, low: Ref, r: Result<HeapEntry, EditError>) {
    match ApplyOne(v, op)
    case Err(e) => r == Err(e) && Unchanged(h, g)
    case Ok(a) => r.Ok? && EditedInPlace(h, g, root, v, a.doc, low) && Records(g, r.value, a.entry, low, root, a.doc)
  }

  lemma OutcomeOfOp(h: Heap, g: Heap, root: Ref, v: Doc, parts: seq<string>, key: string, op: Operation, low: Ref,
                    r: Result<HeapEntry, EditError>)
    requires !op.Unsupported? && Parse(op.path) == Ok(parts + [key]) && Get(v, parts).Ok?
    requires EditOutcome(h, g, root, v, parts, op.path, key, Submitted(op), low, r)
    ensures OpOutcome(h, g, root, v, op, low, r)
  {
    hide Records, EditedInPlace, OldOrNew, Tree;
    EditIsPlug(v, parts, key, Submitted(op));
    if EditAt(v, parts + [key], Submitted(op)).Ok? {
      ChangeMatches(v, parts + [key], Submitted(op));
    }
  }

  /** The diff in memory is the diff, kept apart from the candidate. */
  ghost predicate Diffs(h: Heap, diff: seq<HeapEntry>, entries: seq<Entry>, low: Ref, r: Ref, v: Doc) {
    |diff| == |entries| && forall k :: 0 <= k < |diff| ==> Records(h, diff[k], entries[k], low, r, v)
  }

  lemma {:induction false} ErrorPersists(v: Doc, ops: seq<Operation>, k: nat)
    requires k <= |ops| && ApplyAll(v, ops[..k]).Err?
    ensures ApplyAll(v, ops) == ApplyAll(v, ops[..k])
    decreases |ops|
  {
    if k < |ops| {
      assert ops[..|ops| - 1][..k] == ops[..k];
      ErrorPersists(v, ops[..|ops| - 1], k);
    } else {
      assert ops[..k] == ops;
    }
  }

  lemma OneMore(v: Doc, ops: seq<Operation>, i: nat)
    requires i < |ops| && ApplyAll(v, ops[..i]).Ok?
    ensures (var done := ApplyAll(v, ops[..i]).value;
      var a := ApplyOne(done.doc, ops[i]);
      && (a.Ok? ==> ApplyAll(v, ops[..i + 1]) == Ok(Outcome(a.value.doc, done.diff + [a.value.entry])))
      && (a.Err? ==> ApplyAll(v, ops) == Err(a.error)))
  {
    assert ops[..i + 1][..i] == ops[..i];
    if ApplyAll(v, ops[..i + 1]).Err? {
      ErrorPersists(v, ops, i + 1);
    }
  }

  /** The candidate is made of its own cells still, and everything older is untouched. */
  lemma CandidateEdited(first: Heap, h: Heap, g: Heap, r: Ref, v: Doc, w: Doc, base: Ref, low: Ref)
    requires Unchanged(first, h) && EditedInPlace(h, g, r, v, w, low) && From(h, r, v, base) && base <= low
    requires forall x :: x in first ==> x < base
    ensures Unchanged(first, g) && Tree(g, r, w) && From(g, r, w, base)
  {
  }

  lemma KeptStays(h: Heap, g: Heap, q: Ref, x: Doc, base: Ref, r: Ref, v: Doc, w: Doc, low: Ref)
    requires Kept(h, q, x, base, r, v) && EditedInPlace(h, g, r, v, w, low) && forall c :: c in h ==> c < low
    ensures Kept(g, q, x, base, r, w)
  {
    Extended(h, q, x, g);
    TreeBelow(h, q, x, low);
  }

  lemma DiffsGrow(h: Heap, g: Heap, diff: seq<HeapEntry>, entries: seq<Entry>, e: HeapEntry, entry: Entry, base: Ref,
                  r: Ref, v: Doc, w: Doc, low: Ref)
    requires Diffs(h, diff, entries, base, r, v) && EditedInPlace(h, g, r, v, w, low) && base <= low
    requires (forall c :: c in h ==> c < low) && Records(g, e, entry, low, r, w)
    ensures Diffs(g, diff + [e], entries + [entry], base, r, w)
  {
    forall k | 0 <= k < |diff| ensures Records(g, diff[k], entries[k], base, r, w) {
      assert Records(h, diff[k], entries[k], base, r, v);
      if !diff[k].HeapRemoved? {
        KeptStays(h, g, diff[k].value, entries[k].value, base, r, v, w, low);
      }
      if !diff[k].HeapAdded? {
        KeptStays(h, g, diff[k].was, entries[k].was, base, r, v, w, low);
      }
    }
    RecordsLower(g, e, entry, low, base, r, w);
    hide Records;
    forall k | 0 <= k < |diff + [e]| ensures Records(g, (diff + [e])[k], (entries + [entry])[k], base, r, w) {
    }
  }

  lemma RecordsLower(g: Heap, e: HeapEntry, entry: Entry, low: Ref, base: Ref, r: Ref, w: Doc)
    requires Records(g, e, entry, low, r, w) && base <= low
    ensures Records(g, e, entry, base, r, w)
  {
  }

  lemma StandsStill(h: Heap, g: Heap, hop: HeapOp, op: Operation)
    requires StandsFor(h, hop, op) && Unchanged(h, g)
    ensures StandsFor(g, hop, op)
  {
    if hop.SetTo? {
      Extended(h, hop.value, op.value, g);
    }
  }

  /** What one edit at the end of a path must leave behind. */
  ghost predicate EditOutcome(h: Heap, g: Heap, root: Ref, v: Doc, parts: seq<string>, path: string, key: string,
                          x: Option<Doc>, low: Ref, r: Result<HeapEntry, EditError>)
    requires Get(v, parts).Ok?
  {
    match EditLeaf(Get(v, parts).value, key, x)
    case Err(e) => r == Err(e) && Unchanged(h, g) && Tree(g, root, v) && OldOrNew(g, root, v, h, root, v, low)
    case Ok(leaf) =>
      var w := PlugDown(v, parts, leaf.doc);
      r.Ok? && EditedInPlace(h, g, root, v, w, low) && Records(g, r.value, EntryAt(path, x, leaf.change), low, root, w)
  }

  function EntryAt(path: string, x: Option<Doc>, change: Change): Entry {
    if x.None? then Removed(path, if change.Removing? then change.prior else Scalar(""))
    else match change
      case Replacing(prior) => Replaced(path, prior, x.value)
      case _ => Added(path, x.value)
  }
}
