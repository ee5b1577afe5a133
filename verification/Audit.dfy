/**
 * The redaction walk over tool params before they reach the audit log: any object graph, shared or
 * cyclic. A heap maps references to containers; what is not an array or a plain object is a leaf.
 */
module Audit {
  import opened Sequences

  const PARAMS_MAX_DEPTH: nat := 16

  /** A leaf is a primitive or the text the walk writes for a function, date, URL, bytes or other object. */
  datatype Value = Leaf(text: string) | Ref(id: nat)

  /** A property or an array slot, as its own descriptor shows it. */
  datatype Slot = Data(value: Value) | Accessor | Absent

  datatype Entry = Entry(key: string, slot: Slot)

  datatype Container = Array(items: seq<Slot>) | Object(entries: seq<Entry>)

  type Heap = nat -> Container

  type Sensitive = string -> bool

  datatype Field = Field(key: string, out: Out)

  datatype Out =
    | Text(text: string)
    | Undefined
    | Redacted
    | AccessorMark
    | Circular
    | Truncated
    | List(items: seq<Out>)
    | Record(fields: seq<Field>)

  // ------------------------------------------------------------------ the walk by paths

  /** What is written for a value, given the containers on the way down to it. */
  function Walk(h: Heap, s: Sensitive, value: Value, path: seq<nat>): Out
    decreases PARAMS_MAX_DEPTH + 1 - |path|, 1
  {
    match value
    case Leaf(text) => Text(text)
    case Ref(id) =>
      if id in path then Circular
      else if |path| > PARAMS_MAX_DEPTH then Truncated
      else Inside(h, s, id, path + [id])
  }

  /** The last container of the path, written out. */
  function Inside(h: Heap, s: Sensitive, id: nat, path: seq<nat>): Out
    requires 0 < |path| <= PARAMS_MAX_DEPTH + 1
    decreases PARAMS_MAX_DEPTH + 1 - |path|, 4
  {
    match h(id)
    case Array(items) => List(seq(|items|, i requires 0 <= i < |items| => WalkSlot(h, s, items[i], path)))
    case Object(entries) =>
      Record(seq(|entries|, i requires 0 <= i < |entries| => Field(entries[i].key, WalkEntry(h, s, entries[i], path))))
  }

  function WalkSlot(h: Heap, s: Sensitive, slot: Slot, path: seq<nat>): Out
    decreases PARAMS_MAX_DEPTH + 1 - |path|, 2
  {
    match slot
    case Data(value) => Walk(h, s, value, path)
    case Accessor => AccessorMark
    case Absent => Undefined
  }

  function WalkEntry(h: Heap, s: Sensitive, entry: Entry, path: seq<nat>): Out
    decreases PARAMS_MAX_DEPTH + 1 - |path|, 3
  {
    if s(entry.key) then Redacted else WalkSlot(h, s, entry.slot, path)
  }

  // ------------------------------------------------------------------ the walk with a shared set

  /** The WeakSet every level adds to and deletes from. */
  class Ancestors {
    var refs: set<nat>

    constructor (root: nat)
      ensures refs == {root}
    {
      refs := {root};
    }
  }

  /** The set is as it was when the walk returns, and the result is that of the path alone. */
  method RedactValue(h: Heap, s: Sensitive, value: Value, depth: nat, ancestors: Ancestors, ghost path: seq<nat>)
    returns (out: Out)
    requires depth == |path| && ancestors.refs == Elements(path)
    modifies ancestors
    ensures ancestors.refs == old(ancestors.refs)
    ensures out == Walk(h, s, value, path)
    decreases PARAMS_MAX_DEPTH + 1 - depth, 1
  {
    if value.Leaf? {
      return Text(value.text);
    }
    if value.id in ancestors.refs {
      return Circular;
    }
    if depth > PARAMS_MAX_DEPTH {
      return Truncated;
    }
    ancestors.refs := ancestors.refs + {value.id};
    ghost var down := path + [value.id];
    assert ancestors.refs == Elements(down);
    if h(value.id).Array? {
      out := RedactItems(h, s, value.id, depth, ancestors, down);
    } else {
      out := RedactEntries(h, s, value.id, depth, ancestors, down);
    }
    ancestors.refs := ancestors.refs - {value.id};
  }

  method RedactItems(h: Heap, s: Sensitive, id: nat, depth: nat, ancestors: Ancestors, ghost path: seq<nat>)
    returns (out: Out)
    requires h(id).Array? && depth + 1 == |path| <= PARAMS_MAX_DEPTH + 1 && ancestors.refs == Elements(path)
    modifies ancestors
    ensures ancestors.refs == old(ancestors.refs)
    ensures out == Inside(h, s, id, path)
    decreases PARAMS_MAX_DEPTH + 1 - depth, 0
  {
    var items := h(id).items;
    var cleaned: seq<Out> := [];
    for i := 0 to |items|
      invariant ancestors.refs == Elements(path)
      invariant |cleaned| == i && forall j | 0 <= j < i :: cleaned[j] == WalkSlot(h, s, items[j], path)
    {
      var out: Out;
      match items[i] {
        case Accessor => out := AccessorMark;
        case Absent => out := Undefined;
        case Data(value) => out := RedactValue(h, s, value, depth + 1, ancestors, path);
      }
      cleaned := cleaned + [out];
    }
    out := List(cleaned);
    assert cleaned == Inside(h, s, id, path).items;
  }

  /** The value under a sensitive key is not looked at: its mask is written in its place. */
  method RedactEntries(h: Heap, s: Sensitive, id: nat, depth: nat, ancestors: Ancestors, ghost path: seq<nat>)
    returns (out: Out)
    requires h(id).Object? && depth + 1 == |path| <= PARAMS_MAX_DEPTH + 1 && ancestors.refs == Elements(path)
    modifies ancestors
    ensures ancestors.refs == old(ancestors.refs)
    ensures out == Inside(h, s, id, path)
    decreases PARAMS_MAX_DEPTH + 1 - depth, 0
  {
    var entries := h(id).entries;
    var cleaned: seq<Field> := [];
    for i := 0 to |entries|
      invariant ancestors.refs == Elements(path)
      invariant |cleaned| == i && forall j | 0 <= j < i ::
                  cleaned[j] == Field(entries[j].key, WalkEntry(h, s, entries[j], path))
    {
      var out: Out;
      if s(entries[i].key) {
        out := Redacted;
      } else {
        match entries[i].slot {
          case Accessor => out := AccessorMark;
          case Absent => out := Undefined;
          case Data(value) => out := RedactValue(h, s, value, depth + 1, ancestors, path);
        }
      }
      cleaned := cleaned + [Field(entries[i].key, out)];
    }
    out := Record(cleaned);
    assert cleaned == Inside(h, s, id, path).fields;
  }

  method RedactParams(h: Heap, s: Sensitive, root: nat) returns (out: Out)
    requires h(root).Object?
    ensures out == Inside(h, s, root, [root])
  {
    var ancestors := new Ancestors(root);
    assert ancestors.refs == Elements([root]);
    out := RedactEntries(h, s, root, 0, ancestors, [root]);
  }

  // ------------------------------------------------------------------ nothing sensitive gets out

  /**
   * Both heaps hold the same at this container, but for what stands under sensitive keys, and what it
   * shows stays inside `seen`.
   */
  ghost predicate SameShown(h: Heap, h': Heap, s: Sensitive, seen: iset<nat>, id: nat) {
    match h(id)
    case Array(items) => h'(id) == h(id) && forall k | 0 <= k < |items| :: StaysInside(items[k], seen)
    case Object(entries) =>
      && h'(id).Object? && |h'(id).entries| == |entries|
      && forall k | 0 <= k < |entries| ::
           && h'(id).entries[k].key == entries[k].key
           && (!s(entries[k].key) ==> h'(id).entries[k].slot == entries[k].slot && StaysInside(entries[k].slot, seen))
  }

  predicate StaysInside(slot: Slot, seen: iset<nat>) {
    slot.Data? && slot.value.Ref? ==> slot.value.id in seen
  }

  ghost predicate AllSameShown(h: Heap, h': Heap, s: Sensitive, seen: iset<nat>) {
    forall id | id in seen :: SameShown(h, h', s, seen, id)
  }

  /**
   * Change at will what stands under sensitive keys, and every container reached only through them:
   * the entry stays the same, so it tells nothing about either.
   */
  lemma SensitiveValuesDoNotShow(h: Heap, h': Heap, s: Sensitive, seen: iset<nat>, root: nat)
    requires root in seen && AllSameShown(h, h', s, seen)
    ensures Inside(h, s, root, [root]) == Inside(h', s, root, [root])
  {
    SameInside(h, h', s, seen, root, [root]);
  }

  lemma {:induction false} SameInside(h: Heap, h': Heap, s: Sensitive, seen: iset<nat>, id: nat, path: seq<nat>)
    requires id in seen && AllSameShown(h, h', s, seen) && 0 < |path| <= PARAMS_MAX_DEPTH + 1
    ensures Inside(h, s, id, path) == Inside(h', s, id, path)
    decreases PARAMS_MAX_DEPTH + 1 - |path|, 3
  {
    assert SameShown(h, h', s, seen, id);
    match h(id)
    case Array(items) =>
      forall k | 0 <= k < |items| ensures WalkSlot(h, s, items[k], path) == WalkSlot(h', s, items[k], path) {
        SameSlot(h, h', s, seen, items[k], path);
      }
      assert Inside(h, s, id, path).items == Inside(h', s, id, path).items;
    case Object(entries) =>
      var entries' := h'(id).entries;
      forall k | 0 <= k < |entries| ensures WalkEntry(h, s, entries[k], path) == WalkEntry(h', s, entries'[k], path) {
        if !s(entries[k].key) {
          SameSlot(h, h', s, seen, entries[k].slot, path);
        }
      }
      assert Inside(h, s, id, path).fields == Inside(h', s, id, path).fields;
  }

  lemma {:induction false} SameSlot(h: Heap, h': Heap, s: Sensitive, seen: iset<nat>, slot: Slot, path: seq<nat>)
    requires AllSameShown(h, h', s, seen) && StaysInside(slot, seen) && 0 < |path| <= PARAMS_MAX_DEPTH + 1
    ensures WalkSlot(h, s, slot, path) == WalkSlot(h', s, slot, path)
    decreases PARAMS_MAX_DEPTH + 1 - |path|, 2
  {
    if slot.Data? && slot.value.Ref? && slot.value.id !in path && |path| <= PARAMS_MAX_DEPTH {
      SameInside(h, h', s, seen, slot.value.id, path + [slot.value.id]);
    }
  }

  // ------------------------------------------------------------------ depth and cycles, place by place

  /** A place in an entry: which slot to take at each container on the way down. */
  function OutAt(out: Out, place: seq<nat>): (r: Out)
    requires InOut(out, place)
    decreases |place|
  {
    if place == [] then out
    else if out.List? then OutAt(out.items[place[0]], place[1..])
    else OutAt(out.fields[place[0]].out, place[1..])
  }

  predicate InOut(out: Out, place: seq<nat>)
    decreases |place|
  {
    place == []
    || (out.List? && place[0] < |out.items| && InOut(out.items[place[0]], place[1..]))
    || (out.Record? && place[0] < |out.fields| && InOut(out.fields[place[0]].out, place[1..]))
  }

  /** What the params hold at a slot; None when a mask or an accessor stands there instead. */
  function ShownSlot(h: Heap, s: Sensitive, id: nat, k: nat): (r: seq<Value>)
    ensures |r| <= 1
  {
    match h(id)
    case Array(items) => if k < |items| && items[k].Data? then [items[k].value] else []
    case Object(entries) =>
      if k < |entries| && !s(entries[k].key) && entries[k].slot.Data? then [entries[k].slot.value] else []
  }

  /** A value of the params and the containers on the way down to it. */
  datatype Found = Found(value: Value, path: seq<nat>)

  /** What stands at a place below the last container of the path; none behind a mask, a cycle or the depth limit. */
  function FoundAt(h: Heap, s: Sensitive, id: nat, path: seq<nat>, place: seq<nat>): (found: seq<Found>)
    requires place != []
    ensures |found| <= 1
    decreases |place|
  {
    var shown := ShownSlot(h, s, id, place[0]);
    if shown == [] then []
    else if |place| == 1 then [Found(shown[0], path)]
    else if shown[0].Ref? && shown[0].id !in path && |path| <= PARAMS_MAX_DEPTH
      then FoundAt(h, s, shown[0].id, path + [shown[0].id], place[1..])
    else []
  }

  /** What is written for the k-th slot of the last container of the path. */
  function Child(h: Heap, s: Sensitive, id: nat, path: seq<nat>, k: nat): Out
    requires k < Slots(h(id))
  {
    match h(id)
    case Array(items) => WalkSlot(h, s, items[k], path)
    case Object(entries) => WalkEntry(h, s, entries[k], path)
  }

  function Slots(c: Container): nat {
    if c.Array? then |c.items| else |c.entries|
  }

  lemma OneStepIn(h: Heap, s: Sensitive, id: nat, path: seq<nat>, place: seq<nat>)
    requires 0 < |path| <= PARAMS_MAX_DEPTH + 1 && place != []
    ensures InOut(Inside(h, s, id, path), place) <==>
              place[0] < Slots(h(id)) && InOut(Child(h, s, id, path, place[0]), place[1..])
    ensures InOut(Inside(h, s, id, path), place) ==>
              OutAt(Inside(h, s, id, path), place) == OutAt(Child(h, s, id, path, place[0]), place[1..])
  {
  }

  /** A masked slot, an accessor and an absent one are written as a leaf of their own; any other slot as its value. */
  lemma ChildIsShown(h: Heap, s: Sensitive, id: nat, path: seq<nat>, k: nat)
    requires k < Slots(h(id))
    ensures var shown, child := ShownSlot(h, s, id, k), Child(h, s, id, path, k);
            if shown != [] then child == Walk(h, s, shown[0], path)
            else child.Redacted? || child.AccessorMark? || child.Undefined?
  {
    match h(id)
    case Array(items) => SlotIsShown(h, s, items[k], path);
    case Object(entries) => SlotIsShown(h, s, entries[k].slot, path);
  }

  lemma SlotIsShown(h: Heap, s: Sensitive, slot: Slot, path: seq<nat>)
    ensures WalkSlot(h, s, slot, path)
            == match slot
               case Data(value) => Walk(h, s, value, path)
               case Accessor => AccessorMark
               case Absent => Undefined
  {
  }

  /** Every value found is written for itself, and nothing else is but masks. */
  lemma {:induction false} WrittenAtItsPlace(h: Heap, s: Sensitive, id: nat, path: seq<nat>, place: seq<nat>)
    requires 0 < |path| <= PARAMS_MAX_DEPTH + 1 && place != []
    ensures var out, found := Inside(h, s, id, path), FoundAt(h, s, id, path, place);
            && (found != [] ==> InOut(out, place) && OutAt(out, place) == Walk(h, s, found[0].value, found[0].path))
            && (found == [] && InOut(out, place) ==>
                OutAt(out, place).Redacted? || OutAt(out, place).AccessorMark? || OutAt(out, place).Undefined?)
    decreases |place|
  {
    var shown := ShownSlot(h, s, id, place[0]);
    OneStepIn(h, s, id, path, place);
    if place[0] < Slots(h(id)) {
      ChildIsShown(h, s, id, path, place[0]);
    }
    if |place| > 1 && shown != [] && shown[0].Ref? && shown[0].id !in path && |path| <= PARAMS_MAX_DEPTH {
      WrittenAtItsPlace(h, s, shown[0].id, path + [shown[0].id], place[1..]);
    }
  }

  /**
   * `[Circular]` stands exactly at the references to a container above, `[Truncated]` exactly at the
   * others too deep.
   */
  lemma MarksStandExactly(h: Heap, s: Sensitive, root: nat, place: seq<nat>)
    requires place != []
    ensures var out, found := Inside(h, s, root, [root]), FoundAt(h, s, root, [root], place);
            && (InOut(out, place) && OutAt(out, place) == Circular
                <==> found != [] && found[0].value.Ref? && found[0].value.id in found[0].path)
            && (InOut(out, place) && OutAt(out, place) == Truncated <==>
                  && found != [] && found[0].value.Ref? && found[0].value.id !in found[0].path
                  && |found[0].path| > PARAMS_MAX_DEPTH)
  {
    WrittenAtItsPlace(h, s, root, [root], place);
  }

  /**
   * A container as the entry shows it: its own slots in their order, an object's under its own keys, the
   * mask exactly where the key is sensitive, a mark exactly at an accessor, undefined exactly at a gap.
   */
  predicate IsWrittenAs(c: Container, s: Sensitive, out: Out) {
    match c
    case Array(items) =>
      out.List? && |out.items| == |items| && forall k | 0 <= k < |items| ::
        && out.items[k] != Redacted
        && (out.items[k] == AccessorMark <==> items[k].Accessor?)
        && (out.items[k] == Undefined <==> items[k].Absent?)
    case Object(entries) =>
      out.Record? && |out.fields| == |entries| && forall k | 0 <= k < |entries| ::
        && out.fields[k].key == entries[k].key
        && (out.fields[k].out == Redacted <==> s(entries[k].key))
        && (out.fields[k].out == AccessorMark <==> !s(entries[k].key) && entries[k].slot.Accessor?)
        && (out.fields[k].out == Undefined <==> !s(entries[k].key) && entries[k].slot.Absent?)
  }

  lemma SlotMarks(h: Heap, s: Sensitive, slot: Slot, path: seq<nat>)
    ensures WalkSlot(h, s, slot, path) != Redacted
    ensures WalkSlot(h, s, slot, path) == AccessorMark <==> slot.Accessor?
    ensures WalkSlot(h, s, slot, path) == Undefined <==> slot.Absent?
  {
    SlotIsShown(h, s, slot, path);
  }

  lemma EntryMarks(h: Heap, s: Sensitive, entry: Entry, path: seq<nat>)
    ensures WalkEntry(h, s, entry, path) == Redacted <==> s(entry.key)
    ensures WalkEntry(h, s, entry, path) == AccessorMark <==> !s(entry.key) && entry.slot.Accessor?
    ensures WalkEntry(h, s, entry, path) == Undefined <==> !s(entry.key) && entry.slot.Absent?
  {
    SlotMarks(h, s, entry.slot, path);
  }

  lemma ContainerIsWritten(h: Heap, s: Sensitive, id: nat, path: seq<nat>)
    requires 0 < |path| <= PARAMS_MAX_DEPTH + 1
    ensures IsWrittenAs(h(id), s, Inside(h, s, id, path))
  {
    var out := Inside(h, s, id, path);
    match h(id)
    case Array(items) =>
      forall k | 0 <= k < |items|
        ensures out.items[k] != Redacted
        ensures out.items[k] == AccessorMark <==> items[k].Accessor?
        ensures out.items[k] == Undefined <==> items[k].Absent?
      {
        assert out.items[k] == WalkSlot(h, s, items[k], path);
        SlotMarks(h, s, items[k], path);
      }
    case Object(entries) =>
      forall k | 0 <= k < |entries|
        ensures out.fields[k].out == Redacted <==> s(entries[k].key)
        ensures out.fields[k].out == AccessorMark <==> !s(entries[k].key) && entries[k].slot.Accessor?
        ensures out.fields[k].out == Undefined <==> !s(entries[k].key) && entries[k].slot.Absent?
      {
        assert out.fields[k].out == WalkEntry(h, s, entries[k], path);
        EntryMarks(h, s, entries[k], path);
      }
  }

  /**
   * The whole entry, place by place: the root and every container found are written as they are, a
   * leaf as its text, and a reference to a container above or too deep as its mark.
   */
  lemma EveryPlaceIsWritten(h: Heap, s: Sensitive, root: nat, place: seq<nat>)
    ensures IsWrittenAs(h(root), s, Inside(h, s, root, [root]))
    ensures var out := Inside(h, s, root, [root]);
            place != [] && FoundAt(h, s, root, [root], place) != [] ==>
              InOut(out, place)
              && var found, here := FoundAt(h, s, root, [root], place)[0], OutAt(out, place);
                 match found.value
                 case Leaf(text) => here == Text(text)
                 case Ref(id) =>
                   if id in found.path then here == Circular
                   else if |found.path| > 16 then here == Truncated
                   else IsWrittenAs(h(id), s, here)
  {
    ContainerIsWritten(h, s, root, [root]);
    if place != [] {
      WrittenAtItsPlace(h, s, root, [root], place);
      var found := FoundAt(h, s, root, [root], place);
      if found != [] && found[0].value.Ref? && found[0].value.id !in found[0].path
         && |found[0].path| <= PARAMS_MAX_DEPTH {
        ContainerIsWritten(h, s, found[0].value.id, found[0].path + [found[0].value.id]);
      }
    }
  }

  /** No container of the entry stands more than PARAMS_MAX_DEPTH levels below the root. */
  lemma {:induction false} NestsNoDeeper(h: Heap, s: Sensitive, id: nat, path: seq<nat>, place: seq<nat>)
    requires 0 < |path| <= PARAMS_MAX_DEPTH + 1 && InOut(Inside(h, s, id, path), place)
    ensures OutAt(Inside(h, s, id, path), place).List? || OutAt(Inside(h, s, id, path), place).Record? ==>
              |path| - 1 + |place| <= PARAMS_MAX_DEPTH
    decreases |place|
  {
    if place != [] {
      var shown := ShownSlot(h, s, id, place[0]);
      OneStepIn(h, s, id, path, place);
      if place[0] < Slots(h(id)) {
        ChildIsShown(h, s, id, path, place[0]);
      }
      if shown != [] && shown[0].Ref? && shown[0].id !in path && |path| <= PARAMS_MAX_DEPTH {
        NestsNoDeeper(h, s, shown[0].id, path + [shown[0].id], place[1..]);
      }
    }
  }
}
