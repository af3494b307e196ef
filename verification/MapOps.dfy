/** `map.set` and `map.remove` with their in-place fast paths (crates/runtime/src/map_ops.rs). */
module MapOps {
  import opened Sharing
  import opened Stack
  import opened Values
  import opened Wrappers

  /** `heap_value_mut` yields a map: a cell that only this slot holds, and it is a map. */
  predicate UniqueMap(cells: Cells, w: Word) {
    !IsInline(w) && w in cells && cells[w].count == 1 && cells[w].value.Map?
  }

  /** A write through the reference that `heap_value_mut` gave. */
  function Mutate(cells: Cells, w: Word, v: Value): Cells {
    if w in cells then cells[w := cells[w].(value := v)] else cells
  }

  /** What is left once the top k slots are popped, value by value. */
  function PopCells(cells: Cells, slots: seq<Word>, k: nat): Cells
    requires k <= |slots|
  {
    if k == 0 then cells else PopCells(DropWord(cells, slots[|slots| - 1]), slots[..|slots| - 1], k - 1)
  }

  /** The map below the popped operands is changed in its cell, or copied into a new one. */
  function Replace(cells: Cells, slots: seq<Word>, unique: bool, entries: map<MapKey, Value>,
                   addr: Word): (Cells, seq<Word>)
    requires |slots| >= 1
  {
    var (w, rest) := (slots[|slots| - 1], slots[..|slots| - 1]);
    if unique then (Mutate(cells, w, Map(entries)), slots)
    else (Box(DropWord(cells, w), Map(entries), addr), rest + [addr])
  }

  /** None is a panic: the key cannot be hashed, or there is no map. */
  function SetStep(cells: Cells, slots: seq<Word>, addr: Word): Option<(Cells, seq<Word>)>
    requires |slots| >= 3
  {
    var n := |slots|;
    var key := KeyFromValue(Denote(cells, slots[n - 2]));
    var m := Denote(cells, slots[n - 3]);
    if key.None? || !m.Map? then None
    else
      var entries := m.entries[key.value := Denote(cells, slots[n - 1])];
      Some(Replace(PopCells(cells, slots, 2), slots[..n - 2], UniqueMap(cells, slots[n - 3]), entries, addr))
  }

  function RemoveStep(cells: Cells, slots: seq<Word>, addr: Word): Option<(Cells, seq<Word>)>
    requires |slots| >= 2
  {
    var n := |slots|;
    var key := KeyFromValue(Denote(cells, slots[n - 1]));
    var m := Denote(cells, slots[n - 2]);
    if key.None? || !m.Map? then None
    else Some(Replace(PopCells(cells, slots, 1), slots[..n - 1], UniqueMap(cells, slots[n - 2]),
        m.entries - {key.value}, addr))
  }

  // ---- The functional meaning ----

  /** ( Map key value -- Map ) */
  function PureSet(vs: seq<Value>): Option<seq<Value>>
    requires |vs| >= 3
  {
    var n := |vs|;
    var key := KeyFromValue(vs[n - 2]);
    if key.None? || !vs[n - 3].Map? then None
    else Some(vs[..n - 3] + [Map(vs[n - 3].entries[key.value := vs[n - 1]])])
  }

  /** ( Map key -- Map ) */
  function PureRemove(vs: seq<Value>): Option<seq<Value>>
    requires |vs| >= 2
  {
    var n := |vs|;
    var key := KeyFromValue(vs[n - 1]);
    if key.None? || !vs[n - 2].Map? then None
    else Some(vs[..n - 2] + [Map(vs[n - 2].entries - {key.value})])
  }

  // ---- Popping the operands ----

  /** Popping k slots keeps the counts, and the values of all slots that are left. */
  lemma {:induction false} PopsShare(cells: Cells, slots: seq<Word>, others: multiset<Word>, k: nat)
    requires k <= |slots| && Counted(cells, multiset(slots) + others)
    ensures Counted(PopCells(cells, slots, k), multiset(slots[..|slots| - k]) + others)
    ensures Kept(cells, PopCells(cells, slots, k), multiset(slots[..|slots| - k]) + others)
    decreases k
  {
    hide Counted, Kept, DropWord, Contents;
    if k == 0 {
      assert slots[..|slots| - k] == slots;
      KeptRefl(cells, multiset(slots) + others);
    } else {
      var (top, rest) := (slots[|slots| - 1], slots[..|slots| - 1]);
      PopShares(cells, slots, others);
      PopsShare(DropWord(cells, top), rest, others, k - 1);
      FrontSlots(slots, others, k);
      var left := multiset(slots[..|slots| - k]) + others;
      KeptSub(cells, DropWord(cells, top), multiset(rest) + others, left);
      KeptTrans(cells, DropWord(cells, top), PopCells(cells, slots, k), left, left);
    }
  }

  lemma FrontSlots(slots: seq<Word>, others: multiset<Word>, k: nat)
    requires 0 < k <= |slots|
    ensures var rest := slots[..|slots| - 1];
            && rest[..|rest| - (k - 1)] == slots[..|slots| - k]
            && multiset(slots[..|slots| - k]) + others <= multiset(rest) + others
  {
    var rest := slots[..|slots| - 1];
    assert rest == slots[..|slots| - k] + rest[|slots| - k..];
  }

  lemma InMultiset(s: seq<Word>)
    ensures forall i :: 0 <= i < |s| ==> s[i] in multiset(s)
  {
  }

  /** So each operand is popped with the value it had at the start. */
  lemma OperandKept(cells: Cells, slots: seq<Word>, others: multiset<Word>, k: nat)
    requires k < |slots| && Counted(cells, multiset(slots) + others)
    ensures Denote(PopCells(cells, slots, k), slots[|slots| - 1 - k]) == Denote(cells, slots[|slots| - 1 - k])
    ensures Readable(PopCells(cells, slots, k), slots[..|slots| - k])
  {
    hide PopCells, Denote;
    PopsShare(cells, slots, others, k);
    assert slots[..|slots| - k][|slots| - 1 - k] in multiset(slots[..|slots| - k]);
    InMultiset(slots[..|slots| - k]);
  }

  lemma PopNone(cells: Cells, slots: seq<Word>)
    ensures PopCells(cells, slots, 0) == cells && slots[..|slots| - 0] == slots
  {
  }

  lemma PopNext(cells: Cells, slots: seq<Word>, k: nat)
    requires k < |slots|
    ensures PopCells(cells, slots, k + 1) == DropWord(PopCells(cells, slots, k), slots[|slots| - 1 - k])
    decreases k
  {
    if k > 0 { PopNext(DropWord(cells, slots[|slots| - 1]), slots[..|slots| - 1], k - 1); }
  }

  // ---- The two paths as the runtime takes them ----

  /** `heap_value_mut`, for a map: None when the slot is inline, shared, or holds something else. */
  method HeapMapMut(heap: ArcHeap, w: Word) returns (entries: Option<map<MapKey, Value>>)
    requires IsInline(w) || w in heap.cells
    ensures entries.Some? == UniqueMap(heap.cells, w)
    ensures entries.Some? ==> Denote(heap.cells, w) == Map(entries.value)
  {
    if IsInline(w) || heap.cells[w].count != 1 { return None; }
    match heap.cells[w].value
    case Map(m) => return Some(m);
    case _ => return None;
  }

  /** The slot at sp - k. */
  method SlotAt(stack: TaggedStack, k: nat) returns (w: Word)
    requires stack.Valid() && 1 <= k <= |stack.Slots()|
    ensures w == stack.Slots()[|stack.Slots()| - k]
  {
    w := stack.base[stack.sp - k];
  }

  method MutateInPlace(heap: ArcHeap, w: Word, v: Value)
    modifies heap
    ensures heap.cells == Mutate(old(heap.cells), w, v)
  {
    if w in heap.cells {
      heap.cells := heap.cells[w := heap.cells[w].(value := v)];
    }
  }

  /** `pop`, as the k-th operand of an operation that began with the given cells and slots. */
  method PopOperand(stack: TaggedStack, heap: ArcHeap, ghost cells: Cells, ghost slots: seq<Word>,
                    ghost others: multiset<Word>, ghost k: nat) returns (v: Value)
    requires stack.Valid() && k < |slots| && Counted(cells, multiset(slots) + others)
    requires stack.Slots() == slots[..|slots| - k] && heap.cells == PopCells(cells, slots, k)
    modifies stack, heap
    ensures stack.Valid() && stack.base == old(stack.base) && stack.capacity == old(stack.capacity)
    ensures stack.Slots() == slots[..|slots| - k - 1] && heap.cells == PopCells(cells, slots, k + 1)
    ensures v == Denote(cells, slots[|slots| - 1 - k])
  {
    hide Counted, PopCells, Denote, DropWord, Readable;
    OperandKept(cells, slots, others, k);
    PopNext(cells, slots, k);
    v := stack.PopValue(heap);
    assert slots[..|slots| - k][..|slots| - k - 1] == slots[..|slots| - k - 1];
  }

  lemma SetCases(cells: Cells, slots: seq<Word>, addr: Word)
    requires |slots| >= 3
    ensures var n := |slots|;
            var (key, m) := (KeyFromValue(Denote(cells, slots[n - 2])), Denote(cells, slots[n - 3]));
            && (SetStep(cells, slots, addr).None? <==> key.None? || !m.Map?)
            && (key.Some? && m.Map? ==>
                  var v := Map(m.entries[key.value := Denote(cells, slots[n - 1])]);
                  && (UniqueMap(cells, slots[n - 3]) ==>
                        SetStep(cells, slots, addr)
                            == Some((Mutate(PopCells(cells, slots, 2), slots[n - 3], v), slots[..n - 2])))
                  && (!UniqueMap(cells, slots[n - 3]) ==>
                        SetStep(cells, slots, addr)
                            == Some((Box(PopCells(cells, slots, 3), v, addr), slots[..n - 3] + [addr]))))
  {
    hide PopCells, Denote, DropWord, Mutate, UniqueMap, Box, KeyFromValue;
    PopNext(cells, slots, 2);
    assert slots[..|slots| - 2][..|slots| - 3] == slots[..|slots| - 3];
  }

  lemma RemoveCases(cells: Cells, slots: seq<Word>, addr: Word)
    requires |slots| >= 2
    ensures var n := |slots|;
            var (key, m) := (KeyFromValue(Denote(cells, slots[n - 1])), Denote(cells, slots[n - 2]));
            && (RemoveStep(cells, slots, addr).None? <==> key.None? || !m.Map?)
            && (key.Some? && m.Map? ==>
                  var v := Map(m.entries - {key.value});
                  && (UniqueMap(cells, slots[n - 2]) ==>
                        RemoveStep(cells, slots, addr)
                            == Some((Mutate(PopCells(cells, slots, 1), slots[n - 2], v), slots[..n - 1])))
                  && (!UniqueMap(cells, slots[n - 2]) ==>
                        RemoveStep(cells, slots, addr)
                            == Some((Box(PopCells(cells, slots, 2), v, addr), slots[..n - 2] + [addr]))))
  {
    hide PopCells, Denote, DropWord, Mutate, UniqueMap, Box, KeyFromValue;
    PopNext(cells, slots, 1);
    assert slots[..|slots| - 1][..|slots| - 2] == slots[..|slots| - 2];
  }

  /** others are the slots of all other stacks. */
  method MapSet(stack: TaggedStack, heap: ArcHeap, addr: Word, ghost others: multiset<Word>) returns (panic: bool)
    requires stack.Valid() && |stack.Slots()| >= 3 && Counted(heap.cells, multiset(stack.Slots()) + others)
    requires FreeAddress(PopCells(heap.cells, stack.Slots(), 3), addr)
    modifies stack, stack.base, heap
    ensures stack.Valid()
    ensures panic == SetStep(old(heap.cells), old(stack.Slots()), addr).None?
    ensures !panic ==> Some((heap.cells, stack.Slots())) == SetStep(old(heap.cells), old(stack.Slots()), addr)
  {
    hide Counted, PopCells, Denote, DropWord, Readable, Mutate, UniqueMap, Box, KeyFromValue, FreeAddress, SetStep,
         RemoveStep, TaggedStack.Slots;
    ghost var cells, slots := heap.cells, stack.Slots();
    PopNone(cells, slots);
    MapSlotReadable(cells, slots, others, |slots| - 3);
    SetCases(cells, slots, addr);
    var mapSlot := SlotAt(stack, 3);
    var unique := HeapMapMut(heap, mapSlot);
    var value := PopOperand(stack, heap, cells, slots, others, 0);
    var keyValue := PopOperand(stack, heap, cells, slots, others, 1);
    var key := KeyFromValue(keyValue);
    if key.None? { return true; }
    if unique.Some? {
      MutateInPlace(heap, mapSlot, Map(unique.value[key.value := value]));
      return false;
    }
    var mapValue := PopOperand(stack, heap, cells, slots, others, 2);
    if !mapValue.Map? { return true; }
    var result := Map(mapValue.entries[key.value := value]);
    stack.PushValue(heap, result, addr);
    return false;
  }

  lemma MapSlotReadable(cells: Cells, slots: seq<Word>, others: multiset<Word>, k: nat)
    requires k < |slots| && Counted(cells, multiset(slots) + others)
    ensures IsInline(slots[k]) || slots[k] in cells
  {
    InMultiset(slots);
    assert slots[k] in multiset(slots) + others;
  }

  method MapRemove(stack: TaggedStack, heap: ArcHeap, addr: Word, ghost others: multiset<Word>) returns (panic: bool)
    requires stack.Valid() && |stack.Slots()| >= 2 && Counted(heap.cells, multiset(stack.Slots()) + others)
    requires FreeAddress(PopCells(heap.cells, stack.Slots(), 2), addr)
    modifies stack, stack.base, heap
    ensures stack.Valid()
    ensures panic == RemoveStep(old(heap.cells), old(stack.Slots()), addr).None?
    ensures !panic ==> Some((heap.cells, stack.Slots())) == RemoveStep(old(heap.cells), old(stack.Slots()), addr)
  {
    hide Counted, PopCells, Denote, DropWord, Readable, Mutate, UniqueMap, Box, KeyFromValue, FreeAddress, SetStep,
         RemoveStep, TaggedStack.Slots;
    ghost var cells, slots := heap.cells, stack.Slots();
    PopNone(cells, slots);
    MapSlotReadable(cells, slots, others, |slots| - 2);
    RemoveCases(cells, slots, addr);
    var mapSlot := SlotAt(stack, 2);
    var unique := HeapMapMut(heap, mapSlot);
    var keyValue := PopOperand(stack, heap, cells, slots, others, 0);
    var key := KeyFromValue(keyValue);
    if key.None? { return true; }
    if unique.Some? {
      MutateInPlace(heap, mapSlot, Map(unique.value - {key.value}));
      return false;
    }
    var mapValue := PopOperand(stack, heap, cells, slots, others, 1);
    if !mapValue.Map? { return true; }
    stack.PushValue(heap, Map(mapValue.entries - {key.value}), addr);
    return false;
  }

  // ---- Copy-on-write is invisible ----

  /** A cell that one slot holds is that slot's own: writing to it changes no other slot. */
  lemma MutateShares(cells: Cells, slots: seq<Word>, others: multiset<Word>, v: Value)
    requires slots != [] && Counted(cells, multiset(slots) + others)
    requires var w := slots[|slots| - 1]; !IsInline(w) && w in cells && cells[w].count == 1
    requires !v.Int? && !v.Bool?
    ensures var cells' := Mutate(cells, slots[|slots| - 1], v);
            && Counted(cells', multiset(slots) + others)
            && Contents(cells', slots) == Contents(cells, slots)[..|slots| - 1] + [v]
            && Kept(cells, cells', others)
  {
    var n := |slots|;
    var (w, rest) := (slots[n - 1], slots[..n - 1]);
    var cells' := Mutate(cells, w, v);
    assert slots == rest + [w];
    assert (multiset(slots) + others)[w] == multiset(rest)[w] + others[w] + 1;
    forall i | 0 <= i < n - 1 ensures slots[i] != w {
      assert rest[i] in multiset(rest);
    }
  }

  /** A unique map below k operands is still unique, and the same map, once they are popped. */
  lemma StillUnique(cells: Cells, slots: seq<Word>, others: multiset<Word>, k: nat)
    requires k < |slots| && Counted(cells, multiset(slots) + others)
    requires UniqueMap(cells, slots[|slots| - 1 - k])
    ensures UniqueMap(PopCells(cells, slots, k), slots[|slots| - 1 - k])
  {
    var (w, left) := (slots[|slots| - 1 - k], slots[..|slots| - k]);
    PopsShare(cells, slots, others, k);
    OperandKept(cells, slots, others, k);
    assert slots == left + slots[|slots| - k..];
    assert left[|slots| - 1 - k] == w && w in multiset(left);
    assert (multiset(slots) + others)[w] == 1;
    assert multiset(slots)[w] == multiset(left)[w] + multiset(slots[|slots| - k..])[w];
    hide PopCells;
    assert (multiset(left) + others)[w] == 1;
  }

  /** Whichever path replaces the map, the slot below the operands gets the new one, the counts
      stay right, and every other slot of every stack denotes what it did. */
  lemma ReplaceShares(cells: Cells, slots: seq<Word>, others: multiset<Word>, k: nat, entries: map<MapKey, Value>,
                      addr: Word)
    requires k < |slots| && Counted(cells, multiset(slots) + others)
    requires FreeAddress(PopCells(cells, slots, k + 1), addr)
    ensures var n := |slots|;
            var (cells', slots') := Replace(PopCells(cells, slots, k), slots[..n - k],
                UniqueMap(cells, slots[n - 1 - k]), entries, addr);
            && Counted(cells', multiset(slots') + others)
            && Contents(cells', slots') == Contents(cells, slots)[..n - 1 - k] + [Map(entries)]
            && Kept(cells, cells', others)
  {
    hide Counted, Kept, PopCells, Denote, DropWord, Mutate, UniqueMap, Box, FreeAddress;
    var n := |slots|;
    var (w, left, popped) := (slots[n - 1 - k], slots[..n - k], PopCells(cells, slots, k));
    PopsShare(cells, slots, others, k);
    assert slots == left + slots[n - k..];
    KeptSub(cells, popped, multiset(left) + others, others);
    KeptContents(cells, popped, multiset(left) + others, left);
    assert Contents(cells, left) == Contents(cells, slots)[..n - k];
    if UniqueMap(cells, w) {
      StillUnique(cells, slots, others, k);
      IsUnique(popped, w);
      MutateShares(popped, left, others, Map(entries));
      KeptTrans(cells, popped, Mutate(popped, w, Map(entries)), others, others);
    } else {
      PopNext(cells, slots, k);
      var rest := left[..n - k - 1];
      PopShares(popped, left, others);
      var cells1 := DropWord(popped, w);
      PushShares(cells1, rest, others, Map(entries), addr);
      KeptSub(popped, cells1, multiset(rest) + others, others);
      KeptTrans(cells, popped, cells1, others, others);
      KeptTrans(cells, cells1, Box(cells1, Map(entries), addr), others, others);
    }
  }

  lemma IsUnique(cells: Cells, w: Word)
    requires UniqueMap(cells, w)
    ensures !IsInline(w) && w in cells && cells[w].count == 1
  {
  }

  /** `map.set` is the functional update M[k := v], on both paths; it panics exactly when the
      functional operation has no meaning. */
  lemma SetRefines(cells: Cells, slots: seq<Word>, others: multiset<Word>, addr: Word)
    requires |slots| >= 3 && Counted(cells, multiset(slots) + others)
    requires FreeAddress(PopCells(cells, slots, 3), addr)
    ensures SetStep(cells, slots, addr).None? <==> PureSet(Contents(cells, slots)).None?
    ensures SetStep(cells, slots, addr).Some? ==>
              var (cells', slots') := SetStep(cells, slots, addr).value;
              && Counted(cells', multiset(slots') + others)
              && Some(Contents(cells', slots')) == PureSet(Contents(cells, slots))
              && Kept(cells, cells', others)
  {
    hide Counted, Kept, PopCells, Denote, UniqueMap, Replace, KeyFromValue;
    var n := |slots|;
    var (key, m) := (KeyFromValue(Denote(cells, slots[n - 2])), Denote(cells, slots[n - 3]));
    if key.Some? && m.Map? {
      ReplaceShares(cells, slots, others, 2, m.entries[key.value := Denote(cells, slots[n - 1])], addr);
    }
  }

  lemma RemoveRefines(cells: Cells, slots: seq<Word>, others: multiset<Word>, addr: Word)
    requires |slots| >= 2 && Counted(cells, multiset(slots) + others)
    requires FreeAddress(PopCells(cells, slots, 2), addr)
    ensures RemoveStep(cells, slots, addr).None? <==> PureRemove(Contents(cells, slots)).None?
    ensures RemoveStep(cells, slots, addr).Some? ==>
              var (cells', slots') := RemoveStep(cells, slots, addr).value;
              && Counted(cells', multiset(slots') + others)
              && Some(Contents(cells', slots')) == PureRemove(Contents(cells, slots))
              && Kept(cells, cells', others)
  {
    hide Counted, Kept, PopCells, Denote, UniqueMap, Replace, KeyFromValue;
    var n := |slots|;
    var (key, m) := (KeyFromValue(Denote(cells, slots[n - 1])), Denote(cells, slots[n - 2]));
    if key.Some? && m.Map? {
      ReplaceShares(cells, slots, others, 1, m.entries - {key.value}, addr);
    }
  }

  // ---- What the new map holds, told in key values ----

  /** The map has an entry for the key value. */
  ghost predicate Holds(m: Value, k: Value, v: Value) {
    m.Map? && exists key :: key in m.entries && KeyToValue(key) == k && m.entries[key] == v
  }

  ghost predicate HoldsJust(m: Value, k: Value, x: Value) {
    forall v :: Holds(m, k, v) <==> v == x
  }

  ghost predicate HoldsNothing(m: Value, k: Value) {
    forall v :: !Holds(m, k, v)
  }

  predicate Hashable(v: Value) {
    v.Int? || v.String? || v.Bool?
  }

  lemma EntriesHold(entries: map<MapKey, Value>, key: MapKey)
    ensures forall v :: Holds(Map(entries), KeyToValue(key), v) <==> key in entries && entries[key] == v
  {
    forall k | k in entries && KeyToValue(k) == KeyToValue(key) ensures k == key {
      KeysAreValues(KeyToValue(key), k);
      KeysAreValues(KeyToValue(key), key);
    }
  }

  /** The new map differs from the old one in the entry for the one key only. */
  ghost predicate SameBut(m: Value, m': Value, key: Value) {
    forall k, v :: k != key ==> (Holds(m', k, v) <==> Holds(m, k, v))
  }

  lemma ChangedAt(entries: map<MapKey, Value>, entries': map<MapKey, Value>, key: MapKey)
    requires entries' - {key} == entries - {key}
    ensures SameBut(Map(entries), Map(entries'), KeyToValue(key))
  {
    forall k, v | k != KeyToValue(key) ensures Holds(Map(entries'), k, v) <==> Holds(Map(entries), k, v) {
      if x :| x in entries && KeyToValue(x) == k && entries[x] == v {
        assert x in entries - {key} && x in entries' && entries'[x] == (entries - {key})[x];
      }
      if x :| x in entries' && KeyToValue(x) == k && entries'[x] == v {
        assert x in entries' - {key} && x in entries && entries[x] == (entries - {key})[x];
      }
    }
  }

  /** map.set: the value is found under the key, every other key finds what it did, and what lies
      below the map is untouched. */
  lemma PureSetLaw(vs: seq<Value>)
    requires |vs| >= 3
    ensures var n := |vs|;
            && (PureSet(vs).Some? <==> Hashable(vs[n - 2]) && vs[n - 3].Map?)
            && (PureSet(vs).Some? ==>
                  var r := PureSet(vs).value;
                  && |r| == n - 2 && r[..n - 3] == vs[..n - 3] && r[n - 3].Map?
                  && HoldsJust(r[n - 3], vs[n - 2], vs[n - 1])
                  && SameBut(vs[n - 3], r[n - 3], vs[n - 2]))
  {
    hide Holds, SameBut, KeyToValue, KeyFromValue;
    var n := |vs|;
    KeysAreValues(vs[n - 2], IntKey(0));
    if PureSet(vs).Some? {
      var (key, entries) := (KeyFromValue(vs[n - 2]).value, vs[n - 3].entries);
      KeysAreValues(vs[n - 2], key);
      EntriesHold(entries[key := vs[n - 1]], key);
      ChangedAt(entries, entries[key := vs[n - 1]], key);
    }
  }

  /** map.remove: nothing is found under the key, every other key finds what it did. */
  lemma PureRemoveLaw(vs: seq<Value>)
    requires |vs| >= 2
    ensures var n := |vs|;
            && (PureRemove(vs).Some? <==> Hashable(vs[n - 1]) && vs[n - 2].Map?)
            && (PureRemove(vs).Some? ==>
                  var r := PureRemove(vs).value;
                  && |r| == n - 1 && r[..n - 2] == vs[..n - 2] && r[n - 2].Map?
                  && HoldsNothing(r[n - 2], vs[n - 1])
                  && SameBut(vs[n - 2], r[n - 2], vs[n - 1]))
  {
    hide Holds, SameBut, KeyToValue, KeyFromValue;
    var n := |vs|;
    KeysAreValues(vs[n - 1], IntKey(0));
    if PureRemove(vs).Some? {
      var (key, entries) := (KeyFromValue(vs[n - 1]).value, vs[n - 2].entries);
      KeysAreValues(vs[n - 1], key);
      EntriesHold(entries - {key}, key);
      ChangedAt(entries, entries - {key}, key);
    }
  }

  /** The same of the slots, whichever path was taken. */
  lemma SetLaw(cells: Cells, slots: seq<Word>, others: multiset<Word>, addr: Word)
    requires |slots| >= 3 && Counted(cells, multiset(slots) + others)
    requires FreeAddress(PopCells(cells, slots, 3), addr)
    ensures var n := |slots|;
            var (m, k, x) := (Denote(cells, slots[n - 3]), Denote(cells, slots[n - 2]), Denote(cells, slots[n - 1]));
            && (SetStep(cells, slots, addr).Some? <==> Hashable(k) && m.Map?)
            && (SetStep(cells, slots, addr).Some? ==>
                  var (cells', slots') := SetStep(cells, slots, addr).value;
                  && |slots'| == n - 2
                  && HoldsJust(Denote(cells', slots'[n - 3]), k, x)
                  && SameBut(m, Denote(cells', slots'[n - 3]), k)
                  && (forall i :: 0 <= i < n - 3 ==> Denote(cells', slots'[i]) == Denote(cells, slots[i])))
  {
    hide Counted, Kept, SetStep, PureSet, Denote, HoldsJust, SameBut, FreeAddress, PopCells;
    SetRefines(cells, slots, others, addr);
    PureSetLaw(Contents(cells, slots));
    if SetStep(cells, slots, addr).Some? {
      var (cells', slots') := SetStep(cells, slots, addr).value;
      SameFront(Contents(cells, slots), Contents(cells', slots'), |slots| - 3);
      forall i | 0 <= i < |slots| - 3 ensures Denote(cells', slots'[i]) == Denote(cells, slots[i]) {
        assert Contents(cells', slots')[i] == Contents(cells, slots)[i];
      }
    }
  }

  lemma SameFront(vs: seq<Value>, vs': seq<Value>, n: nat)
    requires n <= |vs| && n <= |vs'| && vs'[..n] == vs[..n]
    ensures forall i :: 0 <= i < n ==> vs'[i] == vs[i]
  {
    assert forall i :: 0 <= i < n ==> vs'[..n][i] == vs[..n][i];
  }

  lemma RemoveLaw(cells: Cells, slots: seq<Word>, others: multiset<Word>, addr: Word)
    requires |slots| >= 2 && Counted(cells, multiset(slots) + others)
    requires FreeAddress(PopCells(cells, slots, 2), addr)
    ensures var n := |slots|;
            var (m, k) := (Denote(cells, slots[n - 2]), Denote(cells, slots[n - 1]));
            && (RemoveStep(cells, slots, addr).Some? <==> Hashable(k) && m.Map?)
            && (RemoveStep(cells, slots, addr).Some? ==>
                  var (cells', slots') := RemoveStep(cells, slots, addr).value;
                  && |slots'| == n - 1
                  && HoldsNothing(Denote(cells', slots'[n - 2]), k)
                  && SameBut(m, Denote(cells', slots'[n - 2]), k)
                  && (forall i :: 0 <= i < n - 2 ==> Denote(cells', slots'[i]) == Denote(cells, slots[i])))
  {
    hide Counted, Kept, RemoveStep, PureRemove, Denote, HoldsNothing, SameBut, FreeAddress, PopCells;
    RemoveRefines(cells, slots, others, addr);
    PureRemoveLaw(Contents(cells, slots));
    if RemoveStep(cells, slots, addr).Some? {
      var (cells', slots') := RemoveStep(cells, slots, addr).value;
      SameFront(Contents(cells, slots), Contents(cells', slots'), |slots| - 2);
      forall i | 0 <= i < |slots| - 2 ensures Denote(cells', slots'[i]) == Denote(cells, slots[i]) {
        assert Contents(cells', slots')[i] == Contents(cells, slots)[i];
      }
    }
  }
}
