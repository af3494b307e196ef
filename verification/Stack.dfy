/** The value stack: slots are tagged words, heap values are shared by reference counts
    (crates/core/src/stack.rs and the TaggedStack of crates/core/src/tagged_stack.rs).
    Slots are listed from the base up, so the top is the last one. */
module Stack {
  import opened Values
  import opened Wrappers

  datatype Cell = Cell(count: nat, value: Value)

  type Cells = map<Word, Cell>

  // ---- Counted cells ----

  /** Heap addresses are 8-byte aligned and not null; the allocator picks a free one. */
  predicate FreeAddress(cells: Cells, addr: Word) {
    addr % 8 == 0 && addr != 0 && addr !in cells
  }

  /** `value_to_stack_value`: the slot for a value, boxed at addr unless it is inline. */
  function Boxed(v: Value, addr: Word): Word {
    match v
    case Int(i) => TagInt(i)
    case Bool(b) => if b then TAG_TRUE else TAG_FALSE
    case _ => addr
  }

  function Box(cells: Cells, v: Value, addr: Word): Cells {
    if v.Int? || v.Bool? then cells else cells[addr := Cell(1, v)]
  }

  /** The value in a slot. */
  function Denote(cells: Cells, w: Word): Value {
    if IsTaggedInt(w) then Int(UntagInt(w))
    else if w == TAG_FALSE then Bool(false)
    else if w == TAG_TRUE then Bool(true)
    else if w in cells then cells[w].value
    else Opaque(0)
  }

  function CloneWord(cells: Cells, w: Word): Cells {
    if IsInline(w) || w !in cells then cells else cells[w := cells[w].(count := cells[w].count + 1)]
  }

  function DropWord(cells: Cells, w: Word): Cells {
    if IsInline(w) || w !in cells then cells
    else if cells[w].count <= 1 then cells - {w}
    else cells[w := cells[w].(count := cells[w].count - 1)]
  }

  function CloneWords(cells: Cells, ws: seq<Word>): Cells {
    if ws == [] then cells else CloneWords(CloneWord(cells, ws[0]), ws[1..])
  }

  function DropWords(cells: Cells, ws: seq<Word>): Cells {
    if ws == [] then cells else DropWords(DropWord(cells, ws[0]), ws[1..])
  }

  lemma FewWords(cells: Cells, a: Word, b: Word)
    ensures CloneWords(cells, [a]) == CloneWord(cells, a)
    ensures DropWords(cells, [a]) == DropWord(cells, a)
    ensures CloneWords(cells, [a, b]) == CloneWord(CloneWord(cells, a), b)
  {
    assert [a, b][1..] == [b];
    assert CloneWords(CloneWord(cells, a), [b]) == CloneWord(CloneWord(cells, a), b);
  }

  /** The heap, as the reference counter sees it. */
  class ArcHeap {
    var cells: Cells

    /** `clone_stack_value` */
    method CloneValue(w: Word) returns (r: Word)
      requires IsInline(w) || w in cells
      modifies this
      ensures r == w && cells == CloneWord(old(cells), w)
    {
      if !IsInline(w) {
        cells := cells[w := cells[w].(count := cells[w].count + 1)];
      }
      r := w;
    }

    /** `drop_stack_value` */
    method DropValue(w: Word)
      requires IsInline(w) || w in cells
      modifies this
      ensures cells == DropWord(old(cells), w)
    {
      if IsInline(w) { return; }
      if cells[w].count <= 1 {
        cells := cells - {w};
      } else {
        cells := cells[w := cells[w].(count := cells[w].count - 1)];
      }
    }

    /** `value_to_stack_value`; addr is what the allocator returns. */
    method FromValue(v: Value, addr: Word) returns (w: Word)
      requires FreeAddress(cells, addr)
      modifies this
      ensures w == Boxed(v, addr) && cells == Box(old(cells), v, addr)
    {
      match v
      case Int(i) => w := TagInt(i);
      case Bool(b) => w := if b then TAG_TRUE else TAG_FALSE;
      case _ =>
        cells := cells[addr := Cell(1, v)];
        w := addr;
    }

    /** `stack_value_to_value`: takes the value over, or copies it when the cell is shared. */
    method ToValue(w: Word) returns (v: Value)
      requires IsInline(w) || w in cells
      modifies this
      ensures v == Denote(old(cells), w) && cells == DropWord(old(cells), w)
    {
      if IsTaggedInt(w) {
        v := Int(UntagInt(w));
      } else if w == TAG_FALSE {
        v := Bool(false);
      } else if w == TAG_TRUE {
        v := Bool(true);
      } else {
        v := cells[w].value;
        DropValue(w);
      }
    }
  }

  // ---- The shuffle operations ----

  datatype Shuffle = Dup | Drop | Swap | Over | Rot | Nip | Tuck | TwoDup

  function Needs(op: Shuffle): nat {
    match op
    case Dup => 1
    case Drop => 1
    case Rot => 3
    case _ => 2
  }

  /** The documented stack effects. */
  function Shuffled<T>(op: Shuffle, s: seq<T>): seq<T>
    requires |s| >= Needs(op)
  {
    var n := |s|;
    match op
    case Dup => s + [s[n - 1]]
    case Drop => s[..n - 1]
    case Swap => s[..n - 2] + [s[n - 1], s[n - 2]]
    case Over => s + [s[n - 2]]
    case Rot => s[..n - 3] + [s[n - 2], s[n - 1], s[n - 3]]
    case Nip => s[..n - 2] + [s[n - 1]]
    case Tuck => s[..n - 2] + [s[n - 1], s[n - 2], s[n - 1]]
    case TwoDup => s + [s[n - 2], s[n - 1]]
  }

  /** The slots whose values the operation copies, and those it gives up. */
  function Copied<T>(op: Shuffle, s: seq<T>): seq<T>
    requires |s| >= Needs(op)
  {
    var n := |s|;
    match op
    case Dup => [s[n - 1]]
    case Over => [s[n - 2]]
    case Tuck => [s[n - 1]]
    case TwoDup => [s[n - 2], s[n - 1]]
    case _ => []
  }

  function Lost<T>(op: Shuffle, s: seq<T>): seq<T>
    requires |s| >= Needs(op)
  {
    match op
    case Drop => [s[|s| - 1]]
    case Nip => [s[|s| - 2]]
    case _ => []
  }

  function ShuffleCells(cells: Cells, op: Shuffle, s: seq<Word>): Cells
    requires |s| >= Needs(op)
  {
    DropWords(CloneWords(cells, Copied(op, s)), Lost(op, s))
  }

  /** The item at depth i taken out and put on top. */
  function RollSeq<T>(s: seq<T>, i: nat): seq<T>
    requires i < |s|
  {
    var k := |s| - 1 - i;
    s[..k] + s[k + 1..] + [s[k]]
  }

  lemma SwapIsRoll<T>(s: seq<T>)
    requires |s| >= 2
    ensures Shuffled(Swap, s) == RollSeq(s, 1)
  {
  }

  lemma RotIsRoll<T>(s: seq<T>)
    requires |s| >= 3
    ensures Shuffled(Rot, s) == RollSeq(s, 2)
  {
  }

  /** The Int index on top, if it is one and not negative. */
  function IndexOf(v: Value): Option<nat> {
    if v.Int? && v.i >= 0 then Some(v.i) else None
  }

  /** What pick leaves, and whether it reports an error. */
  function Picked<T>(rest: seq<T>, index: Option<nat>): (seq<T>, bool) {
    if index.None? || index.value >= |rest| then (rest, true)
    else (rest + [rest[|rest| - 1 - index.value]], false)
  }

  /** What roll leaves; roll 0 does nothing, whatever the depth. */
  function Rolled<T>(rest: seq<T>, index: Option<nat>): (seq<T>, bool) {
    if index == Some(0) then (rest, false)
    else if index.None? || index.value >= |rest| then (rest, true)
    else (RollSeq(rest, index.value), false)
  }

  /** pick, told by positions from the top: it copies item n, and refuses what is no depth. */
  lemma PickLaw<T>(rest: seq<T>, v: Value)
    ensures var (s, error) := Picked(rest, IndexOf(v));
            && (error <==> !(v.Int? && 0 <= v.i < |rest|))
            && s[..|rest|] == rest && |s| == |rest| + (if error then 0 else 1)
            && (!error ==> s[|rest|] == rest[|rest| - 1 - v.i])
  {
  }

  /** roll: item n comes to the top, those above it go down by one, those below it stay. */
  lemma RollLaw<T>(rest: seq<T>, v: Value)
    ensures var (s, error) := Rolled(rest, IndexOf(v));
            && (error <==> !(v.Int? && (v.i == 0 || 0 < v.i < |rest|)))
            && |s| == |rest| && (error || v.i == 0 ==> s == rest)
            && (!error && v.i > 0 ==>
                  && s[|rest| - 1] == rest[|rest| - 1 - v.i]
                  && s[..|rest| - 1 - v.i] == rest[..|rest| - 1 - v.i]
                  && s[|rest| - 1 - v.i..|rest| - 1] == rest[|rest| - v.i..])
  {
  }

  /** The documented effects, on any stack that ends in a b c. */
  lemma ShuffleEffects<T>(p: seq<T>, a: T, b: T, c: T)
    ensures Shuffled(Dup, p + [a]) == p + [a, a]
    ensures Shuffled(Drop, p + [a]) == p
    ensures Shuffled(Swap, p + [a, b]) == p + [b, a]
    ensures Shuffled(Over, p + [a, b]) == p + [a, b, a]
    ensures Shuffled(Nip, p + [a, b]) == p + [b]
    ensures Shuffled(Tuck, p + [a, b]) == p + [b, a, b]
    ensures Shuffled(TwoDup, p + [a, b]) == p + [a, b, a, b]
    ensures Shuffled(Rot, p + [a, b, c]) == p + [b, c, a]
  {
  }

  /** The operations against each other, as their documented effects have it. */
  lemma ShuffleLaws<T>(s: seq<T>)
    requires |s| >= 2
    ensures Shuffled(Drop, Shuffled(Dup, s)) == s
    ensures Shuffled(Swap, Shuffled(Swap, s)) == s
    ensures Shuffled(Dup, s) == Picked(s, IndexOf(Int(0))).0 && Shuffled(Over, s) == Picked(s, IndexOf(Int(1))).0
    ensures Shuffled(Nip, s) == Shuffled(Drop, Shuffled(Swap, s))
    ensures Shuffled(Tuck, s) == Shuffled(Over, Shuffled(Swap, s))
    ensures Shuffled(TwoDup, s) == Shuffled(Over, Shuffled(Over, s))
    ensures |s| >= 3 ==> Shuffled(Rot, Shuffled(Rot, Shuffled(Rot, s))) == s
  {
  }

  function PickCells(cells: Cells, rest: seq<Word>, index: Option<nat>): Cells {
    if index.None? || index.value >= |rest| then cells
    else CloneWord(cells, rest[|rest| - 1 - index.value])
  }

  /** Slots that can be read: inline, or a cell that is there. */
  predicate Readable(cells: Cells, slots: seq<Word>) {
    forall k :: 0 <= k < |slots| ==> IsInline(slots[k]) || slots[k] in cells
  }

  class TaggedStack {
    var base: array<Word>
    var sp: nat
    var capacity: nat

    ghost predicate Valid()
      reads this
    {
      sp <= capacity == base.Length
    }

    function Slots(): (s: seq<Word>)
      reads this, base
      requires Valid()
      ensures |s| == sp
    {
      base[..sp]
    }

    constructor (capacity: nat)
      ensures Valid() && fresh(base) && Slots() == [] && this.capacity == capacity
    {
      base := new Word[capacity];
      sp := 0;
      this.capacity := capacity;
    }

    method Grow(minCapacity: nat)
      requires Valid()
      modifies this
      ensures Valid() && fresh(base) && Slots() == old(Slots())
      ensures capacity >= minCapacity && capacity >= 2 * old(capacity)
    {
      var newCapacity := if capacity * 2 >= minCapacity then capacity * 2 else minCapacity;
      var newBase := new Word[newCapacity];
      forall k | 0 <= k < sp { newBase[k] := base[k]; }
      base := newBase;
      capacity := newCapacity;
    }

    method Push(w: Word)
      requires Valid()
      modifies this, base
      ensures Valid() && (base == old(base) || fresh(base))
      ensures Slots() == old(Slots()) + [w]
      ensures old(sp) < old(capacity) ==> capacity == old(capacity)
    {
      if sp >= capacity {
        Grow(capacity + 1);
      }
      base[sp] := w;
      sp := sp + 1;
    }

    method Pop() returns (w: Word)
      requires Valid() && Slots() != []
      modifies this
      ensures Valid() && base == old(base)
      ensures old(Slots()) == Slots() + [w]
    {
      sp := sp - 1;
      w := base[sp];
    }

    /** A deep copy for a new strand: every slot is cloned. */
    method CloneStack(heap: ArcHeap) returns (copy: TaggedStack)
      requires Valid() && Readable(heap.cells, Slots())
      modifies heap
      ensures fresh(copy) && fresh(copy.base) && copy.Valid() && copy.Slots() == Slots() && copy.capacity == capacity
      ensures heap.cells == CloneWords(old(heap.cells), Slots())
    {
      copy := new TaggedStack(capacity);
      var i := 0;
      while i < sp
        invariant 0 <= i <= sp && copy.Valid() && fresh(copy) && fresh(copy.base)
        invariant copy.Slots() == Slots()[..i] && copy.capacity == capacity
        invariant Readable(heap.cells, Slots())
        invariant CloneWords(heap.cells, Slots()[i..]) == CloneWords(old(heap.cells), Slots())
      {
        assert Slots()[i..][0] == base[i] && Slots()[i..][1..] == Slots()[i + 1..];
        var w := heap.CloneValue(base[i]);
        copy.Push(w);
        i := i + 1;
      }
      assert Slots()[..sp] == Slots();
    }

    // The operations on the top slots. They need room for what they push.

    method DoDup(heap: ArcHeap)
      requires Valid() && |Slots()| >= 1 && sp < capacity && Readable(heap.cells, Slots())
      modifies this, base, heap
      ensures Valid() && base == old(base)
      ensures Slots() == Shuffled(Dup, old(Slots())) && heap.cells == ShuffleCells(old(heap.cells), Dup, old(Slots()))
    {
      FewWords(heap.cells, base[sp - 1], 0);
      var w := heap.CloneValue(base[sp - 1]);
      base[sp] := w;
      sp := sp + 1;
    }

    method DoDrop(heap: ArcHeap)
      requires Valid() && |Slots()| >= 1 && Readable(heap.cells, Slots())
      modifies this, heap
      ensures Valid() && base == old(base)
      ensures Slots() == Shuffled(Drop, old(Slots())) && heap.cells == ShuffleCells(old(heap.cells), Drop, old(Slots()))
    {
      FewWords(heap.cells, base[sp - 1], 0);
      var w := Pop();
      heap.DropValue(w);
    }

    /** `push` of a value. */
    method PushValue(heap: ArcHeap, v: Value, addr: Word)
      requires Valid() && sp < capacity && FreeAddress(heap.cells, addr)
      modifies this, base, heap
      ensures Valid() && base == old(base)
      ensures Slots() == old(Slots()) + [Boxed(v, addr)] && heap.cells == Box(old(heap.cells), v, addr)
    {
      var w := heap.FromValue(v, addr);
      base[sp] := w;
      sp := sp + 1;
    }

    /** `pop` of a value. */
    method PopValue(heap: ArcHeap) returns (v: Value)
      requires Valid() && |Slots()| >= 1 && Readable(heap.cells, Slots())
      modifies this, heap
      ensures Valid() && base == old(base) && Slots() == old(Slots())[..old(sp) - 1]
      ensures v == Denote(old(heap.cells), old(Slots())[old(sp) - 1])
      ensures heap.cells == DropWord(old(heap.cells), old(Slots())[old(sp) - 1])
    {
      var w := Pop();
      v := heap.ToValue(w);
    }

    method DoSwap()
      requires Valid() && |Slots()| >= 2
      modifies base
      ensures Valid() && Slots() == Shuffled(Swap, old(Slots()))
    {
      var a, b := base[sp - 2], base[sp - 1];
      base[sp - 2] := b;
      base[sp - 1] := a;
    }

    method DoOver(heap: ArcHeap)
      requires Valid() && |Slots()| >= 2 && sp < capacity && Readable(heap.cells, Slots())
      modifies this, base, heap
      ensures Valid() && base == old(base)
      ensures Slots() == Shuffled(Over, old(Slots())) && heap.cells == ShuffleCells(old(heap.cells), Over, old(Slots()))
    {
      FewWords(heap.cells, base[sp - 2], 0);
      var w := heap.CloneValue(base[sp - 2]);
      base[sp] := w;
      sp := sp + 1;
    }

    method DoRot()
      requires Valid() && |Slots()| >= 3
      modifies base
      ensures Valid() && Slots() == Shuffled(Rot, old(Slots()))
    {
      var a, b, c := base[sp - 3], base[sp - 2], base[sp - 1];
      base[sp - 3] := b;
      base[sp - 2] := c;
      base[sp - 1] := a;
    }

    method DoNip(heap: ArcHeap)
      requires Valid() && |Slots()| >= 2 && Readable(heap.cells, Slots())
      modifies this, base, heap
      ensures Valid() && base == old(base)
      ensures Slots() == Shuffled(Nip, old(Slots())) && heap.cells == ShuffleCells(old(heap.cells), Nip, old(Slots()))
    {
      FewWords(heap.cells, base[sp - 2], 0);
      var a, b := base[sp - 2], base[sp - 1];
      heap.DropValue(a);
      base[sp - 2] := b;
      sp := sp - 1;
    }

    method DoTuck(heap: ArcHeap)
      requires Valid() && |Slots()| >= 2 && sp < capacity && Readable(heap.cells, Slots())
      modifies this, base, heap
      ensures Valid() && base == old(base)
      ensures Slots() == Shuffled(Tuck, old(Slots())) && heap.cells == ShuffleCells(old(heap.cells), Tuck, old(Slots()))
    {
      FewWords(heap.cells, base[sp - 1], 0);
      var a, b := base[sp - 2], base[sp - 1];
      var w := heap.CloneValue(b);
      base[sp - 2] := b;
      base[sp - 1] := a;
      base[sp] := w;
      sp := sp + 1;
    }

    method DoTwoDup(heap: ArcHeap)
      requires Valid() && |Slots()| >= 2 && sp + 1 < capacity && Readable(heap.cells, Slots())
      modifies this, base, heap
      ensures Valid() && base == old(base)
      ensures Slots() == Shuffled(TwoDup, old(Slots()))
          && heap.cells == ShuffleCells(old(heap.cells), TwoDup, old(Slots()))
    {
      FewWords(heap.cells, base[sp - 2], base[sp - 1]);
      var a := heap.CloneValue(base[sp - 2]);
      var b := heap.CloneValue(base[sp - 1]);
      base[sp] := a;
      base[sp + 1] := b;
      sp := sp + 2;
    }

    /** The index is consumed even when it is refused. */
    method PopIndex(heap: ArcHeap) returns (index: Option<nat>)
      requires Valid() && |Slots()| >= 1 && Readable(heap.cells, Slots())
      modifies this, heap
      ensures Valid() && base == old(base) && Slots() == old(Slots())[..old(sp) - 1]
      ensures index == IndexOf(Denote(old(heap.cells), old(Slots())[old(sp) - 1]))
      ensures heap.cells == DropWord(old(heap.cells), old(Slots())[old(sp) - 1])
    {
      var w := Pop();
      var v := heap.ToValue(w);
      match v
      case Int(i) => index := if i < 0 then None else Some(i);
      case _ => index := None;
    }

    /** A pick that is in bounds needs no more room than its index had. */
    method DoPick(heap: ArcHeap) returns (error: bool)
      requires Valid() && |Slots()| >= 1 && Readable(heap.cells, Slots())
      requires forall k :: 0 <= k < sp - 1 ==>
          IsInline(Slots()[k]) || Slots()[k] in DropWord(heap.cells, Slots()[sp - 1])
      modifies this, base, heap
      ensures Valid() && base == old(base)
      ensures var top, rest := old(Slots())[old(sp) - 1], old(Slots())[..old(sp) - 1];
              var index := IndexOf(Denote(old(heap.cells), top));
              && (Slots(), error) == Picked(rest, index)
              && heap.cells == PickCells(DropWord(old(heap.cells), top), rest, index)
    {
      var index := PopIndex(heap);
      if index.None? || index.value >= sp { return true; }
      ghost var rest := Slots();
      assert rest[|rest| - 1 - index.value] == base[sp - (index.value + 1)];
      var w := heap.CloneValue(base[sp - (index.value + 1)]);
      base[sp] := w;
      sp := sp + 1;
      assert Slots() == rest + [w];
      return false;
    }

    /** Roll 1 and roll 2 do not check the depth: they are swap and rot. */
    method DoRoll(heap: ArcHeap) returns (error: bool)
      requires Valid() && |Slots()| >= 1 && Readable(heap.cells, Slots())
      requires var index := IndexOf(Denote(heap.cells, Slots()[sp - 1]));
               index == Some(1) || index == Some(2) ==> index.value < sp - 1
      modifies this, base, heap
      ensures Valid() && base == old(base)
      ensures var top, rest := old(Slots())[old(sp) - 1], old(Slots())[..old(sp) - 1];
              && (Slots(), error) == Rolled(rest, IndexOf(Denote(old(heap.cells), top)))
              && heap.cells == DropWord(old(heap.cells), top)
    {
      hide RollSeq, Shuffled, ShuffleCells;
      var index := PopIndex(heap);
      if index.None? { return true; }
      var n := index.value;
      if n == 0 { return false; }
      if n == 1 {
        SwapIsRoll(Slots());
        DoSwap();
        return false;
      }
      if n == 2 {
        RotIsRoll(Slots());
        DoRot();
        return false;
      }
      if n >= sp { return true; }
      MoveDown(n);
      return false;
    }

    /** The memmove: n slots above the source go down by one, the source goes on top. */
    method MoveDown(n: nat)
      requires Valid() && n < sp
      modifies base
      ensures Valid() && Slots() == RollSeq(old(Slots()), n)
    {
      ghost var s := Slots();
      var src := sp - (n + 1);
      var saved := base[src];
      forall k | src <= k < src + n { base[k] := base[k + 1]; }
      base[sp - 1] := saved;
      assert base[..src] == s[..src];
      assert base[src..sp - 1] == s[src + 1..];
      assert Slots() == base[..src] + base[src..sp - 1] + [saved];
    }
  }
}
