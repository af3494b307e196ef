/** Reference counts count slots, and sharing does not show: what each slot operation does to
    the counts and to the values of all slots. */
module Sharing {
  import opened Stack
  import opened Values
  import opened Wrappers

  /** slots are the slots of all stacks. Every cell is counted once for each slot that holds it,
      a cell that no slot holds is gone, and every heap word has its cell. */
  ghost predicate Counted(cells: Cells, slots: multiset<Word>) {
    && (forall w :: w in slots ==> IsInline(w) || w in cells)
    && (forall a :: a in cells ==> !IsInline(a) && cells[a].count == slots[a] && slots[a] > 0)
  }

  /** The slots denote what they did. */
  ghost predicate Kept(cells: Cells, cells': Cells, slots: multiset<Word>) {
    forall w :: w in slots ==> Denote(cells', w) == Denote(cells, w)
  }

  /** The values on a stack. */
  function Contents(cells: Cells, slots: seq<Word>): (vs: seq<Value>)
    ensures |vs| == |slots|
  {
    seq(|slots|, i requires 0 <= i < |slots| => Denote(cells, slots[i]))
  }

  /** An integer that goes through a slot comes back in 63 bits. */
  function Stored(v: Value): Value {
    if v.Int? then Int(Wrap63(v.i)) else v
  }

  lemma CloneCounted(cells: Cells, slots: multiset<Word>, w: Word)
    requires Counted(cells, slots) && w in slots
    ensures Counted(CloneWord(cells, w), slots + multiset{w})
    ensures Kept(cells, CloneWord(cells, w), slots)
  {
  }

  /** A cell is freed exactly when its last slot goes. */
  lemma DropCounted(cells: Cells, slots: multiset<Word>, w: Word)
    requires Counted(cells, slots) && w in slots
    ensures Counted(DropWord(cells, w), slots - multiset{w})
    ensures Kept(cells, DropWord(cells, w), slots - multiset{w})
    ensures !IsInline(w) ==> (w !in DropWord(cells, w) <==> slots[w] == 1)
  {
  }

  lemma BoxCounted(cells: Cells, slots: multiset<Word>, v: Value, addr: Word)
    requires Counted(cells, slots) && FreeAddress(cells, addr)
    ensures Counted(Box(cells, v, addr), slots + multiset{Boxed(v, addr)})
    ensures Kept(cells, Box(cells, v, addr), slots)
    ensures Denote(Box(cells, v, addr), Boxed(v, addr)) == Stored(v)
  {
    hide TagInt, UntagInt;
    if v.Int? { TagRoundTrip(v.i); }
    AddressIsHeap(addr);
    assert addr !in slots;
  }

  lemma AddressIsHeap(addr: Word)
    requires addr % 8 == 0 && addr != 0
    ensures !IsInline(addr)
  {
    assert addr == 8 * (addr / 8);
  }

  lemma {:induction false} ClonesCounted(cells: Cells, slots: multiset<Word>, ws: seq<Word>)
    requires Counted(cells, slots) && forall w :: w in ws ==> w in slots
    ensures Counted(CloneWords(cells, ws), slots + multiset(ws))
    ensures Kept(cells, CloneWords(cells, ws), slots)
    decreases ws
  {
    hide Counted, Kept, CloneWord;
    if ws == [] {
      assert slots + multiset(ws) == slots;
      KeptRefl(cells, slots);
    } else {
      var cells1 := CloneWord(cells, ws[0]);
      CloneCounted(cells, slots, ws[0]);
      assert forall w :: w in ws[1..] ==> w in ws;
      ClonesCounted(cells1, slots + multiset{ws[0]}, ws[1..]);
      assert ws == [ws[0]] + ws[1..];
      assert slots + multiset{ws[0]} + multiset(ws[1..]) == slots + multiset(ws);
      KeptTrans(cells, cells1, CloneWords(cells, ws), slots, slots + multiset{ws[0]});
    }
  }

  lemma {:induction false} DropsCounted(cells: Cells, slots: multiset<Word>, ws: seq<Word>)
    requires Counted(cells, slots) && multiset(ws) <= slots
    ensures Counted(DropWords(cells, ws), slots - multiset(ws))
    ensures Kept(cells, DropWords(cells, ws), slots - multiset(ws))
    decreases ws
  {
    hide Counted, Kept, DropWord;
    if ws == [] {
      assert slots - multiset(ws) == slots;
      KeptRefl(cells, slots);
    } else {
      var cells1 := DropWord(cells, ws[0]);
      assert ws == [ws[0]] + ws[1..];
      assert ws[0] in multiset(ws);
      DropCounted(cells, slots, ws[0]);
      DropsCounted(cells1, slots - multiset{ws[0]}, ws[1..]);
      assert slots - multiset{ws[0]} - multiset(ws[1..]) == slots - multiset(ws);
      KeptSub(cells, cells1, slots - multiset{ws[0]}, slots - multiset(ws));
      KeptTrans(cells, cells1, DropWords(cells, ws), slots - multiset(ws), slots - multiset(ws));
    }
  }

  lemma KeptRefl(cells: Cells, slots: multiset<Word>)
    ensures Kept(cells, cells, slots)
  {
  }

  lemma KeptSub(cells: Cells, cells': Cells, slots: multiset<Word>, fewer: multiset<Word>)
    requires Kept(cells, cells', slots) && fewer <= slots
    ensures Kept(cells, cells', fewer)
  {
  }

  lemma KeptTrans(cells: Cells, cells': Cells, cells'': Cells, slots: multiset<Word>, more: multiset<Word>)
    requires Kept(cells, cells', slots) && Kept(cells', cells'', more) && slots <= more
    ensures Kept(cells, cells'', slots)
  {
  }

  lemma KeptContents(cells: Cells, cells': Cells, slots: multiset<Word>, s: seq<Word>)
    requires Kept(cells, cells', slots) && multiset(s) <= slots
    ensures Contents(cells', s) == Contents(cells, s)
  {
    forall i | 0 <= i < |s| ensures Denote(cells', s[i]) == Denote(cells, s[i]) {
      assert s[i] in multiset(s);
    }
  }

  lemma Appended<T>(p: seq<T>, t: seq<T>)
    ensures multiset(p + t) == multiset(p) + multiset(t)
  {
  }

  lemma TopTwo<T>(p: seq<T>, a: T, b: T)
    ensures multiset(p + [b, a]) == multiset(p + [a, b])
    ensures multiset(p + [b]) + multiset([a]) == multiset(p + [a, b])
    ensures multiset(p + [b, a, b]) == multiset(p + [a, b]) + multiset([b])
  {
    Appended(p, [a, b]);
    Appended(p, [b, a]);
    Appended(p, [b]);
    Appended(p, [b, a, b]);
    assert multiset([b, a]) == multiset([a, b]) == multiset([b]) + multiset([a]);
    assert [b, a, b] == [b, a] + [b];
  }

  lemma TopThree<T>(p: seq<T>, a: T, b: T, c: T)
    ensures multiset(p + [b, c, a]) == multiset(p + [a, b, c])
  {
    Appended(p, [a, b, c]);
    Appended(p, [b, c, a]);
    assert multiset([b, c, a]) == multiset([a, b, c]);
  }

  /** What an operation leaves and gives up is what it found and copied. */
  ghost predicate Conserved<T>(op: Shuffle, s: seq<T>)
    requires |s| >= Needs(op)
  {
    multiset(Shuffled(op, s)) + multiset(Lost(op, s)) == multiset(s) + multiset(Copied(op, s))
  }

  lemma CopyConserves<T>(op: Shuffle, s: seq<T>)
    requires |s| >= Needs(op) && (op.Dup? || op.Over? || op.TwoDup?)
    ensures Conserved(op, s)
  {
    Appended(s, Copied(op, s));
    assert Shuffled(op, s) == s + Copied(op, s);
    assert multiset(Lost(op, s)) == multiset{};
  }

  lemma RotConserves<T>(s: seq<T>)
    requires |s| >= 3
    ensures Conserved(Rot, s)
  {
    RotPermutes(s);
    hide Shuffled;
    assert Lost(Rot, s) == Copied(Rot, s) == [];
  }

  lemma RotPermutes<T>(s: seq<T>)
    requires |s| >= 3
    ensures multiset(Shuffled(Rot, s)) == multiset(s)
  {
    var n := |s|;
    TopThree(s[..n - 3], s[n - 3], s[n - 2], s[n - 1]);
    assert s == s[..n - 3] + [s[n - 3], s[n - 2], s[n - 1]];
  }

  lemma SwapConserves<T>(s: seq<T>)
    requires |s| >= 2
    ensures Conserved(Swap, s)
  {
    TopTwoOf(s);
    hide Shuffled;
    assert Lost(Swap, s) == Copied(Swap, s) == [];
  }

  /** What the operations on the top two slots do to the multiset of slots. */
  lemma TopTwoOf<T>(s: seq<T>)
    requires |s| >= 2
    ensures multiset(Shuffled(Swap, s)) == multiset(s)
    ensures multiset(Shuffled(Nip, s)) + multiset([s[|s| - 2]]) == multiset(s)
    ensures multiset(Shuffled(Tuck, s)) == multiset(s) + multiset([s[|s| - 1]])
  {
    var n := |s|;
    TopTwo(s[..n - 2], s[n - 2], s[n - 1]);
    assert s == s[..n - 2] + [s[n - 2], s[n - 1]];
  }

  lemma NipConserves<T>(s: seq<T>)
    requires |s| >= 2
    ensures Conserved(Nip, s)
  {
    TopTwoOf(s);
    hide Shuffled;
    assert Lost(Nip, s) == [s[|s| - 2]] && Copied(Nip, s) == [];
    NothingMore(multiset(s), Copied(Nip, s));
  }

  lemma TuckConserves<T>(s: seq<T>)
    requires |s| >= 2
    ensures Conserved(Tuck, s)
  {
    TopTwoOf(s);
    hide Shuffled;
    assert Lost(Tuck, s) == [] && Copied(Tuck, s) == [s[|s| - 1]];
    NothingMore(multiset(Shuffled(Tuck, s)), Lost(Tuck, s));
  }

  lemma NothingMore<T>(m: multiset<T>, none: seq<T>)
    requires none == []
    ensures m + multiset(none) == m
  {
  }

  lemma DropConserves<T>(s: seq<T>)
    requires |s| >= 1
    ensures Conserved(Drop, s)
  {
    Appended(s[..|s| - 1], [s[|s| - 1]]);
    assert s == s[..|s| - 1] + [s[|s| - 1]];
  }

  lemma ShuffleConserves<T>(op: Shuffle, s: seq<T>)
    requires |s| >= Needs(op)
    ensures multiset(Shuffled(op, s)) + multiset(Lost(op, s)) == multiset(s) + multiset(Copied(op, s))
  {
    hide Shuffled, Lost, Copied;
    match op
    case Drop => DropConserves(s);
    case Swap => SwapConserves(s);
    case Rot => RotConserves(s);
    case Nip => NipConserves(s);
    case Tuck => TuckConserves(s);
    case _ => CopyConserves(op, s);
    assert Conserved(op, s);
  }

  lemma ShuffledFrom<T>(op: Shuffle, s: seq<T>)
    requires |s| >= Needs(op)
    ensures forall x :: x in Shuffled(op, s) ==> x in s
    ensures forall x :: x in Copied(op, s) ==> x in s
  {
  }

  lemma RollConserves<T>(s: seq<T>, i: nat)
    requires i < |s|
    ensures multiset(RollSeq(s, i)) == multiset(s)
  {
    var k := |s| - 1 - i;
    assert s == s[..k] + [s[k]] + s[k + 1..];
  }

  lemma ShuffledContents(cells: Cells, op: Shuffle, s: seq<Word>)
    requires |s| >= Needs(op)
    ensures Contents(cells, Shuffled(op, s)) == Shuffled(op, Contents(cells, s))
  {
  }

  lemma RollContents(cells: Cells, s: seq<Word>, i: nat)
    requires i < |s|
    ensures Contents(cells, RollSeq(s, i)) == RollSeq(Contents(cells, s), i)
  {
  }

  /** A shuffle keeps the counts, does to the values what its stack effect says, and leaves
      every other slot of every stack as it was. */
  lemma ShuffleShares(cells: Cells, op: Shuffle, s: seq<Word>, others: multiset<Word>)
    requires |s| >= Needs(op) && Counted(cells, multiset(s) + others)
    ensures Counted(ShuffleCells(cells, op, s), multiset(Shuffled(op, s)) + others)
    ensures Contents(ShuffleCells(cells, op, s), Shuffled(op, s)) == Shuffled(op, Contents(cells, s))
    ensures Kept(cells, ShuffleCells(cells, op, s), others)
  {
    hide Counted, Kept, CloneWords, DropWords, Contents, Shuffled, Copied, Lost;
    var slots := multiset(s) + others;
    var (copied, lost, s') := (Copied(op, s), Lost(op, s), Shuffled(op, s));
    ShuffleConserves(op, s);
    ShuffledFrom(op, s);
    InSlots(s, others);
    ClonesCounted(cells, slots, copied);
    var cells1 := CloneWords(cells, copied);
    var slots1 := slots + multiset(copied);
    assert slots1 == multiset(s') + multiset(lost) + others;
    DropsCounted(cells1, slots1, lost);
    var slots2 := slots1 - multiset(lost);
    assert slots2 == multiset(s') + others;
    ShuffledContents(cells, op, s);
    KeptSlots(cells, cells1, slots, s');
    KeptContents(cells1, DropWords(cells1, lost), slots2, s');
    KeptSub(cells, cells1, slots, others);
    KeptTrans(cells, cells1, DropWords(cells1, lost), others, slots2);
  }

  lemma InSlots(s: seq<Word>, others: multiset<Word>)
    ensures forall w :: w in s ==> w in multiset(s) + others
  {
  }

  lemma KeptSlots(cells: Cells, cells': Cells, slots: multiset<Word>, s: seq<Word>)
    requires Kept(cells, cells', slots) && forall w :: w in s ==> w in slots
    ensures Contents(cells', s) == Contents(cells, s)
  {
  }

  lemma PushShares(cells: Cells, s: seq<Word>, others: multiset<Word>, v: Value, addr: Word)
    requires Counted(cells, multiset(s) + others) && FreeAddress(cells, addr)
    ensures var (cells', s') := (Box(cells, v, addr), s + [Boxed(v, addr)]);
            && Counted(cells', multiset(s') + others)
            && Contents(cells', s') == Contents(cells, s) + [Stored(v)]
            && Kept(cells, cells', others)
  {
    hide Counted, Kept, Denote, Box, Boxed;
    var slots := multiset(s) + others;
    BoxCounted(cells, slots, v, addr);
    assert slots + multiset{Boxed(v, addr)} == multiset(s + [Boxed(v, addr)]) + others;
    KeptContents(cells, Box(cells, v, addr), slots, s);
    KeptSub(cells, Box(cells, v, addr), slots, others);
    assert Contents(Box(cells, v, addr), s + [Boxed(v, addr)])
        == Contents(Box(cells, v, addr), s) + [Denote(Box(cells, v, addr), Boxed(v, addr))];
  }

  lemma PopShares(cells: Cells, s: seq<Word>, others: multiset<Word>)
    requires s != [] && Counted(cells, multiset(s) + others)
    ensures var (cells', s') := (DropWord(cells, s[|s| - 1]), s[..|s| - 1]);
            && Counted(cells', multiset(s') + others)
            && Contents(cells, s) == Contents(cells', s') + [Denote(cells, s[|s| - 1])]
            && Kept(cells, cells', multiset(s') + others)
  {
    hide Counted, Kept, Denote, DropWord;
    var (top, s') := (s[|s| - 1], s[..|s| - 1]);
    assert s == s' + [top];
    DropCounted(cells, multiset(s) + others, top);
    assert multiset(s) + others - multiset{top} == multiset(s') + others;
    KeptContents(cells, DropWord(cells, top), multiset(s') + others, s');
    assert Contents(cells, s) == Contents(cells, s') + [Denote(cells, top)];
  }

  lemma PickShares(cells: Cells, s: seq<Word>, others: multiset<Word>, index: Option<nat>)
    requires Counted(cells, multiset(s) + others)
    ensures var (cells', s') := (PickCells(cells, s, index), Picked(s, index).0);
            && Counted(cells', multiset(s') + others)
            && (Contents(cells', s'), Picked(s, index).1) == Picked(Contents(cells, s), index)
            && Kept(cells, cells', others)
  {
    hide Counted, Kept, Denote, CloneWord;
    var slots := multiset(s) + others;
    KeptRefl(cells, others);
    if index.Some? && index.value < |s| {
      var w := s[|s| - 1 - index.value];
      CloneCounted(cells, slots, w);
      assert slots + multiset{w} == multiset(s + [w]) + others;
      KeptSlots(cells, CloneWord(cells, w), slots, s + [w]);
      KeptSub(cells, CloneWord(cells, w), slots, others);
      assert Contents(cells, s + [w]) == Contents(cells, s) + [Denote(cells, w)];
    }
  }

  lemma RollShares(cells: Cells, s: seq<Word>, others: multiset<Word>, index: Option<nat>)
    requires Counted(cells, multiset(s) + others)
    ensures var s' := Rolled(s, index).0;
            && Counted(cells, multiset(s') + others)
            && (Contents(cells, s'), Rolled(s, index).1) == Rolled(Contents(cells, s), index)
  {
    hide Counted, Denote;
    if index.Some? && 0 < index.value < |s| {
      RollConserves(s, index.value);
      RollContents(cells, s, index.value);
    }
  }

  /** Cloning a stack: the copy has the same values, and the originals keep theirs. */
  lemma CloneStackShares(cells: Cells, s: seq<Word>, slots: multiset<Word>)
    requires Counted(cells, slots) && multiset(s) <= slots
    ensures Counted(CloneWords(cells, s), slots + multiset(s))
    ensures Contents(CloneWords(cells, s), s) == Contents(cells, s)
    ensures Kept(cells, CloneWords(cells, s), slots)
  {
    hide Counted, Kept, CloneWords;
    assert forall w :: w in s ==> w in multiset(s);
    ClonesCounted(cells, slots, s);
    KeptContents(cells, CloneWords(cells, s), slots, s);
  }

  /** Dropping a TaggedStack gives up every slot; others are the slots of the other stacks. */
  method Release(stack: TaggedStack, heap: ArcHeap, ghost others: multiset<Word>)
    requires stack.Valid() && Counted(heap.cells, multiset(stack.Slots()) + others)
    modifies heap
    ensures heap.cells == DropWords(old(heap.cells), stack.Slots())
    ensures Counted(heap.cells, others)
  {
    hide Counted, Kept, DropWord;
    ghost var slots := stack.Slots();
    var i := 0;
    assert slots[0..] == slots;
    while i < stack.sp
      invariant 0 <= i <= stack.sp && stack.Slots() == slots
      invariant Counted(heap.cells, multiset(slots[i..]) + others)
      invariant DropWords(heap.cells, slots[i..]) == DropWords(old(heap.cells), slots)
    {
      var w := stack.base[i];
      ghost var left := multiset(slots[i..]) + others;
      assert slots[i..] == [w] + slots[i + 1..];
      CountedReadable(heap.cells, left, w);
      DropCounted(heap.cells, left, w);
      assert left - multiset{w} == multiset(slots[i + 1..]) + others;
      heap.DropValue(w);
      i := i + 1;
    }
    assert multiset(slots[i..]) + others == others;
  }

  lemma CountedReadable(cells: Cells, slots: multiset<Word>, w: Word)
    requires Counted(cells, slots) && w in slots
    ensures IsInline(w) || w in cells
  {
  }
}
