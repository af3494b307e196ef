/** Runtime values and their one-word encoding
    (crates/core/src/value.rs and crates/core/src/tagged_stack.rs). */
module Values {
  import opened Wrappers

  const TWO_62: int := 0x4000_0000_0000_0000
  const TWO_63: int := 0x8000_0000_0000_0000
  const TWO_64: int := 0x1_0000_0000_0000_0000

  type Int64 = i: int | -TWO_63 <= i < TWO_63

  /** An 8-byte stack slot. */
  type Word = w: int | 0 <= w < TWO_64

  datatype MapKey = IntKey(i: Int64) | StringKey(s: string) | BoolKey(b: bool)

  /** The map operations look at no other kind of value, so those are all Opaque. */
  datatype Value =
    | Int(i: Int64)
    | Bool(b: bool)
    | String(s: string)
    | Map(entries: map<MapKey, Value>)
    | Opaque(id: nat)

  function KeyFromValue(v: Value): Option<MapKey> {
    match v
    case Int(i) => Some(IntKey(i))
    case String(s) => Some(StringKey(s))
    case Bool(b) => Some(BoolKey(b))
    case _ => None
  }

  /** `to_value` */
  function KeyToValue(k: MapKey): Value {
    match k
    case IntKey(i) => Int(i)
    case StringKey(s) => String(s)
    case BoolKey(b) => Bool(b)
  }

  /** The keys are the integers, strings and Booleans, each its own key. */
  lemma KeysAreValues(v: Value, k: MapKey)
    ensures KeyFromValue(v).Some? <==> v.Int? || v.String? || v.Bool?
    ensures KeyFromValue(v) == Some(k) <==> KeyToValue(k) == v
  {
  }

  const TAG_FALSE: Word := 0
  const TAG_TRUE: Word := 2

  predicate IsTaggedInt(w: Word) {
    w % 2 != 0
  }

  predicate IsTaggedHeap(w: Word) {
    w % 2 == 0 && w > TAG_TRUE
  }

  predicate IsInline(w: Word) {
    IsTaggedInt(w) || w == TAG_FALSE || w == TAG_TRUE
  }

  /** Shift left by one in 64 bits, which drops the top bit, and set bit 0. */
  function TagInt(i: Int64): (w: Word) {
    ((i % TWO_64) * 2) % TWO_64 + 1
  }

  /** The word as a signed integer, shifted right arithmetically. */
  function UntagInt(w: Word): (i: Int64) {
    (if w < TWO_63 then w else w - TWO_64) / 2
  }

  /** Reduced to 63 bits, signed. */
  function Wrap63(i: int): (r: Int64)
    ensures (r - i) % TWO_63 == 0 && -TWO_62 <= r < TWO_62
  {
    (i + TWO_62) % TWO_63 - TWO_62
  }

  lemma TagRoundTrip(i: Int64)
    ensures IsTaggedInt(TagInt(i)) && UntagInt(TagInt(i)) == Wrap63(i)
  {
    if i < -TWO_62 {
      assert TagInt(i) == 2 * (i + TWO_63) + 1;
      assert Wrap63(i) == i + TWO_63;
    } else if i < 0 {
      assert TagInt(i) == 2 * (i + TWO_64) - TWO_64 + 1;
      assert Wrap63(i) == i;
    } else if i < TWO_62 {
      assert Wrap63(i) == i;
    } else {
      assert TagInt(i) == 2 * i + 1 - (if i < TWO_63 then 0 else TWO_64);
      assert Wrap63(i) == i - TWO_63;
    }
  }

  /** An integer survives the encoding exactly when it is in the documented 63-bit range. */
  lemma TagExactIff(i: Int64)
    ensures UntagInt(TagInt(i)) == i <==> -TWO_62 <= i < TWO_62
  {
    TagRoundTrip(i);
  }

  lemma UntagRoundTrip(w: Word)
    requires IsTaggedInt(w)
    ensures TagInt(UntagInt(w)) == w
  {
    if w < TWO_63 {
      assert UntagInt(w) * 2 + 1 == w;
    } else {
      assert UntagInt(w) * 2 + 1 == w - TWO_64;
    }
  }

  /** Every word is exactly one of: an integer, false, true, a heap address. */
  lemma WordKinds(w: Word)
    ensures IsTaggedHeap(w) <==> !IsInline(w)
    ensures IsTaggedInt(w) ==> w != TAG_FALSE && w != TAG_TRUE
  {
  }
}
