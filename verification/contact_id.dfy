/** Contact identifiers (Collision/ContactID.cs): four signed bytes naming the
    features of the two shapes that produced a contact point, packed into one
    32-bit key so that points can be matched across time steps for warm starting.

    A field is a `bv8` holding the two's-complement bits of the source's `sbyte`.
    `Key` is the 32-bit pattern the source builds by sign-extending each byte to
    an `int`, shifting it into place and or-ing the four together. */
module ContactIds {

  datatype ContactID = ContactID(indexA: bv8, indexB: bv8, typeA: bv8, typeB: bv8)

  /** Feature kinds stored in `typeA` / `typeB`. */
  const VERTEX: bv8 := 0
  const FACE: bv8 := 1

  /** The byte is a non-negative `sbyte` (0..127). */
  predicate NonNegativeByte(b: bv8) { b < 0x80 }

  /** Every field is a non-negative `sbyte`, as every feature index and type is. */
  predicate Canonical(c: ContactID) {
    NonNegativeByte(c.indexA) && NonNegativeByte(c.indexB)
    && NonNegativeByte(c.typeA) && NonNegativeByte(c.typeB)
  }

  /** Sign extension of an `sbyte` to a 32-bit `int`. */
  function Widen(b: bv8): (w: bv32)
    ensures NonNegativeByte(b) ==> w < 0x80
  {
    if b < 0x80 then b as bv32 else (b as bv32) | 0xFFFF_FF00
  }

  /** The packed key, `indexA << 24 | indexB << 16 | typeA << 8 | typeB`. */
  function Key(c: ContactID): bv32 {
    (Widen(c.indexA) << 24) | (Widen(c.indexB) << 16) | (Widen(c.typeA) << 8) | Widen(c.typeB)
  }

  /** Byte `k` (0 = lowest) of a 32-bit pattern, as a number in 0..255. */
  function ByteOf(w: bv32, k: nat): (r: int)
    requires k < 4
    ensures 0 <= r < 256
  {
    ((w >> (8 * k)) & 0xFF) as bv8 as int
  }

  /** The signed 32-bit `int` a pattern denotes, read byte by byte. */
  function Int32Of(w: bv32): (r: int)
    ensures -0x8000_0000 <= r < 0x8000_0000
  {
    var u := ByteOf(w, 3) * 0x100_0000 + ByteOf(w, 2) * 0x1_0000 + ByteOf(w, 1) * 0x100 + ByteOf(w, 0);
    if u < 0x8000_0000 then u else u - 0x1_0000_0000
  }

  /** Wrap-around of a mathematical integer into the 32-bit `int` range. */
  function Wrap32(x: int): (r: int)
    ensures -0x8000_0000 <= r < 0x8000_0000
    ensures -0x8000_0000 <= x < 0x8000_0000 ==> r == x
  {
    (x + 0x8000_0000) % 0x1_0000_0000 - 0x8000_0000
  }

  /** The key as the source's `int`. */
  function KeyValue(c: ContactID): int { Int32Of(Key(c)) }

  /** `isEqual`: two ids are equal when their keys are. */
  predicate IsEqual(c: ContactID, d: ContactID) { Key(c) == Key(d) }

  /** `CompareTo`: `Key - o.Key` in wrapping 32-bit `int` arithmetic. */
  function CompareTo(c: ContactID, o: ContactID): int {
    Wrap32(KeyValue(c) - KeyValue(o))
  }

  /** With non-negative fields the four bytes occupy disjoint lanes of the key. */
  lemma KeyLanes(c: ContactID)
    requires Canonical(c)
    ensures ByteOf(Key(c), 3) == c.indexA as int
    ensures ByteOf(Key(c), 2) == c.indexB as int
    ensures ByteOf(Key(c), 1) == c.typeA as int
    ensures ByteOf(Key(c), 0) == c.typeB as int
  {
    KeyLaneBits(c);
    ByteRoundTrip(c.indexA);
    ByteRoundTrip(c.indexB);
    ByteRoundTrip(c.typeA);
    ByteRoundTrip(c.typeB);
  }

  /** The lanes of the key at the bit level. */
  lemma KeyLaneBits(c: ContactID)
    requires Canonical(c)
    ensures (Key(c) >> 24) & 0xFF == c.indexA as bv32
    ensures (Key(c) >> 16) & 0xFF == c.indexB as bv32
    ensures (Key(c) >> 8) & 0xFF == c.typeA as bv32
    ensures (Key(c) >> 0) & 0xFF == c.typeB as bv32
  {
  }

  lemma ByteRoundTrip(b: bv8)
    ensures (b as bv32) as bv8 as int == b as int
  {
  }

  /** With non-negative fields the key is the base-256 number with digits
      indexA, indexB, typeA, typeB; in particular it is a non-negative `int`. */
  lemma KeyValueDigits(c: ContactID)
    requires Canonical(c)
    ensures KeyValue(c) == c.indexA as int * 0x100_0000 + c.indexB as int * 0x1_0000
                         + c.typeA as int * 0x100 + c.typeB as int
    ensures 0 <= KeyValue(c) < 0x8000_0000
  {
    KeyLanes(c);
  }

  /** With non-negative fields, `Key` is injective, so `isEqual` is field equality. */
  lemma KeyInjective(c: ContactID, d: ContactID)
    requires Canonical(c) && Canonical(d)
    ensures IsEqual(c, d) <==> c == d
  {
    KeyLanes(c);
    KeyLanes(d);
    if IsEqual(c, d) {
      assert c.indexA as int == d.indexA as int;
      assert c.indexB as int == d.indexB as int;
      assert c.typeA as int == d.typeA as int;
      assert c.typeB as int == d.typeB as int;
    }
  }

  /** A negative `typeB` sign-extends over every other lane, so without the
      non-negative-field condition two different ids can share a key. */
  lemma NegativeByteCollides()
    ensures IsEqual(ContactID(1, 2, 3, 0xFF), ContactID(4, 5, 6, 0xFF))
  {
    assert Widen(0xFF) == 0xFFFF_FFFF;
  }

  /** With non-negative fields both keys are non-negative `int`s, so the wrapped
      difference `Key - o.Key` cannot overflow, its sign orders the keys, and it
      is zero exactly for identical ids (which, by `KeyInjective`, are the ids
      `isEqual` accepts). */
  lemma CompareToOrdersKeys(c: ContactID, o: ContactID)
    requires Canonical(c) && Canonical(o)
    ensures CompareTo(c, o) == KeyValue(c) - KeyValue(o)
    ensures CompareTo(c, o) < 0 <==> KeyValue(c) < KeyValue(o)
    ensures CompareTo(c, o) == 0 <==> c == o
  {
    CompareToExact(c, o);
    if KeyValue(c) == KeyValue(o) {
      KeyValueInjective(c, o);
    }
  }

  /** Between canonical ids the wrapped difference is the exact difference. */
  lemma CompareToExact(c: ContactID, o: ContactID)
    requires Canonical(c) && Canonical(o)
    ensures CompareTo(c, o) == KeyValue(c) - KeyValue(o)
  {
    KeyValueDigits(c);
    KeyValueDigits(o);
  }

  /** Canonical ids with the same key value are the same id. */
  lemma KeyValueInjective(c: ContactID, o: ContactID)
    requires Canonical(c) && Canonical(o)
    requires KeyValue(c) == KeyValue(o)
    ensures c == o
  {
    KeyValueDigits(c);
    KeyValueDigits(o);
    var a, b, t, u := c.indexA as int, c.indexB as int, c.typeA as int, c.typeB as int;
    var a', b', t', u' := o.indexA as int, o.indexB as int, o.typeA as int, o.typeB as int;
    DigitsUnique(a, b, t, u, a', b', t', u');
    SameBytes(c.indexA, o.indexA);
    SameBytes(c.indexB, o.indexB);
    SameBytes(c.typeA, o.typeA);
    SameBytes(c.typeB, o.typeB);
  }

  lemma SameBytes(a: bv8, b: bv8)
    requires a as int == b as int
    ensures a == b
  {
  }

  /** Base-256 digits are unique. */
  lemma DigitsUnique(a: int, b: int, c: int, d: int, a': int, b': int, c': int, d': int)
    requires 0 <= a < 256 && 0 <= b < 256 && 0 <= c < 256 && 0 <= d < 256
    requires 0 <= a' < 256 && 0 <= b' < 256 && 0 <= c' < 256 && 0 <= d' < 256
    requires a * 0x100_0000 + b * 0x1_0000 + c * 0x100 + d == a' * 0x100_0000 + b' * 0x1_0000 + c' * 0x100 + d'
    ensures a == a' && b == b' && c == c' && d == d'
  {
  }

  /** `flip`: swap the A and B features. */
  function Flip(c: ContactID): (r: ContactID)
    ensures r.indexA == c.indexB && r.indexB == c.indexA
    ensures r.typeA == c.typeB && r.typeB == c.typeA
  {
    ContactID(c.indexB, c.indexA, c.typeB, c.typeA)
  }

  /** Flipping twice gives the original id back. */
  lemma FlipInvolution(c: ContactID)
    ensures Flip(Flip(c)) == c
  {
  }

  /** `zero`: clear every field; the key of the result is 0. */
  function ZeroId(): (r: ContactID)
    ensures Key(r) == 0
    ensures Canonical(r)
  {
    ContactID(0, 0, 0, 0)
  }

  /** `set_Renamed` (and the copy constructor), as written: `indexB` receives the
      source's `indexA`, not its `indexB`. The target's previous value is irrelevant. */
  function SetFrom(c: ContactID): (r: ContactID)
    ensures r.indexA == c.indexA && r.typeA == c.typeA && r.typeB == c.typeB
    ensures r.indexB == c.indexA
    ensures c.indexA == c.indexB ==> r == c
    ensures Canonical(c) ==> (IsEqual(r, c) <==> c.indexA == c.indexB)
  {
    var r := ContactID(c.indexA, c.indexA, c.typeA, c.typeB);
    if Canonical(c) then KeyInjective(r, c); r else r
  }

  /** Copying as written is a projection: copying a copy changes nothing more. */
  lemma SetFromIdempotent(c: ContactID)
    ensures SetFrom(SetFrom(c)) == SetFrom(c)
    ensures Canonical(c) ==> Canonical(SetFrom(c))
  {
  }

  /** The copy as written is not equal to its source: the copy of (1, 2, 0, 0)
      has `indexB` 1 and a different key. */
  lemma SetFromLosesIndexB()
    ensures SetFrom(ContactID(1, 2, 0, 0)) == ContactID(1, 1, 0, 0)
    ensures !IsEqual(SetFrom(ContactID(1, 2, 0, 0)), ContactID(1, 2, 0, 0))
  {
    assert Key(ContactID(1, 1, 0, 0)) == 0x0101_0000;
    assert Key(ContactID(1, 2, 0, 0)) == 0x0102_0000;
  }

  /** The copy the method evidently means: all four fields copied. */
  function SetFromIntended(c: ContactID): (r: ContactID)
    ensures r.indexA == c.indexA && r.indexB == c.indexB
    ensures r.typeA == c.typeA && r.typeB == c.typeB
    ensures IsEqual(r, c)
  {
    ContactID(c.indexA, c.indexB, c.typeA, c.typeB)
  }
}
