/**
 Character sets of LPeg (3rd/lpeg/lpcset.c, 3rd/lpeg/lptypes.h): 256 bits, and the compact
 form kept inside instructions and tree nodes, which stores only a range of bytes and one
 default value for everything outside it.
 */
module Charsets {
  import opened Common

  type Subject = seq<Byte>

  /** Bit c tells whether character c belongs to the set. */
  type Charset = s: seq<bool> | |s| == 256 witness seq(256, _ => false)

  function FullSet(): Charset { seq(256, _ => true) }

  function Single(c: Byte): Charset { seq(256, x => x == c) }

  function EmptySet(): Charset { seq(256, _ => false) }

  function Complement(a: Charset): Charset { seq(256, c requires 0 <= c < 256 => !a[c]) }

  function Union(a: Charset, b: Charset): Charset { seq(256, c requires 0 <= c < 256 => a[c] || b[c]) }

  function Intersect(a: Charset, b: Charset): Charset { seq(256, c requires 0 <= c < 256 => a[c] && b[c]) }

  predicate Disjoint(a: Charset, b: Charset) { forall c :: 0 <= c < 256 ==> !(a[c] && b[c]) }

  /** Byte k of the bitmap holds eight bits that all equal v. */
  predicate ByteIs(cs: Charset, k: nat, v: bool)
    requires k < 32
  {
    forall c :: 8 * k <= c < 8 * k + 8 ==> cs[c] == v
  }

  /** Lowest byte, from k on, that differs from eight copies of v; 32 if there is none. */
  function LowestOther(cs: Charset, v: bool, k: nat): (r: nat)
    requires k <= 32
    ensures k <= r <= 32
    ensures forall m :: k <= m < r ==> ByteIs(cs, m, v)
    ensures r < 32 ==> !ByteIs(cs, r, v)
    decreases 32 - k
  {
    if k == 32 || !ByteIs(cs, k, v) then k else LowestOther(cs, v, k + 1)
  }

  /** Highest byte below k that differs from eight copies of v; 0 if there is none. */
  function HighestOther(cs: Charset, v: bool, k: nat): (r: nat)
    requires 0 < k <= 32
    ensures r < k
    ensures forall m :: r < m < k ==> ByteIs(cs, m, v)
    ensures r > 0 ==> !ByteIs(cs, r, v)
  {
    if k == 1 || !ByteIs(cs, k - 1, v) then k - 1 else HighestOther(cs, v, k - 1)
  }

  /** What charsettype says about a set: which instruction can test it. */
  datatype Kind = KFail | KAny | KChar(c: Byte) | KSet

  function KindOf(cs: Charset): Kind
  {
    var low1, low0 := LowestOther(cs, false, 0), LowestOther(cs, true, 0);
    if low1 == 32 then KFail
    else
      var high1 := HighestOther(cs, false, 32);
      var bit := NextBit(cs, 8 * low1, 8 * low1 + 8);
      if low1 == high1 && bit < 8 * low1 + 8 && NextBit(cs, bit + 1, 8 * low1 + 8) == 8 * low1 + 8 then KChar(bit)
      else if low0 == 32 then KAny
      else KSet
  }

  /** charsettype recognises exactly the empty and the full set, and only names true singletons. */
  lemma KindSound(cs: Charset)
    ensures KindOf(cs).KFail? <==> cs == EmptySet()
    ensures KindOf(cs).KAny? <==> cs == FullSet()
    ensures KindOf(cs).KChar? ==> cs == Single(KindOf(cs).c)
  {
    var low1, low0 := LowestOther(cs, false, 0), LowestOther(cs, true, 0);
    if low1 == 32 {
      AllBytes(cs, false);
      assert !cs[0];
    } else {
      assert exists c :: 8 * low1 <= c < 8 * low1 + 8 && cs[c];
      var high1 := HighestOther(cs, false, 32);
      if low1 == high1 {
        OnlyByte(cs, low1);
        assert cs[0] ==> low1 == 0;
        assert cs[255] ==> low1 == 31;
      }
      if low0 == 32 {
        AllBytes(cs, true);
      }
    }
  }

  /** charsettype recognises every singleton. */
  lemma SingleKind(c: Byte)
    ensures KindOf(Single(c)) == KChar(c)
  {
    var cs := Single(c);
    var home := c / 8;
    assert !ByteIs(cs, home, false) by { assert cs[c]; }
    forall k | 0 <= k < 32 && k != home ensures ByteIs(cs, k, false) {
    }
    assert LowestOther(cs, false, 0) == home;
    assert HighestOther(cs, false, 32) == home;
    assert NextBit(cs, 8 * home, 8 * home + 8) == c;
  }

  /** What each answer of charsettype says about one character. */
  lemma KindMember(cs: Charset, c: Byte)
    ensures KindOf(cs).KFail? ==> !cs[c]
    ensures KindOf(cs).KAny? ==> cs[c]
    ensures KindOf(cs).KChar? ==> (cs[c] <==> c == KindOf(cs).c)
  {
    KindSound(cs);
    assert !EmptySet()[c] && FullSet()[c];
  }

  /** First member of the set in [c, end), or end. */
  function NextBit(cs: Charset, c: nat, end: nat): (r: nat)
    requires c <= end <= 256
    ensures c <= r <= end
    ensures r < end ==> cs[r]
    ensures forall x :: c <= x < r ==> !cs[x]
    decreases end - c
  {
    if c == end || cs[c] then c else NextBit(cs, c + 1, end)
  }

  lemma AllBytes(cs: Charset, v: bool)
    requires forall m :: 0 <= m < 32 ==> ByteIs(cs, m, v)
    ensures forall c :: 0 <= c < 256 ==> cs[c] == v
    ensures cs == if v then FullSet() else EmptySet()
  {
    forall c | 0 <= c < 256 ensures cs[c] == v {
      assert ByteIs(cs, c / 8, v);
    }
  }

  lemma OnlyByte(cs: Charset, k: nat)
    requires k < 32
    requires forall m :: 0 <= m < k || k < m < 32 ==> ByteIs(cs, m, false)
    ensures forall c :: 0 <= c < 256 && !(8 * k <= c < 8 * k + 8) ==> !cs[c]
  {
    forall c | 0 <= c < 256 && !(8 * k <= c < 8 * k + 8) ensures !cs[c] {
      assert ByteIs(cs, c / 8, false);
    }
  }

  /** A set inside an instruction: bit offset, number of four-byte slots, default value, bits. */
  datatype CompactSet = CompactSet(offset: nat, slots: nat, deflt: bool, bits: seq<bool>)

  ghost predicate ValidCompact(c: CompactSet) { |c.bits| == 32 * c.slots }

  /** charinset (3rd/lpeg/lpvm.c:27): bits outside the stored range have the default value. */
  predicate CharInSet(p: CompactSet, c: Byte)
    requires ValidCompact(p)
  {
    if c < p.offset || c - p.offset >= 32 * p.slots then p.deflt else p.bits[c - p.offset]
  }

  /** Keep `size` bytes from byte `low` on, padded with the default up to whole slots. */
  function Pack(cs: Charset, low: nat, size: nat, deflt: bool): (p: CompactSet)
    requires low + size <= 32
    ensures ValidCompact(p)
  {
    var slots := (size + 3) / 4;
    CompactSet(8 * low, slots, deflt,
               seq(32 * slots, i requires 0 <= i < 32 * slots =>
                   if i / 8 < size then (assert 0 <= 8 * low + i < 256; cs[8 * low + i]) else deflt))
  }

  function Compact(cs: Charset): (p: CompactSet)
    ensures ValidCompact(p)
  {
    var low1, low0 := LowestOther(cs, false, 0), LowestOther(cs, true, 0);
    if low1 == 32 || low0 == 32 then Pack(cs, 0, 32, false)
    else
      var high1, high0 := HighestOther(cs, false, 32), HighestOther(cs, true, 32);
      assert low1 <= high1 && low0 <= high0;
      if high1 - low1 <= high0 - low0 then Pack(cs, low1, high1 - low1 + 1, false)
      else Pack(cs, low0, high0 - low0 + 1, true)
  }

  lemma PackSound(cs: Charset, low: nat, size: nat, deflt: bool, c: Byte)
    requires low + size <= 32
    requires forall m :: 0 <= m < low || low + size <= m < 32 ==> ByteIs(cs, m, deflt)
    ensures CharInSet(Pack(cs, low, size, deflt), c) == cs[c]
  {
    if c / 8 < low || c / 8 >= low + size {
      assert ByteIs(cs, c / 8, deflt);
    }
  }

  /** The bits stored in an instruction answer membership exactly as the full set does. */
  lemma CompactSound(cs: Charset, c: Byte)
    ensures CharInSet(Compact(cs), c) == cs[c]
  {
    var low1, low0 := LowestOther(cs, false, 0), LowestOther(cs, true, 0);
    if low1 == 32 || low0 == 32 {
      PackSound(cs, 0, 32, false, c);
    } else {
      var high1, high0 := HighestOther(cs, false, 32), HighestOther(cs, true, 32);
      if high1 - low1 <= high0 - low0 {
        PackSound(cs, low1, high1 - low1 + 1, false, c);
      } else {
        PackSound(cs, low0, high0 - low0 + 1, true, c);
      }
    }
  }
}
