/** sproto_encode and sproto_decode as loops over a buffer (lualib-src/sproto/sproto.c), proved against SprotoWire. */
module SprotoBuffers {
  import opened Common
  import opened SprotoWire

  // ---------- looking a tag up ----------

  /** The base of a type whose tags follow each other, else -1; a type without fields has the base 0. */
  function BaseOf(st: Schema): int
    requires Imported(st)
  {
    if |st| == 0 then 0
    else if st[|st| - 1].tag - st[0].tag + 1 == |st| then st[0].tag else -1
  }

  lemma {:induction false} TagsAtLeast(st: Schema, i: nat, j: nat)
    requires Imported(st) && i <= j < |st|
    ensures st[j].tag - st[i].tag >= j - i
    decreases j - i
  {
    if i < j { TagsAtLeast(st, i, j - 1); }
  }

  lemma {:induction false} FindNone(st: Schema, tag: int)
    requires forall i :: 0 <= i < |st| ==> st[i].tag != tag
    ensures Find(st, tag) == None
  {
    if |st| > 0 { FindNone(st[1..], tag); }
  }

  /**
   import_type: refuses tags that do not ascend, counts the header words, and sees whether tags
   follow each other; a type whose message has no fields part is done before the loop.
   */
  method ImportType(st: Schema) returns (ok: bool, maxn: nat, base: int)
    requires forall i :: 0 <= i < |st| ==> -1 <= st[i].tag < 0x7fff
    ensures ok <==> Imported(st)
    ensures ok ==> maxn == MaxN(st, -1) && base == BaseOf(st)
  {
    if |st| == 0 { return true, 0, 0; }
    var n, last, i := |st|, -1, 0;
    maxn, base := n, -1;
    assert st[0..] == st;
    while i < n
      invariant 0 <= i <= n && -1 <= last && maxn >= n && (i > 0 ==> last == st[i - 1].tag) && (i == 0 ==> last == -1)
      invariant forall a, b :: 0 <= a < b < i ==> st[a].tag < st[b].tag
      invariant forall a :: 0 <= a < i ==> 0 <= st[a].tag <= last
      invariant MaxN(st, -1) + (n - i) == maxn + MaxN(st[i..], last)
    {
      var tag := st[i].tag;
      if tag <= last {
        assert i > 0 ==> st[i - 1].tag >= st[i].tag;
        return false, maxn, base;
      }
      assert st[i..][1..] == st[i + 1..];
      if tag > last + 1 { maxn := maxn + 1; }
      last := tag;
      i := i + 1;
    }
    assert st[n..] == [];
    ok, base := true, st[0].tag;
    if st[n - 1].tag - base + 1 != n { base := -1; }
  }

  /** findtag: by position when the tags have no gaps, else by halving. */
  method FindTag(st: Schema, base: int, tag0: int) returns (r: Option<Field>)
    requires Imported(st) && base == BaseOf(st)
    ensures r == Find(st, tag0)
  {
    var tag := tag0;
    if base >= 0 {
      tag := tag - base;
      if |st| > 0 { TagsAtLeast(st, 0, |st| - 1); }
      if tag < 0 || tag >= |st| {
        forall i | 0 <= i < |st| ensures st[i].tag != tag0 { TagsAtLeast(st, 0, i); TagsAtLeast(st, i, |st| - 1); }
        FindNone(st, tag0);
        return None;
      }
      TagsAtLeast(st, 0, tag);
      TagsAtLeast(st, tag, |st| - 1);
      FindAt(st, tag);
      return Some(st[tag]);
    }
    var begin, end := 0, |st|;
    while begin < end
      invariant 0 <= begin <= end <= |st|
      invariant forall i :: 0 <= i < begin ==> st[i].tag < tag
      invariant forall i :: end <= i < |st| ==> st[i].tag > tag
      decreases end - begin
    {
      var mid := (begin + end) / 2;
      var t := st[mid].tag;
      if t == tag {
        FindAt(st, mid);
        return Some(st[mid]);
      }
      if tag > t {
        begin := mid + 1;
      } else {
        end := mid;
      }
    }
    FindNone(st, tag);
    return None;
  }

  // ---------- numbers ----------

  method PutDword(buffer: array<Byte>, at: nat, v: int)
    requires v >= 0 && at + 4 <= buffer.Length
    modifies buffer
    ensures buffer[at..at + 4] == Le(v, 4)
    ensures forall k :: 0 <= k < buffer.Length && (k < at || k >= at + 4) ==> buffer[k] == old(buffer[k])
  {
    buffer[at] := v % 256;
    buffer[at + 1] := v / 256 % 256;
    buffer[at + 2] := v / 256 / 256 % 256;
    buffer[at + 3] := v / 256 / 256 / 256 % 256;
    Le4(v);
  }

  /** Sign extension, byte by byte: four more bytes, all ones or all zeros. */
  lemma ExpandBytes(u: int)
    requires 0 <= u < TWO32
    ensures Le(Expand64(u), 8) == Le(u, 4) + if u >= TWO31 then [0xff, 0xff, 0xff, 0xff] else [0, 0, 0, 0]
    ensures Le(u, 4)[3] >= 0x80 <==> u >= TWO31
  {
    var c := if u >= TWO31 then TWO32 - 1 else 0;
    assert Expand64(u) == u + c * TWO32;
    LowFour(u, c);
    HighBytes();
    TopByte(u);
  }

  lemma LowFour(u: int, c: int)
    requires 0 <= u < TWO32 && c >= 0
    ensures Le(u + c * TWO32, 8) == Le(u, 4) + Le(c, 4)
  {
    var b0, u1 := u % 256, u / 256;
    var b1, u2 := u1 % 256, u1 / 256;
    var b2, b3 := u2 % 256, u2 / 256;
    FourBytes(b0, b1, b2, b3, c);
    assert u + c * TWO32 == b0 + 256 * (b1 + 256 * (b2 + 256 * (b3 + 256 * c)));
  }

  lemma FourBytes(b0: Byte, b1: Byte, b2: Byte, b3: Byte, c: int)
    requires c >= 0
    ensures Le(b0 + 256 * (b1 + 256 * (b2 + 256 * (b3 + 256 * c))), 8) == [b0, b1, b2, b3] + Le(c, 4)
    ensures Le(b0 + 256 * (b1 + 256 * (b2 + 256 * b3)), 4) == [b0, b1, b2, b3]
  {
    OneByte(b0, b1 + 256 * (b2 + 256 * (b3 + 256 * c)), 7);
    OneByte(b1, b2 + 256 * (b3 + 256 * c), 6);
    OneByte(b2, b3 + 256 * c, 5);
    OneByte(b3, c, 4);
    OneByte(b0, b1 + 256 * (b2 + 256 * b3), 3);
    OneByte(b1, b2 + 256 * b3, 2);
    OneByte(b2, b3, 1);
    OneByte(b3, 0, 0);
    hide Le;
    assert [b0] + ([b1] + ([b2] + ([b3] + Le(c, 4)))) == [b0, b1, b2, b3] + Le(c, 4);
    assert Le(b3, 1) == [b3] + Le(0, 0) && |Le(0, 0)| == 0;
  }

  /** The lowest byte of a number. */
  lemma OneByte(b: Byte, rest: int, k: nat)
    requires rest >= 0
    ensures Le(b + 256 * rest, k + 1) == [b] + Le(rest, k)
  {
    var n := b + 256 * rest;
    assert n % 256 == b && n / 256 == rest;
    hide Pow256;
  }

  lemma Le4(u: int)
    requires u >= 0
    ensures Le(u, 4) == [u % 256, u / 256 % 256, u / 256 / 256 % 256, u / 256 / 256 / 256 % 256]
  {
    assert Le(u, 4) == [u % 256] + Le(u / 256, 3);
    assert Le(u / 256, 3) == [u / 256 % 256] + Le(u / 256 / 256, 2);
    assert Le(u / 256 / 256, 2) == [u / 256 / 256 % 256] + Le(u / 256 / 256 / 256, 1);
    assert Le(u / 256 / 256 / 256 / 256, 0) == [];
  }

  lemma HighBytes()
    ensures Le(TWO32 - 1, 4) == [0xff, 0xff, 0xff, 0xff] && Le(0, 4) == [0, 0, 0, 0]
  {
    assert Le(0xffff, 2) == [0xff, 0xff] && Le(0, 2) == [0, 0];
    assert Le(0xff_ffff, 3) == [0xff] + Le(0xffff, 2);
  }

  lemma TopByte(u: int)
    requires 0 <= u < TWO32
    ensures Le(u, 4)[3] == u / 0x100_0000
  {
    assert Le(u, 4) == [u % 256] + Le(u / 256, 3);
    assert Le(u / 256, 3) == [u / 256 % 256] + Le(u / 256 / 256, 2);
    assert u / 256 / 256 / 256 == u / 0x100_0000;
  }

  method PutQword(buffer: array<Byte>, at: nat, v: int)
    requires 0 <= v < TWO64 && at + 8 <= buffer.Length
    modifies buffer
    ensures buffer[at..at + 8] == Le(v, 8)
    ensures forall k :: 0 <= k < buffer.Length && (k < at || k >= at + 8) ==> buffer[k] == old(buffer[k])
  {
    PutDword(buffer, at, v % TWO32);
    ghost var low := buffer[at..at + 4];
    PutDword(buffer, at + 4, v / TWO32);
    LowFour(v % TWO32, v / TWO32);
    assert buffer[at..at + 4] == low;
    assert buffer[at..at + 8] == buffer[at..at + 4] + buffer[at + 4..at + 8];
  }

  /** fill_size */
  method FillSize(buffer: array<Byte>, at: nat, sz: nat) returns (r: int)
    requires at + 4 <= buffer.Length
    modifies buffer
    ensures r == sz + 4 && buffer[at..at + 4] == Le(sz, 4)
    ensures forall k :: 0 <= k < buffer.Length && (k < at || k >= at + 4) ==> buffer[k] == old(buffer[k])
  {
    PutDword(buffer, at, sz);
    r := sz + 4;
  }

  /** uint32_to_uint64: the upper half of a number whose lower half is in place. */
  method ExtendInPlace(buffer: array<Byte>, at: nat, negative: bool, ghost u: int)
    requires 0 <= u < TWO32 && at + 8 <= buffer.Length && buffer[at..at + 4] == Le(u, 4) && (negative <==> u >= TWO31)
    modifies buffer
    ensures buffer[at..at + 8] == Le(Expand64(u), 8)
    ensures forall k :: 0 <= k < buffer.Length && (k < at + 4 || k >= at + 8) ==> buffer[k] == old(buffer[k])
  {
    ghost var low := buffer[at..at + 4];
    var x: Byte := if negative then 0xff else 0;
    buffer[at + 4] := x;
    buffer[at + 5] := x;
    buffer[at + 6] := x;
    buffer[at + 7] := x;
    ExpandBytes(u);
    assert buffer[at..at + 4] == low;
    assert buffer[at + 4..at + 8] == [x, x, x, x];
    assert buffer[at..at + 8] == buffer[at..at + 4] + buffer[at + 4..at + 8];
  }

  lemma {:induction false} NarrowPush(es: seq<Number>, e: Number)
    requires NumbersOk(es) && NumberOk(e)
    ensures NumbersOk(es + [e]) && Narrow(es + [e]) == Narrow(es) + Le(e.u, 4)
  {
    hide Le;
    if |es| == 0 {
      assert es + [e] == [e] && [e][1..] == [];
    } else {
      assert NumberOk(es[0]);
      assert (es + [e])[1..] == es[1..] + [e];
      NarrowPush(es[1..], e);
    }
  }

  lemma {:induction false} WidePush(es: seq<Number>, e: Number)
    requires NumbersOk(es) && NumberOk(e)
    ensures NumbersOk(es + [e]) && Wide(es + [e]) == Wide(es) + Le(Meaning(e), 8)
  {
    hide Le, Expand64;
    if |es| == 0 {
      assert es + [e] == [e] && [e][1..] == [];
    } else {
      assert NumberOk(es[0]);
      assert (es + [e])[1..] == es[1..] + [e];
      WidePush(es[1..], e);
    }
  }

  lemma {:induction false} WideLength(es: seq<Number>)
    requires NumbersOk(es)
    ensures |Wide(es)| == 8 * |es|
  {
    if |es| > 0 { WideLength(es[1..]); }
  }

  lemma {:induction false} NarrowLength(es: seq<Number>)
    requires NumbersOk(es)
    ensures |Narrow(es)| == 4 * |es|
  {
    if |es| > 0 { NarrowLength(es[1..]); }
  }

  /** The first n numbers are still narrow, the others wide and in their places. */
  ghost predicate Half(b: seq<Byte>, at: nat, es: seq<Number>, n: nat) {
    n <= |es| && at + 8 * |es| <= |b| && NumbersOk(es) && AllSmall(es)
    && NumbersOk(es[..n]) && NumbersOk(es[n..])
    && b[at..at + 4 * n] == Narrow(es[..n]) && b[at + 8 * n..at + 8 * |es|] == Wide(es[n..])
  }

  /**
   The rearrangement of encode_integer_array: numbers of 32 bits become numbers of 64 in the same
   place, from the last to the first, so that none is overwritten before it has moved.
   */
  method Widen(buffer: array<Byte>, at: nat, count: nat, ghost es: seq<Number>)
    requires |es| == count && NumbersOk(es) && AllSmall(es) && at + 8 * count <= buffer.Length
    requires buffer[at..at + 4 * count] == Narrow(es)
    modifies buffer
    ensures buffer[at..at + 8 * count] == Wide(es)
    ensures forall k :: 0 <= k < buffer.Length && (k < at || k >= at + 8 * count) ==> buffer[k] == old(buffer[k])
  {
    AllHalf(buffer[..], at, es);
    hide Half, Narrow, Wide;
    var i: int := count - 1;
    while i >= 0
      invariant -1 <= i < count && Half(buffer[..], at, es, i + 1)
      invariant forall k :: 0 <= k < buffer.Length && (k < at || k >= at + 8 * count) ==> buffer[k] == old(buffer[k])
      decreases i
    {
      WidenOne(buffer, at, i, es);
      i := i - 1;
    }
    NoneHalf(buffer[..], at, es);
  }

  lemma AllHalf(b: seq<Byte>, at: nat, es: seq<Number>)
    requires NumbersOk(es) && AllSmall(es) && at + 8 * |es| <= |b| && b[at..at + 4 * |es|] == Narrow(es)
    ensures Half(b, at, es, |es|)
  {
    assert es[..|es|] == es && es[|es|..] == [];
  }

  lemma NoneHalf(b: seq<Byte>, at: nat, es: seq<Number>)
    requires Half(b, at, es, 0)
    ensures b[at..at + 8 * |es|] == Wide(es)
  {
    assert es[0..] == es;
  }

  /** Where the last narrow number lies. */
  lemma LastNarrow(b: seq<Byte>, at: nat, es: seq<Number>, i: nat)
    requires i < |es| && Half(b, at, es, i + 1)
    ensures b[at + 4 * i..at + 4 * i + 4] == Le(es[i].u, 4) && b[at..at + 4 * i] == Narrow(es[..i]) && NumbersOk(es[..i])
  {
    hide Narrow, Wide, Le;
    assert es[..i + 1] == es[..i] + [es[i]];
    assert NumberOk(es[i]) && NumbersOk(es[..i]);
    NarrowPush(es[..i], es[i]);
    NarrowLength(es[..i]);
    Cut(b, at, 4 * i, 4, Narrow(es[..i]), Le(es[i].u, 4));
  }

  lemma Cut(b: seq<Byte>, at: nat, m: nat, n: nat, x: seq<Byte>, y: seq<Byte>)
    requires at + m + n <= |b| && |x| == m && |y| == n && b[at..at + m + n] == x + y
    ensures b[at..at + m] == x && b[at + m..at + m + n] == y
  {
    assert forall k :: at <= k < at + m + n ==> b[k] == b[at..at + m + n][k - at];
  }

  lemma Glue(b: seq<Byte>, from: nat, m: nat, end: nat, x: seq<Byte>, y: seq<Byte>)
    requires from + m <= end <= |b| && b[from..from + m] == x && b[from + m..end] == y
    ensures b[from..end] == x + y
  {
  }

  /** One number of the rearrangement. */
  method WidenOne(buffer: array<Byte>, at: nat, i: nat, ghost es: seq<Number>)
    requires i < |es| && Half(buffer[..], at, es, i + 1) && at + 8 * |es| <= buffer.Length
    modifies buffer
    ensures Half(buffer[..], at, es, i)
    ensures forall k :: 0 <= k < buffer.Length && (k < at || k >= at + 8 * |es|) ==> buffer[k] == old(buffer[k])
  {
    hide Narrow, Wide, Le, Expand64;
    ghost var b := buffer[..];
    LastNarrow(b, at, es, i);
    assert NumberOk(es[i]) && es[i].Small?;
    var to := at + 8 * i;
    assert buffer[at + 4 * i..at + 4 * i + 4] == b[at + 4 * i..at + 4 * i + 4];
    CopyFour(buffer, to, at + 4 * i);
    TopOf(buffer[to..to + 4], es[i].u);
    ExtendInPlace(buffer, to, buffer[to + 3] >= 0x80, es[i].u);
    HalfNext(b, buffer[..], at, es, i);
  }

  lemma HalfNext(b: seq<Byte>, c: seq<Byte>, at: nat, es: seq<Number>, i: nat)
    requires i < |es| && Half(b, at, es, i + 1) && |b| == |c|
    requires c[at + 8 * i..at + 8 * i + 8] == Le(Meaning(es[i]), 8)
    requires forall k :: 0 <= k < |b| && (k < at + 8 * i || k >= at + 8 * i + 8) ==> c[k] == b[k]
    ensures Half(c, at, es, i)
  {
    hide Narrow, Wide, Le;
    assert NumberOk(es[i]);
    LastNarrow(b, at, es, i);
    WideHead(es, i);
    var to, end := at + 8 * i, at + 8 * |es|;
    assert c[at..at + 4 * i] == b[at..at + 4 * i];
    assert c[to + 8..end] == b[to + 8..end];
    Glue(c, to, 8, end, Le(Meaning(es[i]), 8), Wide(es[i + 1..]));
  }

  method CopyFour(buffer: array<Byte>, to: nat, from: nat)
    requires from + 4 <= buffer.Length && to + 4 <= buffer.Length && (to == from || from + 4 <= to)
    modifies buffer
    ensures buffer[to..to + 4] == old(buffer[from..from + 4])
    ensures forall k :: 0 <= k < buffer.Length && (k < to || k >= to + 4) ==> buffer[k] == old(buffer[k])
  {
    buffer[to], buffer[to + 1], buffer[to + 2], buffer[to + 3] := buffer[from], buffer[from + 1], buffer[from + 2], buffer[from + 3];
  }

  lemma TopOf(b: seq<Byte>, u: int)
    requires 0 <= u < TWO32 && b == Le(u, 4)
    ensures b[3] >= 0x80 <==> u >= TWO31
  {
    ExpandBytes(u);
  }

  lemma WideHead(es: seq<Number>, i: nat)
    requires i < |es| && NumbersOk(es)
    ensures NumbersOk(es[i..]) && NumbersOk(es[i + 1..]) && Wide(es[i..]) == Le(Meaning(es[i]), 8) + Wide(es[i + 1..])
  {
    assert es[i..][1..] == es[i + 1..];
    assert NumberOk(es[i..][0]);
  }

  /** The elements so far, all of one width, behind the byte that will tell the width. */
  ghost predicate Stored(b: seq<Byte>, at: nat, es: seq<Number>, width: int, end: int) {
    NumbersOk(es) && 0 <= at && end == at + 1 + width * |es| && end <= |b|
    && if width == 4 then AllSmall(es) && b[at + 1..end] == Narrow(es)
       else width == 8 && !AllSmall(es) && b[at + 1..end] == Wide(es)
  }

  /**
   encode_integer_array: 32-bit elements until the first one that needs 64, then all of 64. Returns
   the end of what was written, or -1 when the buffer is too small; it is large enough with 8 bytes
   an element and one more.
   */
  method EncodeIntegerArray(es: seq<Number>, buffer: array<Byte>, at: nat, size0: int) returns (end: int)
    requires NumbersOk(es) && at + size0 <= buffer.Length
    modifies buffer
    ensures end >= 0 ==> at <= end <= at + size0 && buffer[at..end] == NumberBody(es)
    ensures size0 >= 1 + 8 * |es| ==> end >= 0
    ensures forall k :: 0 <= k < buffer.Length && (k < at || k >= at + size0) ==> buffer[k] == old(buffer[k])
  {
    hide Stored, Narrow, Wide, NumberBody;
    var size := size0;
    if size < 1 { return -1; }
    end := at + 1;
    size := size - 1;
    var intlen, index := 4, 1;
    NoneStored(buffer[..], at);
    while index - 1 < |es|
      invariant 1 <= index <= |es| + 1 && (intlen == 4 || intlen == 8)
      invariant end + size == at + size0 && size >= 0 && end == at + 1 + intlen * (index - 1)
      invariant Stored(buffer[..], at, es[..index - 1], intlen, end)
      invariant forall k :: 0 <= k < buffer.Length && (k < at || k >= at + size0) ==> buffer[k] == old(buffer[k])
    {
      var e := es[index - 1];
      ghost var sofar := es[..index - 1];
      assert es[..index] == sofar + [e] && NumberOk(e);
      if size < 8 { return -1; }
      if e.Small? {
        PutSmall(buffer, at, e, intlen, end, sofar);
      } else {
        if intlen == 4 {
          size := size - (index - 1) * 4;
          if size < 8 { return -1; }
          end := end + (index - 1) * 4;
        }
        PutBig(buffer, at, e, intlen, end, index - 1, sofar);
        intlen := 8;
      }
      size := size - intlen;
      end := end + intlen;
      index := index + 1;
    }
    assert es[..index - 1] == es;
    StoredBody(buffer[..], at, es, intlen, end);
    if end == at + 1 {
      return at;
    }
    ghost var body := buffer[at + 1..end];
    buffer[at] := intlen;
    assert buffer[at + 1..end] == body;
    assert buffer[at..end] == [intlen] + body;
  }

  lemma NoneStored(b: seq<Byte>, at: nat)
    requires at + 1 <= |b|
    ensures Stored(b, at, [], 4, at + 1)
  {
  }

  /** A 32-bit element behind the others, extended when they are of 64 bits. */
  method PutSmall(buffer: array<Byte>, at: nat, e: Number, intlen: int, end: nat, ghost sofar: seq<Number>)
    requires NumberOk(e) && e.Small? && (intlen == 4 || intlen == 8) && end + 8 <= buffer.Length
    requires Stored(buffer[..], at, sofar, intlen, end)
    modifies buffer
    ensures Stored(buffer[..], at, sofar + [e], intlen, end + intlen)
    ensures forall k :: 0 <= k < buffer.Length && (k < end || k >= end + 8) ==> buffer[k] == old(buffer[k])
  {
    hide Narrow, Wide, Le;
    ghost var b := buffer[..];
    PutDword(buffer, end, e.u);
    if intlen == 8 {
      ExtendInPlace(buffer, end, e.u >= TWO31, e.u);
      WidePush(sofar, e);
      StillBig(sofar, e);
      assert buffer[at + 1..end] == b[at + 1..end];
      Glue(buffer[..], at + 1, end - at - 1, end + 8, Wide(sofar), Le(Meaning(e), 8));
    } else {
      NarrowPush(sofar, e);
      assert buffer[at + 1..end] == b[at + 1..end];
      Glue(buffer[..], at + 1, end - at - 1, end + 4, Narrow(sofar), Le(e.u, 4));
    }
  }

  /** The first 64-bit element makes room by widening the others; `end` already lies behind them. */
  method PutBig(buffer: array<Byte>, at: nat, e: Number, intlen: int, end: nat, count: nat, ghost sofar: seq<Number>)
    requires NumberOk(e) && e.Big? && |sofar| == count && end == at + 1 + 8 * count && end + 8 <= buffer.Length
    requires Stored(buffer[..], at, sofar, intlen, at + 1 + intlen * count)
    modifies buffer
    ensures Stored(buffer[..], at, sofar + [e], 8, end + 8)
    ensures forall k :: 0 <= k < buffer.Length && (k < at + 1 || k >= end + 8) ==> buffer[k] == old(buffer[k])
  {
    hide Narrow, Wide, Le;
    if intlen == 4 {
      Widen(buffer, at + 1, count, sofar);
    }
    ghost var b := buffer[..];
    assert b[at + 1..end] == Wide(sofar);
    PutQword(buffer, end, e.u);
    WidePush(sofar, e);
    assert buffer[at + 1..end] == b[at + 1..end];
    Glue(buffer[..], at + 1, end - at - 1, end + 8, Wide(sofar), Le(Meaning(e), 8));
    assert (sofar + [e])[count].Big?;
  }

  lemma StoredBody(b: seq<Byte>, at: nat, es: seq<Number>, width: int, end: int)
    requires Stored(b, at, es, width, end)
    ensures es == [] <==> end == at + 1
    ensures es != [] ==> NumberBody(es) == [width] + b[at + 1..end]
    ensures es == [] ==> NumberBody(es) == []
  {
  }

  lemma StillBig(es: seq<Number>, e: Number)
    ensures !AllSmall(es) ==> !AllSmall(es + [e])
  {
    if AllSmall(es + [e]) {
      assert forall i :: 0 <= i < |es| ==> es[i] == (es + [e])[i];
    }
  }

  // ---------- the other data parts ----------

  method PutBytes(buffer: array<Byte>, at: nat, b: seq<Byte>)
    requires at + |b| <= buffer.Length
    modifies buffer
    ensures buffer[at..at + |b|] == b
    ensures forall k :: 0 <= k < buffer.Length && (k < at || k >= at + |b|) ==> buffer[k] == old(buffer[k])
  {
    var i := 0;
    while i < |b|
      invariant 0 <= i <= |b| && buffer[at..at + i] == b[..i]
      invariant forall k :: 0 <= k < buffer.Length && (k < at || k >= at + |b|) ==> buffer[k] == old(buffer[k])
    {
      buffer[at + i] := b[i];
      i := i + 1;
    }
  }

  /** A part whose body is in place behind four free bytes gets its size. */
  method Finish(buffer: array<Byte>, at: nat, sz: nat, ghost body: seq<Byte>) returns (r: int)
    requires at + 4 + sz <= buffer.Length && |body| == sz && buffer[at + 4..at + 4 + sz] == body
    modifies buffer
    ensures r == sz + 4 && buffer[at..at + r] == Sized(body)
    ensures forall k :: 0 <= k < buffer.Length && (k < at || k >= at + 4) ==> buffer[k] == old(buffer[k])
  {
    r := FillSize(buffer, at, sz);
    assert buffer[at + 4..at + 4 + sz] == body;
    Glue(buffer[..], at, 4, at + r, Le(sz, 4), body);
  }

  /** encode_object: the callback writes its bytes into the buffer, or finds no room for them. */
  method EncodeObject(payload: seq<Byte>, buffer: array<Byte>, at: nat, size: int) returns (sz: int)
    requires at + size <= buffer.Length
    modifies buffer
    ensures sz == if size < 4 || |payload| > size - 4 then -1 else 4 + |payload|
    ensures sz >= 0 ==> buffer[at..at + sz] == Sized(payload)
    ensures forall k :: 0 <= k < buffer.Length && (k < at || k >= at + size) ==> buffer[k] == old(buffer[k])
  {
    if size < 4 { return -1; }
    if |payload| > size - 4 { return -1; }
    PutBytes(buffer, at + 4, payload);
    sz := Finish(buffer, at, |payload|, payload);
  }

  lemma {:induction false} BooleanPush(bs: seq<bool>, b: bool)
    ensures BooleanBody(bs + [b]) == BooleanBody(bs) + [if b then 1 else 0]
  {
    if |bs| == 0 {
      assert bs + [b] == [b] && [b][1..] == [];
    } else {
      assert (bs + [b])[1..] == bs[1..] + [b];
      BooleanPush(bs[1..], b);
    }
  }

  lemma {:induction false} ObjectPush(os: seq<seq<Byte>>, o: seq<Byte>)
    ensures ObjectBody(os + [o]) == ObjectBody(os) + Sized(o)
  {
    hide Sized;
    if |os| == 0 {
      assert os + [o] == [o] && [o][1..] == [];
      assert ObjectBody([]) == [];
    } else {
      assert (os + [o])[1..] == os[1..] + [o];
      ObjectPush(os[1..], o);
    }
  }

  method EncodeBooleans(bs: seq<bool>, buffer: array<Byte>, at: nat, size0: int) returns (end: int)
    requires 0 <= size0 && at + size0 <= buffer.Length
    modifies buffer
    ensures end == if |bs| > size0 then -1 else at + |bs|
    ensures end >= 0 ==> buffer[at..end] == BooleanBody(bs)
    ensures forall k :: 0 <= k < buffer.Length && (k < at || k >= at + size0) ==> buffer[k] == old(buffer[k])
  {
    hide BooleanBody;
    end := at;
    var size, index := size0, 1;
    BooleansNone();
    while index - 1 < |bs|
      invariant 1 <= index <= |bs| + 1 && size == size0 - (index - 1) && size >= 0 && end == at + index - 1
      invariant buffer[at..end] == BooleanBody(bs[..index - 1])
      invariant forall k :: 0 <= k < buffer.Length && (k < at || k >= at + size0) ==> buffer[k] == old(buffer[k])
    {
      if size < 1 { return -1; }
      ghost var sofar := buffer[at..end];
      buffer[end] := if bs[index - 1] then 1 else 0;
      assert bs[..index] == bs[..index - 1] + [bs[index - 1]];
      BooleanPush(bs[..index - 1], bs[index - 1]);
      assert buffer[at..end] == sofar;
      size := size - 1;
      end := end + 1;
      index := index + 1;
    }
    assert bs[..index - 1] == bs;
  }

  lemma BooleansNone()
    ensures BooleanBody([]) == []
  {
  }

  /** encode_array_object: it asks for four more bytes than it needs, because it looks for room before it knows of an end. */
  method EncodeObjects(os: seq<seq<Byte>>, buffer: array<Byte>, at: nat, size0: int) returns (end: int)
    requires 0 <= size0 && at + size0 <= buffer.Length
    modifies buffer
    ensures end == if |ObjectBody(os)| + 4 > size0 then -1 else at + |ObjectBody(os)|
    ensures end >= 0 ==> buffer[at..end] == ObjectBody(os)
    ensures forall k :: 0 <= k < buffer.Length && (k < at || k >= at + size0) ==> buffer[k] == old(buffer[k])
  {
    hide ObjectBody, Sized;
    end := at;
    var size, index := size0, 1;
    ObjectsNone();
    assert os[..0] == [] && os[0..] == os;
    while true
      invariant 1 <= index <= |os| + 1 && end + size == at + size0 && size >= 0 && at <= end
      invariant buffer[at..end] == ObjectBody(os[..index - 1])
      invariant |ObjectBody(os)| == end - at + |ObjectBody(os[index - 1..])|
      invariant forall k :: 0 <= k < buffer.Length && (k < at || k >= at + size0) ==> buffer[k] == old(buffer[k])
      decreases |os| + 1 - index
    {
      if size < 4 { return -1; }
      size := size - 4;
      if index - 1 == |os| {
        assert os[..index - 1] == os && os[index - 1..] == [];
        return;
      }
      var o := os[index - 1];
      assert os[index - 1..][1..] == os[index..] && os[..index] == os[..index - 1] + [o];
      ObjectHead(os[index - 1..]);
      if |o| > size { return -1; }
      ghost var b := buffer[..];
      PutBytes(buffer, end + 4, o);
      var r := Finish(buffer, end, |o|, o);
      ObjectPush(os[..index - 1], o);
      assert buffer[at..end] == b[at..end];
      Glue(buffer[..], at, end - at, end + r, ObjectBody(os[..index - 1]), Sized(o));
      end := end + 4 + |o|;
      size := size - |o|;
      index := index + 1;
    }
  }

  lemma ObjectsNone()
    ensures ObjectBody([]) == []
  {
  }

  lemma ObjectHead(os: seq<seq<Byte>>)
    requires |os| > 0
    ensures |ObjectBody(os)| == 4 + |os[0]| + |ObjectBody(os[1..])| && |Sized(os[0])| == 4 + |os[0]|
  {
  }

  /** Room that is certainly enough for the data part of a field, and not more than it may ask for. */
  function Ample(f: Field, v: Value): nat
    requires Suits(f, v)
  {
    match v
    case Numbers(es) => 5 + 8 * |es|
    case Objects(os) => 8 + |ObjectBody(os)|
    case _ => |DataOf(f, v)|
  }

  /** encode_array */
  method EncodeArray(f: Field, v: Value, buffer: array<Byte>, at: nat, size0: int) returns (sz: int)
    requires Suits(f, v) && f.many && 0 <= size0 && at + size0 <= buffer.Length
    modifies buffer
    ensures sz >= 0 ==> sz == |DataOf(f, v)| <= size0 && buffer[at..at + sz] == DataOf(f, v)
    ensures size0 >= Ample(f, v) ==> sz >= 0
    ensures forall k :: 0 <= k < buffer.Length && (k < at || k >= at + size0) ==> buffer[k] == old(buffer[k])
  {
    hide NumberBody, BooleanBody, ObjectBody, Sized;
    if size0 < 4 {
      ArrayNeeds(f, v);
      return -1;
    }
    var end;
    match v {
      case Numbers(es) => end := EncodeIntegerArray(es, buffer, at + 4, size0 - 4);
      case Booleans(bs) => end := EncodeBooleans(bs, buffer, at + 4, size0 - 4);
      case Objects(os) => end := EncodeObjects(os, buffer, at + 4, size0 - 4);
    }
    ArrayNeeds(f, v);
    if end < 0 { return -1; }
    sz := Finish(buffer, at, end - (at + 4), buffer[at + 4..end]);
  }

  lemma ArrayNeeds(f: Field, v: Value)
    requires Suits(f, v) && f.many
    ensures Ample(f, v) >= 4 && DataOf(f, v) == Sized(BodyOf(f, v)) && |DataOf(f, v)| == 4 + |BodyOf(f, v)|
    ensures v.Booleans? ==> Ample(f, v) == 4 + |v.bs|
  {
    if v.Booleans? { BooleansRound(v.bs); }
  }

  /** The body of sproto_encode's loop up to the header word: the size of the field's data, or -1; and its word. */
  method EncodeField(f: Field, v: Value, buffer: array<Byte>, at: nat, size: int) returns (sz: int, value: int)
    requires Suits(f, v) && 0 <= size && at + size <= buffer.Length
    modifies buffer
    ensures sz >= 0 ==> sz > 0 && value == WordOf(v)
    ensures sz >= 0 && value == 0 ==> sz == |DataOf(f, v)| <= size && buffer[at..at + sz] == DataOf(f, v)
    ensures size >= Ample(f, v) ==> sz >= 0
    ensures forall k :: 0 <= k < buffer.Length && (k < at || k >= at + size) ==> buffer[k] == old(buffer[k])
  {
    hide NumberBody, BooleanBody, ObjectBody, Le;
    value := 0;
    if f.many {
      sz := EncodeArray(f, v, buffer, at, size);
      ArrayNeeds(f, v);
      return;
    }
    match v {
      case Scalar(e) =>
        if e.Small? {
          if e.u < 0x7fff {
            value := (e.u + 1) * 2;
            sz := 2;
          } else {
            if size < 8 { return -1, 0; }
            PutDword(buffer, at + 4, e.u);
            sz := Finish(buffer, at, 4, Le(e.u, 4));
          }
        } else {
          if size < 12 { return -1, 0; }
          PutQword(buffer, at + 4, e.u);
          sz := Finish(buffer, at, 8, Le(e.u, 8));
        }
      case Object(p) => sz := EncodeObject(p, buffer, at, size);
    }
  }

  /** The room all data parts together may ask for. */
  function AmpleAll(st: Schema, vs: Present): nat
    requires Supplied(st, vs)
  {
    if |st| == 0 then 0 else (if vs[0].None? then 0 else Ample(st[0], vs[0].value)) + AmpleAll(st[1..], vs[1..])
  }

  /** The header words and the data of the first i fields are written; `last` is the last tag among them. */
  ghost predicate Begun(st: Schema, vs: Present, i: nat, last: int, words: seq<int>, data: seq<Byte>) {
    i <= |st| && Supplied(st, vs) && Supplied(st[i..], vs[i..]) && WordsOk(words) && -1 <= last < 0x7fff && Above(st[i..], last)
    && Words(st, vs, -1) == words + Words(st[i..], vs[i..], last)
    && DataPart(st, vs) == data + DataPart(st[i..], vs[i..])
  }

  /** What the fields from i on may ask for. */
  function Owed(st: Schema, vs: Present, i: nat): nat {
    if i <= |st| && i <= |vs| && Supplied(st[i..], vs[i..]) then AmpleAll(st[i..], vs[i..]) else 0
  }

  lemma BegunStart(st: Schema, vs: Present)
    requires Imported(st) && Supplied(st, vs)
    ensures Begun(st, vs, 0, -1, [], []) && Owed(st, vs, 0) == AmpleAll(st, vs)
  {
    assert st[0..] == st && vs[0..] == vs;
    ImportedAbove(st);
  }

  lemma BegunAbsent(st: Schema, vs: Present, i: nat, last: int, words: seq<int>, data: seq<Byte>)
    requires Begun(st, vs, i, last, words, data) && i < |st| && vs[i].None?
    ensures Begun(st, vs, i + 1, last, words, data) && Owed(st, vs, i) == Owed(st, vs, i + 1)
  {
    assert st[i..][1..] == st[i + 1..] && vs[i..][1..] == vs[i + 1..];
    AbsentHead(st, st[i..], vs[i..], last);
    assert forall k {:trigger st[i + 1..][k]} :: 0 <= k < |st[i + 1..]| ==> st[i + 1..][k] == st[i..][k + 1];
  }

  /** The words a present field adds. */
  function Added(f: Field, v: Value, last: int): seq<int> {
    var gap := f.tag - last - 1;
    (if gap > 0 then [(gap - 1) * 2 + 1] else []) + [WordOf(v)]
  }

  lemma BegunPresent(st: Schema, vs: Present, i: nat, last: int, words: seq<int>, data: seq<Byte>)
    requires Begun(st, vs, i, last, words, data) && i < |st| && vs[i].Some?
    ensures var f, v := st[i], vs[i].value;
      Suits(f, v) && -1 <= last < f.tag < 0x7fff
      && Begun(st, vs, i + 1, f.tag, words + Added(f, v, last), data + DataOf(f, v))
      && Owed(st, vs, i) == Ample(f, v) + Owed(st, vs, i + 1)
  {
    hide Words, DataPart, DataOf, WordOf, Ample;
    var f, v := st[i], vs[i].value;
    assert st[i..][0] == f && vs[i..][0] == vs[i];
    assert st[i..][1..] == st[i + 1..] && vs[i..][1..] == vs[i + 1..];
    PresentHead(st[i..], vs[i..], last);
    AboveRest(st[i..], last);
    AddedOk(f, v, last);
    RejoinWords(words, Added(f, v, last), Words(st[i + 1..], vs[i + 1..], f.tag), f, v, last);
    assert (data + DataOf(f, v)) + DataPart(st[i + 1..], vs[i + 1..]) == data + (DataOf(f, v) + DataPart(st[i + 1..], vs[i + 1..]));
    OneAmple(st[i..], vs[i..]);
  }

  lemma OneAmple(st: Schema, vs: Present)
    requires |st| > 0 && Supplied(st, vs) && vs[0].Some?
    ensures Supplied(st[1..], vs[1..]) && AmpleAll(st, vs) == Ample(st[0], vs[0].value) + AmpleAll(st[1..], vs[1..])
  {
  }

  lemma AboveRest(st: Schema, last: int)
    requires Above(st, last) && |st| > 0
    ensures Above(st[1..], st[0].tag) && last < st[0].tag < 0x7fff
  {
  }

  lemma AddedOk(f: Field, v: Value, last: int)
    requires Suits(f, v) && -1 <= last < f.tag < 0x7fff
    ensures WordsOk(Added(f, v, last)) && 1 <= |Added(f, v, last)| <= 2
  {
  }

  lemma RejoinWords(words: seq<int>, added: seq<int>, rest: seq<int>, f: Field, v: Value, last: int)
    requires added == Added(f, v, last)
    ensures var gap := f.tag - last - 1;
      (words + added) + rest == words + ((if gap > 0 then [(gap - 1) * 2 + 1] else []) + ([WordOf(v)] + rest))
  {
    hide WordOf;
  }

  method PutWord(buffer: array<Byte>, at: nat, w: int)
    requires 0 <= w < 0x1_0000 && at + 2 <= buffer.Length
    modifies buffer
    ensures buffer[at..at + 2] == Le(w, 2)
    ensures forall k :: 0 <= k < buffer.Length && (k < at || k >= at + 2) ==> buffer[k] == old(buffer[k])
  {
    buffer[at] := w % 256;
    buffer[at + 1] := w / 256 % 256;
    assert Le(w, 2) == [w % 256] + Le(w / 256, 1);
  }

  lemma {:induction false} HeaderPush(ws: seq<int>, w: int)
    requires WordsOk(ws) && 0 <= w < 0x1_0000
    ensures WordsOk(ws + [w]) && Header(ws + [w]) == Header(ws) + Le(w, 2) && |Header(ws)| == 2 * |ws|
  {
    hide Le;
    if |ws| == 0 {
      assert ws + [w] == [w] && [w][1..] == [];
    } else {
      assert (ws + [w])[1..] == ws[1..] + [w];
      HeaderPush(ws[1..], w);
    }
  }

  /** One header word behind the others. */
  method PushWord(buffer: array<Byte>, index: nat, w: int, ghost words: seq<int>)
    requires WordsOk(words) && |words| == index && 0 <= w < 0x1_0000 && 2 + 2 * index + 2 <= buffer.Length
    requires buffer[2..2 + 2 * index] == Header(words)
    modifies buffer
    ensures WordsOk(words + [w]) && buffer[2..2 + 2 * index + 2] == Header(words + [w])
    ensures forall k :: 0 <= k < buffer.Length && (k < 2 || k >= 2 + 2 * index + 2) ==> buffer[k] == old(buffer[k])
  {
    ghost var b := buffer[..];
    PutWord(buffer, 2 + 2 * index, w);
    HeaderPush(words, w);
    assert buffer[2..2 + 2 * index] == b[2..2 + 2 * index];
    Glue(buffer[..], 2, 2 * index, 2 + 2 * index + 2, Header(words), Le(w, 2));
  }

  /** The word of a field, behind the skip word its tag may need. */
  method PushRecord(buffer: array<Byte>, index0: nat, f: Field, v: Value, value: int, lasttag: int, ghost words: seq<int>)
    returns (index: nat)
    requires Suits(f, v) && value == WordOf(v) && -1 <= lasttag < f.tag < 0x7fff
    requires WordsOk(words) && |words| == index0 && 2 + 2 * (index0 + |Added(f, v, lasttag)|) <= buffer.Length
    requires buffer[2..2 + 2 * index0] == Header(words)
    modifies buffer
    ensures index == index0 + |Added(f, v, lasttag)|
    ensures WordsOk(words + Added(f, v, lasttag)) && buffer[2..2 + 2 * index] == Header(words + Added(f, v, lasttag))
    ensures forall k :: 0 <= k < buffer.Length && (k < 2 || k >= 2 + 2 * index) ==> buffer[k] == old(buffer[k])
  {
    hide Header;
    index := index0;
    var tag := f.tag - lasttag - 1;
    ghost var before := words;
    if tag > 0 {
      tag := (tag - 1) * 2 + 1;
      assert tag <= 0xffff;  // the source returns -1 otherwise
      PushWord(buffer, index, tag, words);
      before := words + [tag];
      index := index + 1;
      assert words + ([tag] + [value]) == before + [value];
    } else {
      assert words + ([] + [value]) == before + [value];
    }
    AddedOk(f, v, lasttag);
    PushWord(buffer, index, value, before);
    index := index + 1;
  }

  lemma InlineData(f: Field, v: Value)
    requires Suits(f, v)
    ensures WordOf(v) != 0 <==> Inline(v)
    ensures Inline(v) ==> DataOf(f, v) == []
    ensures |DataOf(f, v)| <= Ample(f, v)
  {
    if v.Numbers? { NarrowLength(v.es); WideLength(v.es); }
  }

  /** memmove towards the front. */
  method MoveDown(buffer: array<Byte>, to: nat, from: nat, n: nat)
    requires to <= from && from + n <= buffer.Length
    modifies buffer
    ensures buffer[to..to + n] == old(buffer[from..from + n])
    ensures forall k :: 0 <= k < buffer.Length && (k < to || k >= from + n) ==> buffer[k] == old(buffer[k])
  {
    var i := 0;
    while i < n
      invariant 0 <= i <= n
      invariant forall k :: to <= k < to + i ==> buffer[k] == old(buffer[k - to + from])
      invariant forall k :: 0 <= k < buffer.Length && (k < to || k >= to + i) ==> buffer[k] == old(buffer[k])
    {
      buffer[to + i] := buffer[from + i];
      i := i + 1;
    }
  }

  /** What is in the buffer while the fields are encoded. */
  ghost predicate InPlace(b: seq<Byte>, headerSz: nat, index: nat, data: nat, words: seq<int>, body: seq<Byte>) {
    WordsOk(words) && index == |words| && 2 + 2 * index <= headerSz && data == headerSz + |body| && data <= |b|
    && b[2..2 + 2 * index] == Header(words) && b[headerSz..data] == body
  }

  /** The next present field fits the header, as all of them do. */
  lemma RecordFits(st: Schema, vs: Present, i: nat, last: int, words: seq<int>, body: seq<Byte>)
    requires Imported(st) && Begun(st, vs, i, last, words, body)
    ensures |words| <= MaxN(st, -1)
  {
    ImportedAbove(st);
    HeaderFits(st, vs, -1);
  }

  /** What the next present field adds fits the header, and is accounted for. */
  lemma NextFits(st: Schema, vs: Present, i: nat, last: int, words: seq<int>, body: seq<Byte>, maxn: nat)
    requires Imported(st) && Begun(st, vs, i, last, words, body) && i < |st| && vs[i].Some? && maxn == MaxN(st, -1)
    ensures var f, v := st[i], vs[i].value;
      Suits(f, v) && -1 <= last < f.tag < 0x7fff && |words + Added(f, v, last)| <= maxn
      && Begun(st, vs, i + 1, f.tag, words + Added(f, v, last), body + DataOf(f, v))
      && Owed(st, vs, i) == Ample(f, v) + Owed(st, vs, i + 1)
  {
    assert i < |vs|;
    hide Begun, DataOf, Added, Ample, Owed, Imported;
    var f, v := st[i], vs[i].value;
    BegunPresent(st, vs, i, last, words, body);
    RecordFits(st, vs, i + 1, f.tag, words + Added(f, v, last), body + DataOf(f, v));
  }

  /** One present field: its data behind the data so far, its word or words behind the words so far. */
  method EncodeOne(f: Field, v: Value, buffer: array<Byte>, headerSz: nat, index0: nat, data0: nat, size0: int, last: int,
      ghost words: seq<int>, ghost body: seq<Byte>) returns (ok: bool, index: nat, data: nat, size: int)
    requires Suits(f, v) && -1 <= last < f.tag < 0x7fff && 0 <= size0 && data0 + size0 <= buffer.Length
    requires InPlace(buffer[..], headerSz, index0, data0, words, body) && 2 + 2 * |words + Added(f, v, last)| <= headerSz
    modifies buffer
    ensures ok ==> InPlace(buffer[..], headerSz, index, data, words + Added(f, v, last), body + DataOf(f, v))
    ensures ok ==> data + size == data0 + size0 && 0 <= size && size >= size0 - Ample(f, v)
    ensures size0 >= Ample(f, v) ==> ok
    ensures forall k :: data0 + size0 <= k < buffer.Length ==> buffer[k] == old(buffer[k])
  {
    hide DataOf, WordOf, Ample, Suits, InPlace, Added;
    var sz, value;
    index := index0;
    sz, value, data, size := AppendData(f, v, buffer, headerSz, index0, data0, size0, words, body);
    if sz < 0 { return false, index, data, size; }
    index := AppendWords(f, v, value, buffer, headerSz, index0, data, last, words, body + DataOf(f, v));
    ok := true;
  }

  method AppendData(f: Field, v: Value, buffer: array<Byte>, headerSz: nat, index: nat, data0: nat, size0: int,
      ghost words: seq<int>, ghost body: seq<Byte>) returns (sz: int, value: int, data: nat, size: int)
    requires Suits(f, v) && 0 <= size0 && data0 + size0 <= buffer.Length
    requires InPlace(buffer[..], headerSz, index, data0, words, body)
    modifies buffer
    ensures sz >= 0 ==> value == WordOf(v) && InPlace(buffer[..], headerSz, index, data, words, body + DataOf(f, v))
    ensures sz >= 0 ==> data + size == data0 + size0 && 0 <= size && size >= size0 - Ample(f, v)
    ensures size0 >= Ample(f, v) ==> sz >= 0
    ensures forall k :: data0 + size0 <= k < buffer.Length ==> buffer[k] == old(buffer[k])
  {
    hide Header, DataOf, WordOf, Ample, Suits, Inline, WordsOk;
    InlineData(f, v);
    ghost var b := buffer[..];
    sz, value := EncodeField(f, v, buffer, data0, size0);
    data, size := data0, size0;
    if sz < 0 { return; }
    assert buffer[2..2 + 2 * index] == b[2..2 + 2 * index];
    assert buffer[headerSz..data0] == b[headerSz..data0];
    if value == 0 {
      data := data + sz;
      size := size - sz;
      Glue(buffer[..], headerSz, data0 - headerSz, data, body, DataOf(f, v));
    } else {
      assert body + [] == body;
    }
  }

  method AppendWords(f: Field, v: Value, value: int, buffer: array<Byte>, headerSz: nat, index0: nat, data: nat, last: int,
      ghost words: seq<int>, ghost body: seq<Byte>) returns (index: nat)
    requires Suits(f, v) && value == WordOf(v) && -1 <= last < f.tag < 0x7fff && data <= buffer.Length
    requires InPlace(buffer[..], headerSz, index0, data, words, body) && 2 + 2 * |words + Added(f, v, last)| <= headerSz
    modifies buffer
    ensures InPlace(buffer[..], headerSz, index, data, words + Added(f, v, last), body)
    ensures forall k :: data <= k < buffer.Length ==> buffer[k] == old(buffer[k])
  {
    hide Header, Added, Suits, WordOf, WordsOk;
    ghost var b := buffer[..];
    index := PushRecord(buffer, index0, f, v, value, last, words);
    assert buffer[headerSz..data] == b[headerSz..data];
  }

  /**
   sproto_encode: on success the buffer starts with the encoding, whose length is returned; it succeeds
   whenever there is room for maxn header words and for what the fields may ask for.
   */
  method SprotoEncode(st: Schema, maxn: nat, vs: Present, buffer: array<Byte>, size0: nat) returns (r: int)
    requires Imported(st) && Supplied(st, vs) && maxn == MaxN(st, -1) && size0 <= buffer.Length
    modifies buffer
    ensures r >= 0 ==> r == |Encode(st, vs)| <= size0 && buffer[..r] == Encode(st, vs)
    ensures size0 >= 2 + 2 * maxn + AmpleAll(st, vs) ==> r >= 0
    ensures forall k :: size0 <= k < buffer.Length ==> buffer[k] == old(buffer[k])
  {
    BegunStart(st, vs);
    hide Begun, InPlace, Supplied, Imported, AmpleAll, MaxN, Encode, Owed, Encoding;
    var headerSz := 2 + maxn * 2;
    if size0 < headerSz { return -1; }
    var data: nat, size: int := headerSz, size0 - headerSz;
    var index: nat, lasttag: int, i: nat := 0, -1, 0;
    ghost var words, body := [], [];
    PlaceStart(buffer[..], headerSz);
    EncodingStart(st, vs, maxn, buffer[..], size0);
    while i < |st|
      invariant i <= |st| && data + size == size0 && size >= 0
      invariant Encoding(st, vs, maxn, i, lasttag, words, body, buffer[..], index, data, size0, size)
      invariant forall k :: size0 <= k < buffer.Length ==> buffer[k] == old(buffer[k])
    {
      var ok;
      ok, index, data, size, lasttag, words, body :=
        EncodeNext(st, vs, maxn, i, buffer, index, data, size0, size, lasttag, words, body);
      if !ok { return -1; }
      i := i + 1;
    }
    EncodingIs(st, vs, maxn, i, lasttag, words, body, buffer[..], index, data, size0, size);
    r := CloseGap(st, vs, buffer, maxn, index, data, lasttag, words, body);
  }

  /** What the loop of sproto_encode keeps. */
  ghost predicate Encoding(st: Schema, vs: Present, maxn: nat, i: nat, last: int, words: seq<int>, body: seq<Byte>,
      b: seq<Byte>, index: nat, data: nat, size0: nat, size: int) {
    Begun(st, vs, i, last, words, body) && InPlace(b, 2 + 2 * maxn, index, data, words, body)
    && (size0 >= 2 + 2 * maxn + Owed(st, vs, 0) ==> size >= Owed(st, vs, i))
  }

  lemma EncodingStart(st: Schema, vs: Present, maxn: nat, b: seq<Byte>, size0: nat)
    requires Begun(st, vs, 0, -1, [], []) && InPlace(b, 2 + 2 * maxn, 0, 2 + 2 * maxn, [], [])
    ensures Encoding(st, vs, maxn, 0, -1, [], [], b, 0, 2 + 2 * maxn, size0, size0 - 2 - 2 * maxn)
  {
    hide Begun, InPlace, Owed;
  }

  lemma EncodingIs(st: Schema, vs: Present, maxn: nat, i: nat, last: int, words: seq<int>, body: seq<Byte>,
      b: seq<Byte>, index: nat, data: nat, size0: nat, size: int)
    requires Encoding(st, vs, maxn, i, last, words, body, b, index, data, size0, size)
    ensures Begun(st, vs, i, last, words, body) && InPlace(b, 2 + 2 * maxn, index, data, words, body)
  {
    hide Begun, InPlace, Owed;
  }

  /** One round of the loop: nothing for an absent field. */
  method EncodeNext(st: Schema, vs: Present, maxn: nat, i: nat, buffer: array<Byte>, index0: nat, data0: nat, size0: nat, size1: int,
      last0: int, ghost words0: seq<int>, ghost body0: seq<Byte>)
    returns (ok: bool, index: nat, data: nat, size: int, last: int, ghost words: seq<int>, ghost body: seq<Byte>)
    requires Imported(st) && Supplied(st, vs) && maxn == MaxN(st, -1) && i < |st| && size1 >= 0 && data0 + size1 == size0 <= buffer.Length
    requires Encoding(st, vs, maxn, i, last0, words0, body0, buffer[..], index0, data0, size0, size1)
    modifies buffer
    ensures ok ==> data + size == size0 && size >= 0
    ensures ok ==> Encoding(st, vs, maxn, i + 1, last, words, body, buffer[..], index, data, size0, size)
    ensures size0 >= 2 + 2 * maxn + Owed(st, vs, 0) ==> ok
    ensures forall k :: size0 <= k < buffer.Length ==> buffer[k] == old(buffer[k])
  {
    assert |vs| == |st|;
    hide Begun, InPlace, Supplied, Imported, DataOf, Added, Ample, MaxN, Owed, Suits, Inline, WordOf, Above;
    ok, index, data, size, last, words, body := true, index0, data0, size1, last0, words0, body0;
    if vs[i].None? {
      BegunAbsent(st, vs, i, last, words, body);
    } else {
      var f, v := st[i], vs[i].value;
      NextFits(st, vs, i, last, words, body, maxn);
      ok, index, data, size := EncodeOne(f, v, buffer, 2 + 2 * maxn, index, data, size, last, words, body);
      if !ok { return; }
      words := words + Added(f, v, last);
      body := body + DataOf(f, v);
      last := f.tag;
    }
  }

  lemma PlaceStart(b: seq<Byte>, headerSz: nat)
    requires 2 <= headerSz <= |b|
    ensures InPlace(b, headerSz, 0, headerSz, [], [])
  {
  }

  lemma BegunAll(st: Schema, vs: Present, last: int, words: seq<int>, data: seq<Byte>)
    requires Imported(st) && Begun(st, vs, |st|, last, words, data)
    ensures Supplied(st, vs) && |words| < 0x1_0000 && WordsOk(words) && Encode(st, vs) == Le(|words|, 2) + Header(words) + data
  {
    RecordFits(st, vs, |st|, last, words, data);
    ImportedAbove(st);
    MaxNSmall(st, -1);
    assert words + [] == words && data + [] == data;
  }

  /** The end of sproto_encode: the number of words, and the data moved up behind them. */
  method CloseGap(st: Schema, vs: Present, buffer: array<Byte>, maxn: nat, index: nat, data: nat, ghost last: int,
      ghost words: seq<int>, ghost body: seq<Byte>) returns (r: nat)
    requires Imported(st) && Supplied(st, vs) && Begun(st, vs, |st|, last, words, body)
    requires data <= buffer.Length && InPlace(buffer[..], 2 + 2 * maxn, index, data, words, body)
    modifies buffer
    ensures r == |Encode(st, vs)| <= data && buffer[..r] == Encode(st, vs)
    ensures forall k :: data <= k < buffer.Length ==> buffer[k] == old(buffer[k])
  {
    hide Begun, Encode, Imported, Supplied, Header, Le, WordsOk;
    ghost var b := buffer[..];
    BegunAll(st, vs, last, words, body);
    var headerSz := 2 + 2 * maxn;
    PutWord(buffer, 0, index);
    assert buffer[2..2 + 2 * index] == b[2..2 + 2 * index] && buffer[headerSz..data] == b[headerSz..data];
    var datasz := data - headerSz;
    ghost var c := buffer[..];
    if index != maxn {
      MoveDown(buffer, 2 + index * 2, headerSz, datasz);
    }
    r := 2 + index * 2 + datasz;
    assert buffer[2 + 2 * index..r] == body;
    assert buffer[..2] == c[..2] && buffer[2..2 + 2 * index] == c[2..2 + 2 * index];
    Assemble(buffer[..], index, r, words, body);
  }

  lemma Assemble(b: seq<Byte>, index: nat, r: nat, words: seq<int>, body: seq<Byte>)
    requires WordsOk(words) && index == |words| && 2 + 2 * index <= r <= |b|
    requires b[..2] == Le(index, 2) && b[2..2 + 2 * index] == Header(words) && b[2 + 2 * index..r] == body
    ensures b[..r] == Le(index, 2) + Header(words) + body
  {
    hide Le, Header;
    Glue(b, 2, 2 * index, r, Header(words), body);
    Glue(b, 0, 2, r, Le(index, 2), Header(words) + body);
    assert Le(index, 2) + (Header(words) + body) == Le(index, 2) + Header(words) + body;
    assert b[0..r] == b[..r];
  }

  // ---------- sproto_decode ----------

  /** toword and todword */
  method GetLe(data: array<Byte>, at: nat, k: nat) returns (n: int)
    requires at + k <= data.Length && (k == 2 || k == 4)
    ensures n == UnLe(data[at..at + k])
  {
    UnLeAt(data[at..at + k]);
    n := data[at] + 256 * (data[at + 1] as int);
    if k == 4 {
      n := n + 0x1_0000 * (data[at + 2] as int) + 0x100_0000 * (data[at + 3] as int);
    }
  }

  lemma UnLeAt(b: seq<Byte>)
    ensures |b| == 2 ==> UnLe(b) == (b[0] as int) + 256 * (b[1] as int)
    ensures |b| == 4 ==> UnLe(b) == (b[0] as int) + 256 * (b[1] as int) + 0x1_0000 * (b[2] as int) + 0x100_0000 * (b[3] as int)
  {
    if |b| == 2 {
      assert b[1..][1..] == [] && UnLe(b[1..]) == b[1];
    } else if |b| == 4 {
      assert b[1..][1..][1..][1..] == [] && UnLe(b[1..][1..][1..]) == b[3];
      assert UnLe(b[1..][1..]) == (b[2] as int) + 256 * (b[3] as int);
      assert UnLe(b[1..]) == (b[1] as int) + 256 * UnLe(b[1..][1..]);
    }
  }

  function AddFields(done: seq<(int, Decoded)>, r: Option<Received>): Option<Received> {
    if r.None? then None else Some(Received(done + r.value.fields, r.value.rest))
  }

  /** What the loop does with one field: unknown tags are skipped, a callback that refuses ends the decoding. */
  method TakeField(st: Schema, base: int, tag: int, w: int, body: seq<Byte>, before: seq<(int, Decoded)>, ghost r: Option<Received>)
    returns (ok: bool, fields: seq<(int, Decoded)>)
    requires Imported(st) && base == BaseOf(st)
    ensures TakeBehind(st, tag, w, body, before, r) == if ok then AddFields(fields, r) else None
  {
    hide DecodeField, Find, Imported;
    fields := before;
    var f := FindTag(st, base, tag);
    if f.Some? {
      var d := DecodeField(f.value, w, body);
      if d.None? { return false, []; }
      fields := fields + [(tag, d.value)];
    }
    ok := true;
  }

  /**
   sproto_decode: -1 for an input that ends too early or does not suit the type, else the number of
   bytes used; `fields` is what the callback received.
   */
  method SprotoDecode(st: Schema, base: int, data: array<Byte>) returns (used: int, fields: seq<(int, Decoded)>)
    requires Imported(st) && base == BaseOf(st)
    ensures Decode(st, data[..]).None? ==> used == -1
    ensures Decode(st, data[..]).Some? ==>
      fields == Decode(st, data[..]).value.fields && 0 <= used <= data.Length && data[used..] == Decode(st, data[..]).value.rest
  {
    hide Decode, DecodeWords, DecodeField, Find, Imported, UnLe, WordsAt, TakeBehind, AddFields;
    fields := [];
    var size := data.Length;
    DecodeStart(st, data[..]);
    if size < 2 { return -1, []; }
    var fn := GetLe(data, 0, 2);
    assert data[0..2] == data[..2] == data[..][..2];
    size := size - 2;
    if size < fn * 2 { return -1, []; }
    var datastream := 2 + fn * 2;
    size := size - fn * 2;
    var tag, i := -1, 0;
    ghost var words := WordsAt(data[2..], fn);
    assert data[..][2..] == data[2..] && data[..][2 + 2 * fn..] == data[datastream..];
    WordsLength(data[2..], fn);
    assert words[0..] == words;
    NothingAdded(DecodeWords(st, words, -1, data[datastream..]));
    while i < fn
      invariant 0 <= i <= fn == |words| && tag >= -1
      invariant datastream + size == data.Length && size >= 0 && datastream >= 0
      invariant Decode(st, data[..]) == AddFields(fields, DecodeWords(st, words[i..], tag, data[datastream..]))
    {
      var value := GetLe(data, 2 + i * 2, 2);
      assert data[2 + i * 2..2 + i * 2 + 2] == data[..][2 + i * 2..2 + i * 2 + 2] && data[..][2..] == data[2..];
      NextWord(data[..], fn, i);
      DecodeStep(st, words[i..], tag, data[datastream..], fields);
      tag := tag + 1;
      i := i + 1;
      if value % 2 == 1 {
        tag := tag + value / 2;
      } else {
        var body: seq<Byte> := [];
        if value / 2 - 1 < 0 {
          var sz := PartSize(data, datastream);
          if sz < 0 { return -1, []; }
          body := data[datastream + 4..datastream + 4 + sz];
          datastream := datastream + sz + 4;
          size := size - (sz + 4);
        }
        var ok;
        ok, fields := TakeField(st, base, tag, value, body, fields, DecodeWords(st, words[i..], tag, data[datastream..]));
        if !ok { return -1, []; }
      }
    }
    DecodeEnd(st, tag, data[datastream..], fields);
    assert words[i..] == [];
    used := data.Length - size;
  }

  lemma NextWord(b: seq<Byte>, fn: nat, i: nat)
    requires |b| >= 2 + 2 * fn && i < fn
    ensures
      var words := WordsAt(b[2..], fn);
      |words| == fn && words[i..][0] == UnLe(b[2 + i * 2..2 + i * 2 + 2]) && words[i..][1..] == words[i + 1..]
  {
    hide UnLe;
    WordsLength(b[2..], fn);
    WordAt(b[2..], fn, i);
    assert b[2..][2 * i..2 * i + 2] == b[2 + i * 2..2 + i * 2 + 2];
  }

  /** The size of the data part at a position; -1 when the input ends inside it. */
  method PartSize(data: array<Byte>, at: nat) returns (sz: int)
    requires at <= data.Length
    ensures var rest := data[at..];
      if |rest| < 4 || |rest| < 4 + UnLe(rest[..4]) then sz == -1
      else sz == UnLe(rest[..4]) && data[at + 4..at + 4 + sz] == rest[4..4 + sz] && data[at + sz + 4..] == rest[4 + sz..]
  {
    var size := data.Length - at;
    if size < 4 { return -1; }
    sz := GetLe(data, at, 4);
    assert data[at..][..4] == data[at..at + 4];
    if size < sz + 4 { return -1; }
  }

  lemma NothingAdded(r: Option<Received>)
    ensures AddFields([], r) == r
  {
    if r.Some? { assert [] + r.value.fields == r.value.fields; }
  }

  lemma DecodeStart(st: Schema, b: seq<Byte>)
    ensures |b| < 2 || |b| - 2 < 2 * UnLe(b[..2]) ==> Decode(st, b).None?
    ensures |b| >= 2 && |b| - 2 >= 2 * UnLe(b[..2]) ==>
      var n := UnLe(b[..2]); Decode(st, b) == DecodeWords(st, WordsAt(b[2..], n), -1, b[2 + 2 * n..])
  {
  }

  lemma {:induction false} WordsLength(b: seq<Byte>, n: nat)
    requires |b| >= 2 * n
    ensures |WordsAt(b, n)| == n
  {
    if n > 0 { WordsLength(b[2..], n - 1); }
  }

  lemma {:induction false} WordAt(b: seq<Byte>, n: nat, i: nat)
    requires |b| >= 2 * n && i < n
    ensures |WordsAt(b, n)| == n && WordsAt(b, n)[i] == UnLe(b[2 * i..2 * i + 2])
  {
    WordsLength(b, n);
    if i > 0 {
      WordAt(b[2..], n - 1, i - 1);
      assert b[2..][2 * (i - 1)..2 * (i - 1) + 2] == b[2 * i..2 * i + 2];
    }
  }

  /** One header word of DecodeWords, with what has been decoded before in front. */
  lemma DecodeStep(st: Schema, ws: seq<int>, last: int, data: seq<Byte>, done: seq<(int, Decoded)>)
    requires |ws| > 0 && ws[0] >= 0
    ensures
      var w, tag, r := ws[0], last + 1, AddFields(done, DecodeWords(st, ws, last, data));
      if w % 2 == 1 then r == AddFields(done, DecodeWords(st, ws[1..], tag + w / 2, data))
      else if w / 2 - 1 >= 0 then r == TakeBehind(st, tag, w, [], done, DecodeWords(st, ws[1..], tag, data))
      else if |data| < 4 || |data| < 4 + UnLe(data[..4]) then r == None
      else
        var n := UnLe(data[..4]);
        r == TakeBehind(st, tag, w, data[4..4 + n], done, DecodeWords(st, ws[1..], tag, data[4 + n..]))
  {
    hide DecodeField, Find;
    var w, tag := ws[0], last + 1;
    if w % 2 == 0 {
      if w / 2 - 1 >= 0 {
        TakeIsBehind(st, tag, w, [], done, DecodeWords(st, ws[1..], tag, data));
      } else if |data| >= 4 && |data| >= 4 + UnLe(data[..4]) {
        var n := UnLe(data[..4]);
        TakeIsBehind(st, tag, w, data[4..4 + n], done, DecodeWords(st, ws[1..], tag, data[4 + n..]));
      }
    }
  }

  function TakeBehind(st: Schema, tag: int, w: int, body: seq<Byte>, done: seq<(int, Decoded)>, r: Option<Received>): Option<Received> {
    match Find(st, tag)
    case None => AddFields(done, r)
    case Some(f) =>
      match DecodeField(f, w, body)
      case None => None
      case Some(d) => AddFields(done + [(tag, d)], r)
  }

  lemma TakeIsBehind(st: Schema, tag: int, w: int, body: seq<Byte>, done: seq<(int, Decoded)>, r: Option<Received>)
    ensures AddFields(done, Take(st, tag, w, body, r)) == TakeBehind(st, tag, w, body, done, r)
  {
    hide DecodeField, Find;
    if Find(st, tag).Some? && DecodeField(Find(st, tag).value, w, body).Some? && r.Some? {
      var d := DecodeField(Find(st, tag).value, w, body).value;
      assert done + ([(tag, d)] + r.value.fields) == (done + [(tag, d)]) + r.value.fields;
    }
  }

  lemma DecodeEnd(st: Schema, tag: int, data: seq<Byte>, done: seq<(int, Decoded)>)
    ensures AddFields(done, DecodeWords(st, [], tag, data)) == Some(Received(done, data))
  {
    assert done + [] == done;
  }
}
