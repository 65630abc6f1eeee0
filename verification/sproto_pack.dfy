/** The zero-packing of sproto (lualib-src/sproto/sproto.c): what it writes, and that unpacking undoes it. */
module ZeroPack {
  import opened Common

  predicate IsUnit(u: seq<Byte>) { |u| == 8 }

  function Zeros(n: nat): (z: seq<Byte>)
    ensures |z| == n
  {
    seq(n, _ => 0)
  }

  function PadLength(n: nat): nat { (8 - n % 8) % 8 }

  /** The input padded with zeros to a multiple of 8. */
  function Padded(src: seq<Byte>): seq<Byte> { src + Zeros(PadLength(|src|)) }

  /** The input as units of 8 bytes, the last one padded. */
  function Units(src: seq<Byte>): seq<seq<Byte>> {
    if |src| == 0 then [] else if |src| < 8 then [src + Zeros(8 - |src|)] else [src[..8]] + Units(src[8..])
  }

  function Flatten(us: seq<seq<Byte>>): seq<Byte> { if |us| == 0 then [] else us[0] + Flatten(us[1..]) }

  /** The nonzero bytes of a sequence. */
  function Squeeze(u: seq<Byte>): (z: seq<Byte>)
    ensures |z| <= |u|
  {
    if |u| == 0 then [] else if u[0] == 0 then Squeeze(u[1..]) else [u[0]] + Squeeze(u[1..])
  }

  function Pow2(i: nat): (p: int)
    ensures p > 0
  {
    if i == 0 then 1 else 2 * Pow2(i - 1)
  }

  function Flag(b: Byte): int { if b != 0 then 1 else 0 }

  /** Bit i of the header tells whether byte i of the unit is nonzero; here for the bytes from i on. */
  function Mask(u: seq<Byte>): int { if |u| == 0 then 0 else Flag(u[0]) + 2 * Mask(u[1..]) }

  lemma {:induction false} MaskRange(u: seq<Byte>)
    ensures 0 <= Mask(u) < Pow2(|u|)
    ensures Mask(u) == Pow2(|u|) - 1 ==> |Squeeze(u)| == |u|
  {
    if |u| > 0 { MaskRange(u[1..]); }
  }

  lemma EightBits()
    ensures Pow2(8) == 256
  {
    assert Pow2(4) == 16;
  }

  function Header(u: seq<Byte>): Byte
    requires IsUnit(u)
  {
    MaskRange(u);
    EightBits();
    Mask(u)
  }

  /** A unit on its own: its header, and its nonzero bytes. */
  function Sparse(u: seq<Byte>): seq<Byte>
    requires IsUnit(u)
  {
    [Header(u)] + Squeeze(u)
  }

  /** A raw run of 1 to 256 units. */
  function Raw(run: seq<seq<Byte>>): seq<Byte>
    requires 1 <= |run| <= 256
  {
    [0xff, |run| - 1] + Flatten(run)
  }

  predicate AllUnits(us: seq<seq<Byte>>) { forall k :: 0 <= k < |us| ==> IsUnit(us[k]) }

  /**
   What is written for the remaining units when `run` is the raw run under way: a unit of eight
   nonzero bytes starts a run, units of six or more join one, and a run is closed at 256 units.
   */
  function Emit(us: seq<seq<Byte>>, run: seq<seq<Byte>>): seq<Byte>
    requires AllUnits(us) && |run| < 256
    decreases |us|
  {
    if |us| == 0 then (if run == [] then [] else Raw(run))
    else
      var u, nonzero := us[0], |Squeeze(us[0])|;
      if run == [] then
        if nonzero == 8 then Emit(us[1..], [u]) else Sparse(u) + Emit(us[1..], [])
      else if nonzero >= 6 then
        if |run| == 255 then Raw(run + [u]) + Emit(us[1..], []) else Emit(us[1..], run + [u])
      else Raw(run) + Sparse(u) + Emit(us[1..], [])
  }

  lemma {:induction false} UnitsAre(src: seq<Byte>)
    ensures AllUnits(Units(src)) && |Units(src)| == (|src| + 7) / 8
    decreases |src|
  {
    if |src| >= 8 { UnitsAre(src[8..]); }
  }

  function Pack(src: seq<Byte>): seq<Byte> {
    UnitsAre(src);
    Emit(Units(src), [])
  }

  // ---------- unpacking ----------

  /** Reads, from bit i of a header on, the bytes of a unit; None when the input ends. */
  function Spread(header: int, i: nat, src: seq<Byte>): Option<(seq<Byte>, seq<Byte>)>
    requires i <= 8 && header >= 0
    decreases 8 - i
  {
    if i == 8 then Some(([], src))
    else if header % 2 == 1 then
      if |src| == 0 then None
      else match Spread(header / 2, i + 1, src[1..])
        case None => None
        case Some((u, rest)) => Some(([src[0]] + u, rest))
    else match Spread(header / 2, i + 1, src)
      case None => None
      case Some((u, rest)) => Some(([0] + u, rest))
  }

  lemma {:induction false} SpreadShrinks(header: int, i: nat, src: seq<Byte>)
    requires i <= 8 && header >= 0
    ensures var r := Spread(header, i, src);
      r.Some? ==> |r.value.0| == 8 - i && |r.value.1| <= |src|
    decreases 8 - i
  {
    if i < 8 {
      if header % 2 == 1 {
        if |src| > 0 { SpreadShrinks(header / 2, i + 1, src[1..]); }
      } else {
        SpreadShrinks(header / 2, i + 1, src);
      }
    }
  }

  /** The length of a run whose second byte is given. */
  function RunBytes(count: int): int { 8 * count + 8 }

  /** What a packed stream stands for; None when it ends inside a unit or a run. */
  function Unpack(src: seq<Byte>): Option<seq<Byte>>
    decreases |src|
  {
    if |src| == 0 then Some([])
    else if src[0] == 0xff then
      var n := if |src| < 2 then 8 else RunBytes(src[1]);
      if |src| < 2 + n then None
      else
        match Unpack(src[2 + n..])
        case None => None
        case Some(rest) => Some(src[2..2 + n] + rest)
    else
      SpreadShrinks(src[0], 0, src[1..]);
      match Spread(src[0], 0, src[1..])
      case None => None
      case Some((u, tail)) =>
        match Unpack(tail)
        case None => None
        case Some(rest) => Some(u + rest)
  }

  lemma TailOf(b: Byte, z: seq<Byte>, tail: seq<Byte>)
    ensures var w := [b] + z + tail; w[0] == b && w[1..] == z + tail
  {
  }

  lemma SqueezeMore(u: seq<Byte>, tail: seq<Byte>)
    requires |u| > 0
    ensures var z := Squeeze(u) + tail;
      if u[0] == 0 then z == Squeeze(u[1..]) + tail
      else |z| > 0 && z[0] == u[0] && z[1..] == Squeeze(u[1..]) + tail
  {
    assert Squeeze(u) == if u[0] == 0 then Squeeze(u[1..]) else [u[0]] + Squeeze(u[1..]);
    hide Squeeze;
    TailOf(u[0], Squeeze(u[1..]), tail);
  }

  lemma MaskHalf(u: seq<Byte>)
    requires |u| > 0
    ensures Mask(u) / 2 == Mask(u[1..]) && Mask(u) % 2 == Flag(u[0])
  {
  }

  lemma SpreadZero(header: int, i: nat, src: seq<Byte>, u: seq<Byte>, rest: seq<Byte>)
    requires i < 8 && header >= 0 && header % 2 == 0 && Spread(header / 2, i + 1, src) == Some((u, rest))
    ensures Spread(header, i, src) == Some(([0] + u, rest))
  {
  }

  lemma SpreadByte(header: int, i: nat, src: seq<Byte>, u: seq<Byte>, rest: seq<Byte>)
    requires i < 8 && header >= 0 && header % 2 == 1 && |src| > 0 && Spread(header / 2, i + 1, src[1..]) == Some((u, rest))
    ensures Spread(header, i, src) == Some(([src[0]] + u, rest))
  {
  }

  /** Spreading the nonzero bytes of a unit under its header gives the unit back. */
  lemma {:induction false} SpreadSqueeze(u: seq<Byte>, i: nat, tail: seq<Byte>)
    requires |u| == 8 - i && i <= 8
    ensures Mask(u) >= 0 && Spread(Mask(u), i, Squeeze(u) + tail) == Some((u, tail))
    decreases |u|
  {
    MaskRange(u);
    if |u| == 0 {
      assert Squeeze(u) + tail == tail;
    } else {
      MaskHalf(u);
      SqueezeMore(u, tail);
      hide Spread, Mask, Pow2, Squeeze;
      SpreadSqueeze(u[1..], i + 1, tail);
      assert u == [u[0]] + u[1..];
      if u[0] != 0 {
        SpreadByte(Mask(u), i, Squeeze(u) + tail, u[1..], tail);
      } else {
        SpreadZero(Mask(u), i, Squeeze(u) + tail, u[1..], tail);
      }
    }
  }

  lemma {:induction false} FlattenLength(us: seq<seq<Byte>>)
    requires AllUnits(us)
    ensures |Flatten(us)| == 8 * |us|
  {
    if |us| > 0 { FlattenLength(us[1..]); }
  }

  lemma {:induction false} FlattenAppend(a: seq<seq<Byte>>, b: seq<seq<Byte>>)
    ensures Flatten(a + b) == Flatten(a) + Flatten(b)
  {
    if |a| == 0 {
      assert a + b == b;
    } else {
      assert (a + b)[1..] == a[1..] + b;
      FlattenAppend(a[1..], b);
    }
  }

  lemma FlattenOne(u: seq<Byte>)
    ensures Flatten([u]) == u
  {
    assert [u][1..] == [];
  }

  lemma UnpackSparse(u: seq<Byte>, tail: seq<Byte>)
    requires IsUnit(u) && |Squeeze(u)| < 8 && Unpack(tail).Some?
    ensures Unpack(Sparse(u) + tail) == Some(u + Unpack(tail).value)
  {
    hide Squeeze, Mask, Spread, Header;
    HeaderSays(u);
    SpreadSqueeze(u, 0, tail);
    var s := Sparse(u) + tail;
    assert s[0] == Header(u) && s[1..] == Squeeze(u) + tail;
  }

  lemma HeaderSays(u: seq<Byte>)
    requires IsUnit(u) && |Squeeze(u)| < 8
    ensures Header(u) == Mask(u) && Header(u) != 0xff
  {
    MaskRange(u);
    EightBits();
  }

  lemma UnpackRaw(run: seq<seq<Byte>>, tail: seq<Byte>)
    requires AllUnits(run) && 1 <= |run| <= 256 && Unpack(tail).Some?
    ensures Unpack(Raw(run) + tail) == Some(Flatten(run) + Unpack(tail).value)
  {
    FlattenLength(run);
    var s, n := Raw(run) + tail, 8 * |run|;
    assert s[2..2 + n] == Flatten(run) && s[2 + n..] == tail;
  }

  /** What Emit writes unpacks to the run under way and the remaining units. */
  lemma {:induction false} UnpackEmit(us: seq<seq<Byte>>, run: seq<seq<Byte>>)
    requires AllUnits(us) && AllUnits(run) && |run| < 256
    ensures Unpack(Emit(us, run)) == Some(Flatten(run) + Flatten(us))
    decreases |us|
  {
    hide Unpack, Squeeze, Raw, Sparse, Flatten;
    assert Flatten([]) == [] && Unpack([]) == Some([]) by { Nothing(); }
    if |us| == 0 {
      assert us == [] && Flatten(run) + [] == Flatten(run);
      if run != [] {
        UnpackRaw(run, []);
        assert Raw(run) + [] == Raw(run);
      }
    } else {
      var u := us[0];
      assert us == [u] + us[1..];
      FlattenAppend([u], us[1..]);
      FlattenAppend(run, [u]);
      FlattenOne(u);
      UnpackEmit(us[1..], []);
      assert [] + Flatten(us[1..]) == Flatten(us[1..]) && [] + Flatten(us) == Flatten(us);
      if run == [] {
        if |Squeeze(u)| == 8 { UnpackEmit(us[1..], [u]); } else { SparseShort(u); UnpackSparse(u, Emit(us[1..], [])); }
      } else if |Squeeze(u)| >= 6 {
        if |run| == 255 {
          UnpackRaw(run + [u], Emit(us[1..], []));
        } else {
          UnpackEmit(us[1..], run + [u]);
        }
      } else {
        UnpackSparse(u, Emit(us[1..], []));
        UnpackRaw(run, Sparse(u) + Emit(us[1..], []));
        assert Raw(run) + Sparse(u) + Emit(us[1..], []) == Raw(run) + (Sparse(u) + Emit(us[1..], []));
      }
      Regroup(Flatten(run), u, Flatten(us[1..]));
    }
  }

  lemma Regroup(a: seq<Byte>, b: seq<Byte>, c: seq<Byte>)
    ensures (a + b) + c == a + (b + c)
  {
  }

  lemma Nothing()
    ensures Flatten([]) == [] && Unpack([]) == Some([])
  {
  }

  lemma SparseShort(u: seq<Byte>)
    requires IsUnit(u) && |Squeeze(u)| != 8
    ensures |Squeeze(u)| < 8
  {
  }

  lemma PadSame(n: nat)
    requires n >= 8
    ensures PadLength(n) == PadLength(n - 8)
  {
    assert n % 8 == (n - 8) % 8;
  }

  lemma Front(src: seq<Byte>, z: seq<Byte>)
    requires |src| >= 8
    ensures src + z == src[..8] + (src[8..] + z)
  {
  }

  lemma UnitsMore(src: seq<Byte>)
    requires |src| >= 8
    ensures Units(src) == [src[..8]] + Units(src[8..]) && Padded(src) == src[..8] + Padded(src[8..])
  {
    hide Zeros, PadLength;
    PadSame(|src|);
    assert |src[8..]| == |src| - 8;
    Front(src, Zeros(PadLength(|src|)));
  }

  lemma FlattenMore(u: seq<Byte>, us: seq<seq<Byte>>)
    ensures Flatten([u] + us) == u + Flatten(us)
  {
    assert ([u] + us)[1..] == us;
  }

  lemma {:induction false} FlattenUnits(src: seq<Byte>)
    ensures Flatten(Units(src)) == Padded(src)
    decreases |src|
  {
    if |src| >= 8 {
      UnitsMore(src);
      hide Units, Padded, Flatten;
      FlattenUnits(src[8..]);
      FlattenMore(src[..8], Units(src[8..]));
    } else if |src| > 0 {
      FlattenOne(src + Zeros(8 - |src|));
    } else {
      assert Padded(src) == [];
    }
  }

  /** Unpacking what was packed gives every input back, padded with zeros to a multiple of 8. */
  lemma RoundTrip(src: seq<Byte>)
    ensures Unpack(Pack(src)) == Some(Padded(src))
  {
    UnitsAre(src);
    UnpackEmit(Units(src), []);
    FlattenUnits(src);
    assert Flatten([]) + Flatten(Units(src)) == Flatten(Units(src));
  }

  // ---------- the size ----------

  /** Each closed run of 256 costs two bytes, a shorter run is paid for by the unit that ends it, and one run may be left over. */
  lemma {:induction false} EmitSize(us: seq<seq<Byte>>, run: seq<seq<Byte>>)
    requires AllUnits(us) && AllUnits(run) && |run| < 256
    ensures var t := |us| + |run|; |Emit(us, run)| <= 8 * t + 2 * (t / 256) + 2
    decreases |us|
  {
    hide Squeeze, Flatten;
    FlattenLength(run);
    if |us| > 0 {
      var u := us[0];
      EmitSize(us[1..], []);
      if run == [] {
        if |Squeeze(u)| == 8 { EmitSize(us[1..], [u]); }
      } else if |Squeeze(u)| >= 6 {
        FlattenLength(run + [u]);
        if |run| < 255 { EmitSize(us[1..], run + [u]); }
      }
    }
  }

  lemma {:induction false} SqueezeZeros(u: seq<Byte>, p: nat)
    requires p <= |u| && forall k :: |u| - p <= k < |u| ==> u[k] == 0
    ensures |Squeeze(u)| <= |u| - p
    decreases |u|
  {
    if |u| > p {
      SqueezeZeros(u[1..], p);
    } else if |u| > 0 {
      SqueezeZeros(u[1..], p - 1);
    }
  }

  /** The same when the last unit ends in p zeros of padding, which the header saves unless a run absorbs them. */
  lemma {:induction false} EmitSizePadded(us: seq<seq<Byte>>, run: seq<seq<Byte>>, p: nat)
    requires AllUnits(us) && AllUnits(run) && |run| < 256 && |us| > 0 && 1 <= p <= 7
    requires |Squeeze(us[|us| - 1])| <= 8 - p
    ensures var t := |us| + |run|; |Emit(us, run)| <= 8 * t - p + 2 * ((t - 1) / 256) + 4
    decreases |us|
  {
    hide Squeeze, Flatten, Emit, Raw, Sparse;
    EmitCases(us, run);
    var u := us[0];
    if |us| == 1 {
      assert us[1..] == [];
      EmitNone();
    } else {
      EmitSizePadded(us[1..], [], p);
      if run == [] {
        if |Squeeze(u)| == 8 { EmitSizePadded(us[1..], [u], p); }
      } else if |Squeeze(u)| >= 6 {
        if |run| < 255 { EmitSizePadded(us[1..], run + [u], p); }
      }
    }
  }

  lemma EmitNone()
    ensures Emit([], []) == [] && forall run: seq<seq<Byte>> :: 0 < |run| < 256 && AllUnits(run) ==> |Emit([], run)| == 2 + 8 * |run|
  {
    forall run: seq<seq<Byte>> | 0 < |run| < 256 && AllUnits(run)
      ensures |Emit([], run)| == 2 + 8 * |run|
    {
      FlattenLength(run);
    }
  }

  /** The length of what is written, from its first unit. */
  lemma EmitCases(us: seq<seq<Byte>>, run: seq<seq<Byte>>)
    requires AllUnits(us) && AllUnits(run) && |run| < 256 && |us| > 0
    ensures AllUnits(us[1..]) && AllUnits(run + [us[0]])
    ensures
      var u, rest, z := us[0], us[1..], |Squeeze(us[0])|;
      |Emit(us, run)| ==
        if run == [] then (if z == 8 then |Emit(rest, [u])| else 1 + z + |Emit(rest, [])|)
        else if z < 6 then 2 + 8 * |run| + 1 + z + |Emit(rest, [])|
        else if |run| == 255 then 2050 + |Emit(rest, [])|
        else |Emit(rest, run + [u])|
  {
    hide Squeeze, Flatten;
    FlattenLength(run);
    FlattenLength(run + [us[0]]);
  }

  lemma {:induction false} LastUnit(src: seq<Byte>)
    requires |src| % 8 != 0
    ensures |Units(src)| > 0 && AllUnits(Units(src))
    ensures var u := Units(src)[|Units(src)| - 1]; |Squeeze(u)| <= |src| % 8
    decreases |src|
  {
    UnitsAre(src);
    if |src| < 8 {
      SqueezeZeros(src + Zeros(8 - |src|), 8 - |src|);
    } else {
      LastUnit(src[8..]);
    }
  }

  /** The buffer lpack allocates is always large enough: at most n + 2 + 2 * ceil(n / 2048) bytes. */
  lemma PackSize(src: seq<Byte>)
    ensures |Pack(src)| <= |src| + 2 + 2 * ((|src| + 2047) / 2048)
  {
    UnitsAre(src);
    var n, t := |src|, |Units(src)|;
    if n % 8 == 0 {
      EmitSize(Units(src), []);
      assert n == 8 * t;
    } else {
      LastUnit(src);
      var p := 8 - n % 8;
      EmitSizePadded(Units(src), [], p);
      assert n == 8 * t - p;
      assert (n + 2047) / 2048 == (t - 1) / 256 + 1 by { Blocks(n, t, p); }
    }
  }

  lemma Blocks(n: nat, t: nat, p: nat)
    requires n == 8 * t - p && 1 <= p <= 7 && t >= 1
    ensures (n + 2047) / 2048 == (t - 1) / 256 + 1
  {
    var q, r := (t - 1) / 256, (t - 1) % 256;
    assert t - 1 == 256 * q + r;
    assert n + 2047 == 2048 * (q + 1) + (8 * r + 7 - p);
    assert 0 <= 8 * r + 7 - p < 2048;
  }
}
