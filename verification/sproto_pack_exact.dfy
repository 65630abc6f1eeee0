/** Which streams sproto_unpack accepts, whoever packed them, and what they stand for (lualib-src/sproto/sproto.c). */
module ZeroPackExact {
  import opened Common
  import opened ZeroPack

  /** A unit written sparsely, or a run of whole units behind 0xff and its length less one. */
  datatype Segment = Few(header: Byte, bytes: seq<Byte>) | Many(count: Byte, body: seq<Byte>)

  predicate BitOf(h: nat, j: nat) { if j == 0 then h % 2 == 1 else BitOf(h / 2, j - 1) }

  /** How many of the low n bits of h are set. */
  function Ones(h: nat, n: nat): nat { if n == 0 then 0 else h % 2 + Ones(h / 2, n - 1) }

  predicate SegmentOk(g: Segment) {
    match g
    case Few(header, bytes) => header != 0xff && |bytes| == Ones(header, 8)
    case Many(count, body) => |body| == RunBytes(count)
  }

  function Written(g: Segment): seq<Byte> {
    match g
    case Few(header, bytes) => [header] + bytes
    case Many(count, body) => [0xff, count] + body
  }

  /** The eight bytes of a sparse unit: zero where the header has no bit, else the next of the bytes. */
  predicate Stands(header: nat, bytes: seq<Byte>, u: seq<Byte>, n: nat) {
    |u| == n && |bytes| == Ones(header, n)
    && forall j :: 0 <= j < n ==>
      Ones(header, j) <= |bytes|
      && (if BitOf(header, j) then Ones(header, j) < |bytes| && u[j] == bytes[Ones(header, j)] else u[j] == 0)
  }

  predicate Means(g: Segment, out: seq<Byte>) {
    match g
    case Few(header, bytes) => Stands(header, bytes, out, 8)
    case Many(_, body) => out == body
  }

  /** src is these segments, and they stand for out. */
  predicate Parses(gs: seq<Segment>, outs: seq<seq<Byte>>, src: seq<Byte>, out: seq<Byte>) {
    |gs| == |outs| && (forall k :: 0 <= k < |gs| ==> SegmentOk(gs[k]) && Means(gs[k], outs[k]))
    && src == AllWritten(gs) && out == Flatten(outs)
  }

  function AllWritten(gs: seq<Segment>): seq<Byte> { if |gs| == 0 then [] else Written(gs[0]) + AllWritten(gs[1..]) }

  // ---------- one sparse unit ----------

  lemma StandsTail(h: nat, bytes: seq<Byte>, u: seq<Byte>, n: nat)
    requires n > 0 && Stands(h, bytes, u, n)
    ensures h % 2 == 1 ==> |bytes| > 0 && u[0] == bytes[0] && Stands(h / 2, bytes[1..], u[1..], n - 1)
    ensures h % 2 == 0 ==> u[0] == 0 && Stands(h / 2, bytes, u[1..], n - 1)
  {
    assert Ones(h, 0) == 0 && (BitOf(h, 0) <==> h % 2 == 1);
    forall j: nat | j < n - 1
      ensures Ones(h, j + 1) == h % 2 + Ones(h / 2, j) && (BitOf(h, j + 1) <==> BitOf(h / 2, j)) && u[1..][j] == u[j + 1]
    {
    }
  }

  lemma StandsHead(h: nat, bytes: seq<Byte>, u: seq<Byte>, n: nat)
    requires n > 0 && |u| == n
    requires if h % 2 == 1 then |bytes| > 0 && u[0] == bytes[0] && Stands(h / 2, bytes[1..], u[1..], n - 1)
             else u[0] == 0 && Stands(h / 2, bytes, u[1..], n - 1)
    ensures Stands(h, bytes, u, n)
  {
    forall j | 0 <= j < n
      ensures Ones(h, j) <= |bytes|
      ensures if BitOf(h, j) then Ones(h, j) < |bytes| && u[j] == bytes[Ones(h, j)] else u[j] == 0
    {
      if j > 0 {
        assert Ones(h, j) == h % 2 + Ones(h / 2, j - 1) && (BitOf(h, j) <==> BitOf(h / 2, j - 1)) && u[1..][j - 1] == u[j];
      }
    }
  }

  lemma SpreadStep(h: nat, i: nat, src: seq<Byte>)
    requires i < 8 && Spread(h, i, src).Some?
    ensures h % 2 == 1 ==> |src| > 0
    ensures
      var more := Spread(h / 2, i + 1, if h % 2 == 1 then src[1..] else src);
      more.Some? && Spread(h, i, src).value == ((if h % 2 == 1 then [src[0]] else [0]) + more.value.0, more.value.1)
  {
  }

  lemma {:induction false} SpreadParses(h: nat, i: nat, src: seq<Byte>) returns (bytes: seq<Byte>)
    requires i <= 8 && Spread(h, i, src).Some?
    ensures var (u, rest) := Spread(h, i, src).value; src == bytes + rest && Stands(h, bytes, u, 8 - i)
    decreases 8 - i
  {
    if i == 8 {
      bytes := [];
    } else {
      SpreadStep(h, i, src);
      hide Spread, Stands, Ones, BitOf;
      var u := Spread(h, i, src).value.0;
      if h % 2 == 1 {
        var more := SpreadParses(h / 2, i + 1, src[1..]);
        bytes := [src[0]] + more;
        Behind(src, more, Spread(h / 2, i + 1, src[1..]).value.1);
        assert u[1..] == Spread(h / 2, i + 1, src[1..]).value.0;
      } else {
        bytes := SpreadParses(h / 2, i + 1, src);
        assert u[1..] == Spread(h / 2, i + 1, src).value.0;
      }
      SpreadLength(h, i, src);
      StandsHead(h, bytes, u, 8 - i);
    }
  }

  lemma Behind(src: seq<Byte>, more: seq<Byte>, rest: seq<Byte>)
    requires |src| > 0 && src[1..] == more + rest
    ensures src == ([src[0]] + more) + rest && ([src[0]] + more)[1..] == more
  {
    assert src == [src[0]] + src[1..];
  }

  lemma SpreadLength(h: nat, i: nat, src: seq<Byte>)
    requires i <= 8 && Spread(h, i, src).Some?
    ensures |Spread(h, i, src).value.0| == 8 - i
  {
    SpreadShrinks(h, i, src);
  }

  lemma {:induction false} StandsSpreads(h: nat, i: nat, bytes: seq<Byte>, u: seq<Byte>, rest: seq<Byte>)
    requires i <= 8 && Stands(h, bytes, u, 8 - i)
    ensures Spread(h, i, bytes + rest) == Some((u, rest))
    decreases 8 - i
  {
    if i == 8 {
      assert bytes + rest == rest;
    } else {
      StandsTail(h, bytes, u, 8 - i);
      Heads(bytes, u, rest);
      hide Spread, Stands, Ones, BitOf;
      if h % 2 == 1 {
        StandsSpreads(h / 2, i + 1, bytes[1..], u[1..], rest);
        SpreadByte(h, i, bytes + rest, u[1..], rest);
      } else {
        StandsSpreads(h / 2, i + 1, bytes, u[1..], rest);
        SpreadZero(h, i, bytes + rest, u[1..], rest);
      }
    }
  }

  lemma Heads(bytes: seq<Byte>, u: seq<Byte>, rest: seq<Byte>)
    requires |u| > 0
    ensures u == [u[0]] + u[1..] && (|bytes| > 0 ==> (bytes + rest)[1..] == bytes[1..] + rest && (bytes + rest)[0] == bytes[0])
  {
  }

  // ---------- the whole stream ----------

  lemma UnpackFirst(g: Segment, out: seq<Byte>, tail: seq<Byte>)
    requires SegmentOk(g) && Means(g, out)
    ensures Unpack(Written(g) + tail) == if Unpack(tail).None? then None else Some(out + Unpack(tail).value)
  {
    hide Spread, Ones, BitOf;
    var src := Written(g) + tail;
    match g
    case Few(header, bytes) =>
      assert src[0] == header && src[1..] == bytes + tail;
      StandsSpreads(header, 0, bytes, out, tail);
    case Many(count, body) =>
      var n := RunBytes(count);
      assert src[0] == 0xff && src[1] == count && src[2..2 + n] == body && src[2 + n..] == tail;
  }

  lemma {:induction false} ParsedUnpacks(gs: seq<Segment>, outs: seq<seq<Byte>>)
    requires |gs| == |outs| && forall k :: 0 <= k < |gs| ==> SegmentOk(gs[k]) && Means(gs[k], outs[k])
    ensures Unpack(AllWritten(gs)) == Some(Flatten(outs))
  {
    hide Unpack, SegmentOk, Means, Written;
    if |gs| == 0 {
      Nothing();
    } else {
      assert forall k :: 0 <= k < |gs[1..]| ==> gs[1..][k] == gs[k + 1] && outs[1..][k] == outs[k + 1];
      ParsedUnpacks(gs[1..], outs[1..]);
      UnpackFirst(gs[0], outs[0], AllWritten(gs[1..]));
    }
  }

  lemma FirstRun(src: seq<Byte>) returns (g: Segment, out: seq<Byte>, tail: seq<Byte>)
    requires |src| > 0 && src[0] == 0xff && Unpack(src).Some?
    ensures SegmentOk(g) && Means(g, out) && src == Written(g) + tail
  {
    var n := if |src| < 2 then 8 else RunBytes(src[1]);
    g, out, tail := Many(src[1], src[2..2 + n]), src[2..2 + n], src[2 + n..];
    assert src == [src[0], src[1]] + src[2..2 + n] + src[2 + n..];
  }

  lemma FirstFew(src: seq<Byte>, bytes: seq<Byte>, u: seq<Byte>, tail: seq<Byte>)
    requires |src| > 0 && src[0] != 0xff && src[1..] == bytes + tail && Stands(src[0], bytes, u, 8)
    ensures SegmentOk(Few(src[0], bytes)) && Means(Few(src[0], bytes), u) && src == Written(Few(src[0], bytes)) + tail
  {
    hide Ones, BitOf;
    assert src == [src[0]] + src[1..];
  }

  lemma FirstSegment(src: seq<Byte>) returns (g: Segment, out: seq<Byte>, tail: seq<Byte>)
    requires |src| > 0 && Unpack(src).Some?
    ensures SegmentOk(g) && Means(g, out) && src == Written(g) + tail
  {
    if src[0] == 0xff {
      g, out, tail := FirstRun(src);
    } else {
      assert Spread(src[0], 0, src[1..]).Some?;
      hide Ones, BitOf, Unpack, Spread, Stands, SegmentOk, Means, Written;
      var bytes := SpreadParses(src[0], 0, src[1..]);
      var (u, rest) := Spread(src[0], 0, src[1..]).value;
      FirstFew(src, bytes, u, rest);
      g, out, tail := Few(src[0], bytes), u, rest;
    }
  }

  lemma {:induction false} UnpackedParses(src: seq<Byte>) returns (gs: seq<Segment>, outs: seq<seq<Byte>>)
    requires Unpack(src).Some?
    ensures Parses(gs, outs, src, Unpack(src).value)
    decreases |src|
  {
    hide Unpack, SegmentOk, Means;
    if |src| == 0 {
      gs, outs := [], [];
      Nothing();
    } else {
      var g, out, tail := FirstSegment(src);
      UnpackFirst(g, out, tail);
      WrittenSome(g);
      var more, rest := UnpackedParses(tail);
      gs, outs := [g] + more, [out] + rest;
      assert gs[1..] == more && outs[1..] == rest;
    }
  }

  lemma WrittenSome(g: Segment)
    ensures |Written(g)| > 0
  {
  }

  /**
   A stream unpacks to out exactly when it is a sequence of whole segments, sparse units with a byte for
   each bit of their header and runs of their stated length, that stand for out; any other stream fails.
   */
  lemma UnpackExact(src: seq<Byte>, out: seq<Byte>)
    ensures Unpack(src) == Some(out) <==> exists gs, outs :: Parses(gs, outs, src, out)
  {
    hide Unpack;
    if Unpack(src) == Some(out) {
      var gs, outs := UnpackedParses(src);
      assert Parses(gs, outs, src, out);
    }
    forall gs, outs | Parses(gs, outs, src, out) ensures Unpack(src) == Some(out) {
      ParsedUnpacks(gs, outs);
    }
  }

  // ---------- what sproto_pack writes ----------

  /** Units as they are written: one on its own, or a run of them. */
  datatype Group = Alone(u: seq<Byte>) | Run(us: seq<seq<Byte>>)

  /** How many bytes of a unit are not zero. */
  function Nonzero(u: seq<Byte>): nat { if |u| == 0 then 0 else (if u[0] != 0 then 1 else 0) + Nonzero(u[1..]) }

  predicate AllDense(us: seq<seq<Byte>>) { forall k :: 0 <= k < |us| ==> IsUnit(us[k]) && Nonzero(us[k]) >= 6 }

  predicate GroupOk(g: Group) {
    match g
    case Alone(u) => IsUnit(u) && Nonzero(u) < 8
    case Run(us) => 1 <= |us| <= 256 && AllDense(us) && Nonzero(us[0]) == 8
  }

  /**
   Runs begin with a unit without zeros and hold no unit with more than two, at most 256 in all; a
   shorter run is followed by a unit with more than two zeros, and units with a zero are alone elsewhere.
   */
  predicate Canonical(gs: seq<Group>) {
    |gs| > 0 ==>
      GroupOk(gs[0]) && Canonical(gs[1..])
      && (gs[0].Run? && |gs[0].us| < 256 && |gs| > 1 ==> gs[1].Alone? && Nonzero(gs[1].u) < 6)
  }

  function UnitsIn(gs: seq<Group>): seq<seq<Byte>> {
    if |gs| == 0 then [] else (match gs[0] case Alone(u) => [u] case Run(us) => us) + UnitsIn(gs[1..])
  }

  function GroupBytes(gs: seq<Group>): seq<Byte>
    requires Canonical(gs)
  {
    if |gs| == 0 then [] else (match gs[0] case Alone(u) => Sparse(u) case Run(us) => Raw(us)) + GroupBytes(gs[1..])
  }

  lemma {:induction false} SqueezedLength(u: seq<Byte>)
    ensures |Squeeze(u)| == Nonzero(u)
  {
    if |u| > 0 { SqueezedLength(u[1..]); }
  }

  /** A run under way takes the units that belong to it. */
  lemma {:induction false} RunEmits(run: seq<seq<Byte>>, more: seq<seq<Byte>>, rest: seq<seq<Byte>>)
    requires AllUnits(run) && AllDense(more) && AllUnits(rest) && 1 <= |run| <= 255 && |run| + |more| <= 256
    requires |run| + |more| < 256 && |rest| > 0 ==> Nonzero(rest[0]) < 6
    ensures AllUnits(more + rest) && Emit(more + rest, run) == Raw(run + more) + Emit(rest, [])
    decreases |more|
  {
    hide Squeeze, Flatten, Sparse, Raw, Nonzero;
    if |more| > 0 {
      var u := more[0];
      SqueezedLength(u);
      assert (more + rest)[1..] == more[1..] + rest && (more + rest)[0] == u;
      assert run + more == (run + [u]) + more[1..];
      if |run| == 255 {
        assert more == [u] && more[1..] + rest == rest;
      } else {
        RunEmits(run + [u], more[1..], rest);
      }
    } else {
      assert more + rest == rest && run + more == run;
      if |rest| > 0 {
        SqueezedLength(rest[0]);
        assert Emit([], []) == [];
        assert Emit(rest, run) == Raw(run) + Sparse(rest[0]) + Emit(rest[1..], []);
        assert Emit(rest, []) == Sparse(rest[0]) + Emit(rest[1..], []);
      } else {
        assert Emit(rest, run) == Raw(run) && Emit(rest, []) == [] && Raw(run) + [] == Raw(run);
      }
    }
  }

  lemma AloneEmits(u: seq<Byte>, rest: seq<seq<Byte>>)
    requires IsUnit(u) && Nonzero(u) < 8 && AllUnits(rest)
    ensures AllUnits([u] + rest) && Emit([u] + rest, []) == Sparse(u) + Emit(rest, [])
  {
    hide Squeeze, Sparse, Raw, Nonzero;
    SqueezedLength(u);
    assert ([u] + rest)[1..] == rest;
  }

  lemma WholeRunEmits(us: seq<seq<Byte>>, rest: seq<seq<Byte>>)
    requires GroupOk(Run(us)) && AllUnits(rest) && (|us| < 256 && |rest| > 0 ==> Nonzero(rest[0]) < 6)
    ensures AllUnits(us + rest) && Emit(us + rest, []) == Raw(us) + Emit(rest, [])
  {
    hide Squeeze, Sparse, Raw, Nonzero;
    SqueezedLength(us[0]);
    assert (us + rest)[0] == us[0] && (us + rest)[1..] == us[1..] + rest && [us[0]] + us[1..] == us;
    RunEmits([us[0]], us[1..], rest);
  }

  lemma {:induction false} CanonicalEmits(gs: seq<Group>)
    requires Canonical(gs)
    ensures AllUnits(UnitsIn(gs)) && Emit(UnitsIn(gs), []) == GroupBytes(gs)
  {
    if |gs| > 0 {
      hide Emit, GroupOk, Sparse, Raw, Nonzero;
      CanonicalEmits(gs[1..]);
      var rest := UnitsIn(gs[1..]);
      match gs[0]
      case Alone(u) =>
        AloneIs(u);
        AloneEmits(u, rest);
      case Run(us) =>
        if |us| < 256 && |rest| > 0 { NextUnit(gs); }
        WholeRunEmits(us, rest);
    }
  }

  lemma AloneIs(u: seq<Byte>)
    requires GroupOk(Alone(u))
    ensures IsUnit(u) && Nonzero(u) < 8
  {
  }

  lemma NextUnit(gs: seq<Group>)
    requires Canonical(gs) && |gs| > 0 && gs[0].Run? && |gs[0].us| < 256 && |UnitsIn(gs[1..])| > 0
    ensures Nonzero(UnitsIn(gs[1..])[0]) < 6
  {
    hide Nonzero;
  }

  /** The run under way is as a run may begin. */
  predicate RunOk(run: seq<seq<Byte>>) { AllDense(run) && |run| < 256 && (run != [] ==> Nonzero(run[0]) == 8) }

  /** The units divided into groups as they are written. */
  function Grouped(us: seq<seq<Byte>>, run: seq<seq<Byte>>): seq<Group>
    decreases |us|
  {
    if |us| == 0 then (if run == [] then [] else [Run(run)])
    else
      var u, rest := us[0], us[1..];
      if run == [] then (if Nonzero(u) == 8 then Grouped(rest, [u]) else [Alone(u)] + Grouped(rest, []))
      else if Nonzero(u) >= 6 then
        if |run| == 255 then [Run(run + [u])] + Grouped(rest, []) else Grouped(rest, run + [u])
      else [Run(run), Alone(u)] + Grouped(rest, [])
  }

  lemma {:induction false} NonzeroFits(u: seq<Byte>)
    ensures Nonzero(u) <= |u|
  {
    if |u| > 0 { NonzeroFits(u[1..]); }
  }

  lemma {:induction false} GroupedCanonical(us: seq<seq<Byte>>, run: seq<seq<Byte>>)
    requires AllUnits(us) && RunOk(run)
    ensures Canonical(Grouped(us, run)) && UnitsIn(Grouped(us, run)) == run + us
    decreases |us|
  {
    hide Nonzero;
    if |us| == 0 {
      assert run + us == run;
      if run != [] { OneGroup(Run(run)); }
    } else {
      hide Canonical, UnitsIn;
      var u, rest := us[0], us[1..];
      NonzeroFits(u);
      assert us == [u] + rest;
      if run == [] && Nonzero(u) == 8 {
        GroupedCanonical(rest, [u]);
        assert run + us == [u] + rest;
      } else if run == [] {
        GroupedCanonical(rest, []);
        MoreGroups(Alone(u), Grouped(rest, []));
        assert run + us == [u] + ([] + rest);
      } else if Nonzero(u) >= 6 && |run| == 255 {
        GroupedCanonical(rest, []);
        MoreGroups(Run(run + [u]), Grouped(rest, []));
        assert run + us == (run + [u]) + ([] + rest);
      } else if Nonzero(u) >= 6 {
        GroupedCanonical(rest, run + [u]);
        assert run + us == (run + [u]) + rest;
      } else {
        GroupedCanonical(rest, []);
        RunEnds(run, u, rest, Grouped(rest, []));
        assert run + us == run + ([u] + rest);
      }
    }
  }

  lemma OneGroup(g: Group)
    requires GroupOk(g)
    ensures Canonical([g]) && UnitsIn([g]) == match g case Alone(u) => [u] case Run(us) => us
  {
    assert [g][1..] == [];
  }

  lemma MoreGroups(g: Group, gs: seq<Group>)
    requires GroupOk(g) && Canonical(gs)
    requires g.Run? && |g.us| < 256 && |gs| > 0 ==> gs[0].Alone? && Nonzero(gs[0].u) < 6
    ensures Canonical([g] + gs) && UnitsIn([g] + gs) == (match g case Alone(u) => [u] case Run(us) => us) + UnitsIn(gs)
  {
    assert ([g] + gs)[1..] == gs;
  }

  lemma RunEnds(run: seq<seq<Byte>>, u: seq<Byte>, rest: seq<seq<Byte>>, gs: seq<Group>)
    requires GroupOk(Run(run)) && GroupOk(Alone(u)) && Nonzero(u) < 6 && Canonical(gs) && UnitsIn(gs) == [] + rest
    ensures Canonical([Run(run), Alone(u)] + gs) && UnitsIn([Run(run), Alone(u)] + gs) == run + ([u] + rest)
  {
    hide Nonzero, Canonical, UnitsIn;
    MoreGroups(Alone(u), gs);
    MoreGroups(Run(run), [Alone(u)] + gs);
    assert [Run(run), Alone(u)] + gs == [Run(run)] + ([Alone(u)] + gs);
    assert [] + rest == rest;
  }

  /** What sproto_pack writes is the one canonical division of the padded input into lone units and runs. */
  lemma PackExact(src: seq<Byte>, b: seq<Byte>)
    ensures Pack(src) == b <==> exists gs :: Canonical(gs) && UnitsIn(gs) == Units(src) && GroupBytes(gs) == b
  {
    hide Canonical, UnitsIn, GroupBytes, Emit, Grouped, Units;
    UnitsAre(src);
    var own := Grouped(Units(src), []);
    GroupedCanonical(Units(src), []);
    CanonicalEmits(own);
    assert [] + Units(src) == Units(src);
    forall gs | Canonical(gs) && UnitsIn(gs) == Units(src) && GroupBytes(gs) == b ensures Pack(src) == b {
      CanonicalEmits(gs);
    }
  }
}
