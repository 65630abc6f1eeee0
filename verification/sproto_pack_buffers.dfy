/** sproto_pack and sproto_unpack as loops over buffers (lualib-src/sproto/sproto.c), proved against ZeroPack. */
module ZeroPackBuffers {
  import opened Common
  import opened ZeroPack

  lemma {:induction false} MaskPush(u: seq<Byte>, b: Byte)
    ensures Mask(u + [b]) == Mask(u) + Flag(b) * Pow2(|u|)
    ensures Squeeze(u + [b]) == Squeeze(u) + if b != 0 then [b] else []
  {
    if |u| == 0 {
      assert u + [b] == [b] && [b][1..] == [];
    } else {
      assert (u + [b])[1..] == u[1..] + [b];
      MaskPush(u[1..], b);
    }
  }

  /** What pack_seg returns for a unit, given the length of the run under way. */
  function SegSize(u: seq<Byte>, running: nat): int {
    var nonzero := |Squeeze(u)|;
    if nonzero == 8 || (nonzero >= 6 && running > 0) then (if running > 0 then 8 else 10) else nonzero + 1
  }

  /** A unit that neither starts nor joins a raw run. */
  predicate Lone(u: seq<Byte>, running: nat) { |Squeeze(u)| < if running > 0 then 6 else 8 }

  /** The loop of pack_seg: collects the header, and writes the nonzero bytes while there is room. */
  method WriteNonzero(src: array<Byte>, at: nat, buffer: array<Byte>, to: nat, room: int) returns (header: int, notzero: int)
    requires at + 8 <= src.Length && src != buffer && to + room <= buffer.Length
    modifies buffer
    ensures header == Mask(src[at..at + 8]) && notzero == |Squeeze(src[at..at + 8])|
    ensures notzero < room ==> buffer[to + 1..to + 1 + notzero] == Squeeze(src[at..at + 8])
    ensures forall k :: 0 <= k < buffer.Length && (k < to || k >= to + room) ==> buffer[k] == old(buffer[k])
  {
    header, notzero := 0, 0;
    var i, pos, sz := 0, to + 1, room - 1;
    ghost var u := src[at..at + 8];
    assert u[..0] == [];
    while i < 8
      invariant 0 <= i <= 8 && notzero == |Squeeze(u[..i])| <= i && header == Mask(u[..i])
      invariant if room < 1 then sz == room - 1 else pos + sz == to + room && pos == to + 1 + Min(notzero, room - 1)
      invariant room >= 1 ==> buffer[to + 1..pos] == Squeeze(u[..i])[..pos - to - 1]
      invariant forall k :: 0 <= k < buffer.Length && (k < to || k >= to + room) ==> buffer[k] == old(buffer[k])
    {
      assert u[..i + 1] == u[..i] + [u[i]] && u[i] == src[at + i];
      MaskPush(u[..i], u[i]);
      if src[at + i] != 0 {
        notzero := notzero + 1;
        header := header + Pow2(i);
        if sz > 0 {
          buffer[pos] := src[at + i];
          pos := pos + 1;
          sz := sz - 1;
        }
      }
      i := i + 1;
    }
    assert u[..8] == u;
  }

  method PackSeg(src: array<Byte>, at: nat, buffer: array<Byte>, to: nat, room: int, running: nat) returns (used: int)
    requires at + 8 <= src.Length && src != buffer && to + room <= buffer.Length
    modifies buffer
    ensures used == SegSize(src[at..at + 8], running)
    ensures Lone(src[at..at + 8], running) && used <= room ==> buffer[to..to + used] == Sparse(src[at..at + 8])
    ensures forall k :: 0 <= k < buffer.Length && (k < to || k >= to + room) ==> buffer[k] == old(buffer[k])
  {
    hide Mask, Squeeze;
    var header, notzero := WriteNonzero(src, at, buffer, to, room);
    ghost var u := src[at..at + 8];
    if (notzero == 7 || notzero == 6) && running > 0 {
      notzero := 8;
    }
    if notzero == 8 {
      return if running > 0 then 8 else 10;
    }
    if room >= 1 {
      MaskRange(u);
      EightBits();
      ghost var squeezed := if notzero < room then buffer[to + 1..to + 1 + notzero] else [];
      buffer[to] := header;
      assert notzero < room ==> buffer[to..to + notzero + 1] == [header] + squeezed;
    }
    return notzero + 1;
  }

  function Min(a: int, b: int): int { if a <= b then a else b }

  /** The n * 8 bytes from a position on, with zeros for what lies behind the end. */
  function Slice(src: seq<Byte>, from: nat, n: nat): seq<Byte>
    requires from <= |src|
  {
    if from + 8 * n <= |src| then src[from..from + 8 * n] else src[from..] + Zeros(from + 8 * n - |src|)
  }

  method WriteFf(src: array<Byte>, from: nat, buffer: array<Byte>, des: nat, n: nat)
    requires from <= src.Length && 1 <= n <= 256 && des + 2 + 8 * n <= buffer.Length && src != buffer
    modifies buffer
    ensures buffer[des..des + 2 + 8 * n] == [0xff, n - 1] + Slice(src[..], from, n)
    ensures forall k :: 0 <= k < buffer.Length && (k < des || k >= des + 2 + 8 * n) ==> buffer[k] == old(buffer[k])
  {
    buffer[des] := 0xff;
    buffer[des + 1] := n - 1;
    var sz := if from + 8 * n <= src.Length then 8 * n else src.Length - from;
    ghost var want := [0xff, n - 1] + Slice(src[..], from, n);
    var i := 0;
    while i < 8 * n
      invariant 0 <= i <= 8 * n
      invariant forall k :: des <= k < des + 2 + i ==> buffer[k] == want[k - des]
      invariant forall k :: 0 <= k < buffer.Length && (k < des || k >= des + 2 + 8 * n) ==> buffer[k] == old(buffer[k])
    {
      buffer[des + 2 + i] := if i < sz then src[from + i] else 0;
      i := i + 1;
    }
    assert buffer[des..des + 2 + 8 * n] == want;
  }

  lemma {:induction false} UnitAt(src: seq<Byte>, j: nat)
    requires j < |Units(src)|
    ensures 8 * j < |src| && IsUnit(Units(src)[j])
    ensures Units(src)[j] == Slice(src, 8 * j, 1)
    decreases j
  {
    UnitsAre(src);
    if j > 0 {
      UnitAt(src[8..], j - 1);
    }
  }

  lemma {:induction false} RunIsSlice(src: seq<Byte>, a: nat, n: nat)
    requires a + n <= |Units(src)| && 8 * a <= |src|
    ensures Flatten(Units(src)[a..a + n]) == Slice(src, 8 * a, n)
  {
    hide Units, Flatten;
    var us := Units(src);
    if n == 0 {
      assert us[a..a] == [];
      FlattenNone();
    } else {
      UnitsAre(src);
      UnitAt(src, a + n - 1);
      RunIsSlice(src, a, n - 1);
      assert us[a..a + n] == us[a..a + n - 1] + [us[a + n - 1]];
      FlattenAppend(us[a..a + n - 1], [us[a + n - 1]]);
      FlattenOne(us[a + n - 1]);
      SliceMore(src, 8 * a, n - 1);
    }
  }

  lemma FlattenNone()
    ensures Flatten([]) == []
  {
  }

  lemma SliceMore(src: seq<Byte>, from: nat, n: nat)
    requires from + 8 * n <= |src|
    ensures Slice(src, from, n + 1) == Slice(src, from, n) + Slice(src, from + 8 * n, 1)
  {
  }

  /** The state of sproto_pack after j units: what is final, and the raw run under way. */
  ghost predicate Packed(src: seq<Byte>, j: nat, done: seq<Byte>, running: nat, size: int) {
    j <= |Units(src)| && running <= j && running < 256 && AllUnits(Units(src))
    && Pack(src) == done + Emit(Units(src)[j..], Units(src)[j - running..j])
    && size == |done| + if running > 0 then 2 + 8 * running else 0
  }

  lemma PackedStart(src: seq<Byte>)
    ensures Packed(src, 0, [], 0, 0)
  {
    UnitsAre(src);
    assert Units(src)[0..] == Units(src);
    assert [] + Pack(src) == Pack(src);
  }

  lemma PackedSize(src: seq<Byte>, j: nat, done: seq<Byte>, running: nat, size: int)
    requires Packed(src, j, done, running, size)
    ensures size == |done| + if running > 0 then 2 + 8 * running else 0
  {
  }

  lemma PackedEnd(src: seq<Byte>, done: seq<Byte>, running: nat, size: int)
    requires Packed(src, |Units(src)|, done, running, size)
    ensures |Pack(src)| == size
    ensures Pack(src) == if running == 0 then done else done + Raw(Units(src)[|Units(src)| - running..])
  {
    hide Raw;
    var us := Units(src);
    assert us[|us|..] == [] && us[|us| - running..|us|] == us[|us| - running..];
    RawLength(us[|us| - running..]);
    assert done + [] == done;
  }

  lemma RawLength(run: seq<seq<Byte>>)
    requires AllUnits(run)
    ensures 1 <= |run| <= 256 ==> |Raw(run)| == 2 + 8 * |run|
  {
    FlattenLength(run);
  }

  /** One more unit. */
  lemma PackedNext(src: seq<Byte>, j: nat, done: seq<Byte>, running: nat, size: int)
    requires Packed(src, j, done, running, size) && j < |Units(src)|
    ensures
      var us := Units(src);
      var used := SegSize(us[j], running);
      var run := us[j - running..j];
      var lone := done + (if running > 0 then Raw(run) else []) + Sparse(us[j]);
      if used == 10 && running == 0 then Packed(src, j + 1, done, 1, size + used)
      else if used == 8 && running == 255 then Packed(src, j + 1, done + Raw(us[j - 255..j + 1]), 0, size + used)
      else if used == 8 && running > 0 then Packed(src, j + 1, done, running + 1, size + used)
      else Lone(us[j], running) && used == |Squeeze(us[j])| + 1 && Packed(src, j + 1, lone, 0, size + used)
  {
    hide Squeeze, Raw, Flatten, Sparse;
    var us := Units(src);
    var rest, run, u := us[j..], us[j - running..j], us[j];
    assert rest[0] == u && rest[1..] == us[j + 1..] && us[j - running..j + 1] == run + [u] && us[j + 1..j + 1] == [];
    RawLength(run);
    RawLength(run + [u]);
    SparseLength(u);
    var tail := Emit(us[j + 1..], []);
    if running > 0 {
      Regroup(done, Raw(run), Sparse(u) + tail);
      Regroup(done + Raw(run), Sparse(u), tail);
      Regroup(Raw(run), Sparse(u), tail);
      if running == 255 { Regroup(done, Raw(run + [u]), tail); }
    } else {
      assert done + [] == done && run == [] && run + [u] == [u];
      Regroup(done, Sparse(u), tail);
    }
  }

  lemma SparseLength(u: seq<Byte>)
    requires IsUnit(u)
    ensures |Sparse(u)| == |Squeeze(u)| + 1
  {
  }

  lemma SegCases(u: seq<Byte>, running: nat)
    requires IsUnit(u)
    ensures var used := SegSize(u, running);
      if running == 0 && |Squeeze(u)| == 8 then used == 10
      else if running > 0 && |Squeeze(u)| >= 6 then used == 8
      else Lone(u, running) && used == |Squeeze(u)| + 1 && (running > 0 ==> used < 8) && used < 10
  {
  }

  /** A padded unit never starts a raw run, so a run always starts in the input itself. */
  lemma PaddedIsShort(src: seq<Byte>, j: nat)
    requires j < |Units(src)| && 8 * j + 8 > |src|
    ensures |Squeeze(Units(src)[j])| < 8
  {
    UnitAt(src, j);
    UnitsAre(src);
    LastUnit(src);
  }

  /** A short last unit, copied and padded. */
  method PadUnit(src: array<Byte>, i: nat) returns (tmp: array<Byte>)
    requires i < src.Length < i + 8
    ensures fresh(tmp) && tmp.Length == 8 && tmp[..8] == Slice(src[..], i, 1)
  {
    tmp := new Byte[8](_ => 0);
    var j := 0;
    while j < src.Length - i
      invariant 0 <= j <= src.Length - i
      invariant forall k :: 0 <= k < 8 ==> tmp[k] == if k < j then src[i + k] else 0
    {
      tmp[j] := src[i + j];
      j := j + 1;
    }
  }

  /** When the output still fits, writes a raw run behind what is final; touches nothing else. */
  method CloseRun(src: array<Byte>, from: nat, buffer: array<Byte>, des: nat, n: nat, room: int, ghost done: seq<Byte>)
    requires from % 8 == 0 && from <= src.Length && 1 <= n <= 256 && src != buffer && des == |done|
    requires from / 8 + n <= |Units(src[..])|
    requires room >= 0 ==> des + 2 + 8 * n <= buffer.Length && buffer[..des] == done
    modifies buffer
    ensures AllUnits(Units(src[..]))
    ensures room >= 0 ==> buffer[..des + 2 + 8 * n] == done + Raw(Units(src[..])[from / 8..from / 8 + n])
    ensures forall k :: 0 <= k < buffer.Length && (k < des || k >= des + 2 + 8 * n || room < 0) ==> buffer[k] == old(buffer[k])
  {
    hide Units, Flatten, Slice;
    UnitsAre(src[..]);
    if room >= 0 {
      WriteFf(src, from, buffer, des, n);
      RunIsSlice(src[..], from / 8, n);
      assert buffer[..des + 2 + 8 * n] == buffer[..des] + buffer[des..des + 2 + 8 * n];
    }
  }

  /** What is final is in the buffer as long as it fits, and the run under way starts where its output will go. */
  ghost predicate Written(src: seq<Byte>, buffer: seq<Byte>, j: nat, done: seq<Byte>, run: Run, size: int, room: int) {
    Packed(src, j, done, run.n, size) && run.n < 256
    && (run.n > 0 ==> run.des == |done| && run.from == 8 * (j - run.n) && run.from <= |src|)
    && (room >= 0 ==> size <= |buffer| && |done| <= |buffer| && buffer[..|done|] == done)
  }

  /** ff_srcstart, ff_desstart and ff_n */
  datatype Run = Run(from: nat, des: nat, n: nat)

  /** The unit at a position: in the input, or in a padded copy. */
  method CurrentUnit(src: array<Byte>, i: nat, ghost j: nat) returns (cur: array<Byte>, at: nat)
    requires i == 8 * j && j < |Units(src[..])| && i < src.Length
    ensures at + 8 <= cur.Length && cur[at..at + 8] == Units(src[..])[j] && IsUnit(Units(src[..])[j])
    ensures (cur == src && at == i) || fresh(cur)
    ensures cur != src ==> |Squeeze(Units(src[..])[j])| < 8
  {
    hide Units, Squeeze;
    cur, at := src, i;
    UnitAt(src[..], j);
    UnitIs(src[..], j);
    if i + 8 > src.Length {
      PaddedIsShort(src[..], j);
      cur := PadUnit(src, i);
      at := 0;
    }
  }

  /** Writes out the run under way, if there is one. */
  method EndRun(src: array<Byte>, buffer: array<Byte>, run0: Run, room: int, ghost j: nat, ghost done0: seq<Byte>)
    returns (run: Run, ghost done: seq<Byte>)
    requires src != buffer && run0.n <= j <= |Units(src[..])| && run0.n < 256
    requires run0.n > 0 ==> run0.des == |done0| && run0.from == 8 * (j - run0.n) && run0.from <= src.Length
    requires room >= 0 ==> |done0| + (if run0.n > 0 then 2 + 8 * run0.n else 0) <= buffer.Length && buffer[..|done0|] == done0
    modifies buffer
    ensures run == run0.(n := 0)
    ensures done == done0 + if run0.n > 0 then Raw(Units(src[..])[j - run0.n..j]) else []
    ensures |done| == |done0| + if run0.n > 0 then 2 + 8 * run0.n else 0
    ensures room >= 0 ==> buffer[..|done|] == done
    ensures forall k :: 0 <= k < buffer.Length && (k >= |done| || room < 0) ==> buffer[k] == old(buffer[k])
  {
    hide Units, Raw;
    run, done := run0, done0;
    if run.n > 0 {
      CloseRun(src, run.from, buffer, run.des, run.n, room, done);
      RawLength(Units(src[..])[j - run.n..j]);
      done := done + Raw(Units(src[..])[j - run.n..j]);
      run := run.(n := 0);
    } else {
      assert done + [] == done;
    }
  }

  /** One round of sproto_pack's loop. */
  method PackUnit(src: array<Byte>, i: nat, buffer: array<Byte>, size: nat, room0: int, run0: Run, ghost j: nat, ghost done0: seq<Byte>)
    returns (n: int, run: Run, ghost done: seq<Byte>)
    requires src != buffer && 0 <= size + room0 <= buffer.Length && i == 8 * j && j < |Units(src[..])| && i < src.Length
    requires Written(src[..], buffer[..], j, done0, run0, size, room0)
    modifies buffer
    ensures n >= 0 && Written(src[..], buffer[..], j + 1, done, run, size + n, room0 - n)
    ensures forall k :: size + room0 <= k < buffer.Length ==> buffer[k] == old(buffer[k])
  {
    hide Emit, Squeeze, Raw, Units, Sparse, Slice, Pack, Packed, SegSize, Lone;
    ghost var s := src[..];
    var cur, at := CurrentUnit(src, i, j);
    ghost var u := Units(s)[j];
    PackedSize(s, j, done0, run0.n, size);
    PackedNext(s, j, done0, run0.n, size);
    SegCases(u, run0.n);
    n := PackSeg(cur, at, buffer, size, room0, run0.n);
    var room := room0 - n;
    run, done := run0, done0;
    assert |done| <= size && (room >= 0 ==> buffer[..|done|] == done);
    if n == 10 {
      run := Run(i, size, 1);
    } else if n == 8 && run.n > 0 {
      run := run.(n := run.n + 1);
      if run.n == 256 {
        CloseRun(src, run.from, buffer, run.des, 256, room, done);
        done := done + Raw(Units(s)[j - 255..j + 1]);
        run := run.(n := 0);
      }
    } else {
      run, done := EndRun(src, buffer, run0, room, j, done0);
      Joined(buffer[..], done, Sparse(u), room);
      done := done + Sparse(u);
    }
  }

  /** sproto_pack: the size of the packed input, which is in the buffer when it fits; nothing is written behind the end. */
  method SprotoPack(src: array<Byte>, buffer: array<Byte>, bufsz: nat) returns (size: int)
    requires src != buffer && bufsz <= buffer.Length
    modifies buffer
    ensures size == |Pack(src[..])|
    ensures size <= bufsz ==> buffer[..size] == Pack(src[..])
    ensures forall k :: bufsz <= k < buffer.Length ==> buffer[k] == old(buffer[k])
  {
    hide Emit, Raw, Units, Pack, Packed;
    size := 0;
    var run, i, srcsz := Run(0, 0, 0), 0, src.Length;
    ghost var s := src[..];
    ghost var done: seq<Byte>, j := [], 0;
    PackedStart(s);
    UnitsAre(s);
    while i < srcsz
      invariant i == 8 * j && j <= |Units(s)| && (i < srcsz <==> j < |Units(s)|) && size >= 0
      invariant Written(s, buffer[..], j, done, run, size, bufsz - size)
      invariant forall k :: bufsz <= k < buffer.Length ==> buffer[k] == old(buffer[k])
    {
      var n;
      n, run, done := PackUnit(src, i, buffer, size, bufsz - size, run, j, done);
      size := size + n;
      i := i + 8;
      j := j + 1;
    }
    PackedSize(s, j, done, run.n, size);
    PackedEnd(s, done, run.n, size);
    if size <= bufsz && run.n > 0 {
      CloseRun(src, run.from, buffer, run.des, run.n, bufsz - size, done);
      assert Units(s)[|Units(s)| - run.n..|Units(s)|] == Units(s)[|Units(s)| - run.n..];
    }
  }

  lemma Joined(buffer: seq<Byte>, a: seq<Byte>, b: seq<Byte>, room: int)
    requires room >= 0 ==> |a| + |b| <= |buffer| && buffer[..|a|] == a && buffer[|a|..|a| + |b|] == b
    ensures room >= 0 ==> buffer[..|a + b|] == a + b
  {
    if room >= 0 { assert buffer[..|a| + |b|] == buffer[..|a|] + buffer[|a|..|a| + |b|]; }
  }

  lemma UnitIs(src: seq<Byte>, j: nat)
    requires j < |Units(src)| && 8 * j < |src| && Units(src)[j] == Slice(src, 8 * j, 1)
    ensures 8 * j + 8 <= |src| ==> Units(src)[j] == src[8 * j..8 * j + 8]
  {
  }

  // ---------- sproto_unpack ----------

  /** What is left to unpack, put behind what has been. */
  function Behind(done: seq<Byte>, rest: Option<seq<Byte>>): Option<seq<Byte>> {
    if rest.None? then None else Some(done + rest.value)
  }

  /** The same for the bytes of one unit and the input behind it. */
  function BehindUnit(part: seq<Byte>, rest: Option<(seq<Byte>, seq<Byte>)>): Option<(seq<Byte>, seq<Byte>)> {
    if rest.None? then None else Some((part + rest.value.0, rest.value.1))
  }

  /** One unit under its header; false when the input ends. */
  method UnpackUnit(src: array<Byte>, header: Byte, from: nat, buffer: array<Byte>, at: nat, room: int)
    returns (ok: bool, next: nat, pos: nat, left: int)
    requires src != buffer && from <= src.Length && 0 <= at + room <= buffer.Length
    modifies buffer
    ensures ok <==> Spread(header, 0, src[from..]).Some?
    ensures ok ==> from <= next <= src.Length && Spread(header, 0, src[from..]).value.1 == src[next..]
    ensures pos + left == at + room && (room >= 8 && ok ==> left == room - 8) && (left > 0 && ok ==> room >= 8)
    ensures room >= 8 && ok ==> buffer[at..at + 8] == Spread(header, 0, src[from..]).value.0
    ensures forall k :: 0 <= k < buffer.Length && (k < at || k >= at + room) ==> buffer[k] == old(buffer[k])
  {
    next, pos, left := from, at, room;
    var bits, i := header as int, 0;
    ghost var part: seq<Byte> := [];
    ghost var whole := Spread(header, 0, src[from..]);
    hide Spread, BehindUnit;
    BehindNothing(whole);
    while i < 8
      invariant 0 <= i <= 8 && from <= next <= src.Length && bits >= 0 && |part| == i
      invariant whole == BehindUnit(part, Spread(bits, i, src[next..]))
      invariant pos + left == at + room && at <= pos
      invariant left == if room >= i then room - i else if room >= 0 then 0 else room
      invariant room >= i ==> forall k :: at <= k < at + i ==> buffer[k] == part[k - at]
      invariant forall k :: 0 <= k < buffer.Length && (k < at || k >= at + room) ==> buffer[k] == old(buffer[k])
    {
      var got, b, after := TakeByte(src, bits, i, next, part);
      if !got { return false, next, pos, left; }
      next := after;
      pos, left := PutByte(buffer, pos, left, b);
      bits := bits / 2;
      i := i + 1;
      part := part + [b];
    }
    SpreadDone(bits, src[next..], part);
    assert room >= 8 ==> buffer[at..at + 8] == part;
    ok := true;
  }

  /** The next byte of a unit: from the input when its bit is set, else zero. */
  method TakeByte(src: array<Byte>, bits: nat, i: nat, from: nat, ghost part: seq<Byte>) returns (got: bool, b: Byte, next: nat)
    requires i < 8 && from <= src.Length
    ensures got ==> from <= next <= src.Length
    ensures BehindUnit(part, Spread(bits, i, src[from..])) ==
      if got then BehindUnit(part + [b], Spread(bits / 2, i + 1, src[next..])) else None
  {
    hide Spread, BehindUnit;
    SpreadOne(bits, i, src[from..], part);
    b, next := 0, from;
    if bits % 2 == 1 {
      if next >= src.Length { return false, b, next; }
      b := src[next];
      assert src[next..][1..] == src[next + 1..];
      next := next + 1;
    }
    got := true;
  }

  /** Stores a byte while there is room. */
  method PutByte(buffer: array<Byte>, pos: nat, left: int, b: Byte) returns (newPos: nat, newLeft: int)
    requires pos + left <= buffer.Length
    modifies buffer
    ensures newPos + newLeft == pos + left && newPos == if left > 0 then pos + 1 else pos
    ensures forall k :: 0 <= k < buffer.Length ==> buffer[k] == if left > 0 && k == pos then b else old(buffer[k])
  {
    newPos, newLeft := pos, left;
    if left > 0 {
      buffer[pos] := b;
      newPos, newLeft := pos + 1, left - 1;
    }
  }

  lemma BehindNothing(rest: Option<(seq<Byte>, seq<Byte>)>)
    ensures BehindUnit([], rest) == rest
  {
    if rest.Some? { assert [] + rest.value.0 == rest.value.0; }
  }

  lemma SpreadDone(bits: nat, src: seq<Byte>, part: seq<Byte>)
    ensures BehindUnit(part, Spread(bits, 8, src)) == Some((part, src))
  {
    assert part + [] == part;
  }

  lemma SpreadOne(bits: nat, i: nat, src: seq<Byte>, part: seq<Byte>)
    requires i < 8
    ensures BehindUnit(part, Spread(bits, i, src)) ==
      if bits % 2 == 0 then BehindUnit(part + [0], Spread(bits / 2, i + 1, src))
      else if |src| == 0 then None
      else BehindUnit(part + [src[0]], Spread(bits / 2, i + 1, src[1..]))
  {
    var tail := Spread(bits / 2, i + 1, if bits % 2 == 0 || |src| == 0 then src else src[1..]);
    var b := if bits % 2 == 0 || |src| == 0 then 0 else src[0];
    if tail.Some? { assert part + ([b] + tail.value.0) == (part + [b]) + tail.value.0; }
  }

  /** Unpack's first step, when a prefix has already been unpacked. */
  lemma UnpackOne(src: seq<Byte>, done: seq<Byte>)
    requires |src| > 0
    ensures
      if src[0] == 0xff then
        if |src| < 2 || |src| < 2 + RunBytes(src[1]) then Unpack(src).None?
        else Behind(done, Unpack(src)) == Behind(done + src[2..2 + RunBytes(src[1])], Unpack(src[2 + RunBytes(src[1])..]))
      else
        var r := Spread(src[0], 0, src[1..]);
        if r.None? then Unpack(src).None?
        else |r.value.0| == 8 && Behind(done, Unpack(src)) == Behind(done + r.value.0, Unpack(r.value.1))
  {
    if src[0] == 0xff {
      UnpackRun(src);
      if |src| >= 2 && |src| >= 2 + RunBytes(src[1]) {
        hide Unpack;
        var n := RunBytes(src[1]);
        BehindTwice(done, src[2..2 + n], Unpack(src[2 + n..]));
      }
    } else {
      UnpackLone(src);
      hide Unpack, Spread;
      var r := Spread(src[0], 0, src[1..]);
      if r.Some? {
        BehindTwice(done, r.value.0, Unpack(r.value.1));
      }
    }
  }

  lemma BehindTwice(a: seq<Byte>, b: seq<Byte>, r: Option<seq<Byte>>)
    ensures Behind(a, Behind(b, r)) == Behind(a + b, r)
  {
    if r.Some? { Regroup(a, b, r.value); }
  }

  lemma UnpackRun(src: seq<Byte>)
    requires |src| > 0 && src[0] == 0xff
    ensures
      if |src| < 2 || |src| < 2 + RunBytes(src[1]) then Unpack(src) == None
      else Unpack(src) == Behind(src[2..2 + RunBytes(src[1])], Unpack(src[2 + RunBytes(src[1])..]))
  {
  }

  lemma UnpackLone(src: seq<Byte>)
    requires |src| > 0 && src[0] != 0xff
    ensures var r := Spread(src[0], 0, src[1..]);
      if r.None? then Unpack(src) == None
      else |r.value.0| == 8 && Unpack(src) == Behind(r.value.0, Unpack(r.value.1))
  {
    hide Spread;
    SpreadShrinks(src[0], 0, src[1..]);
  }

  /** sproto_unpack: -1 for a stream that ends too early, else the size of the output, which is in the buffer when it fits. */
  method SprotoUnpack(src: array<Byte>, buffer: array<Byte>, bufsz: nat) returns (size: int)
    requires src != buffer && bufsz <= buffer.Length
    modifies buffer
    ensures Unpack(src[..]).None? ==> size == -1
    ensures Unpack(src[..]).Some? ==> size == |Unpack(src[..]).value|
    ensures Unpack(src[..]).Some? && size <= bufsz ==> buffer[..size] == Unpack(src[..]).value
    ensures forall k :: bufsz <= k < buffer.Length ==> buffer[k] == old(buffer[k])
  {
    var p, pos, room := 0, 0, bufsz as int;
    ghost var done: seq<Byte> := [];
    size := 0;
    hide Unpack, Spread;
    assert src[0..] == src[..];
    BehindEmpty(Unpack(src[..]));
    while p < src.Length
      invariant 0 <= p <= src.Length && size == |done| && pos + room == bufsz && pos >= 0
      invariant Unpack(src[..]) == Behind(done, Unpack(src[p..]))
      invariant size <= bufsz ==> room == bufsz - size && buffer[..size] == done
      invariant size > bufsz ==> room < 8
      invariant forall k :: bufsz <= k < buffer.Length ==> buffer[k] == old(buffer[k])
      decreases src.Length - p
    {
      var header := src[p];
      UnpackOne(src[p..], done);
      assert src[p..][1..] == src[p + 1..];
      p := p + 1;
      if header == 0xff {
        if p >= src.Length { return -1; }
        var n := RunBytes(src[p]);
        if src.Length - p < n + 1 { return -1; }
        assert src[p - 1..][2..2 + n] == src[p + 1..p + 1 + n] && src[p - 1..][2 + n..] == src[p + 1 + n..];
        p := p + 1;
        if room >= n {
          CopyRun(src, p, buffer, pos, n);
        }
        room := room - n;
        pos := pos + n;
        done := done + src[p..p + n];
        p := p + n;
        size := size + n;
      } else {
        var ok, next, newPos, left := UnpackUnit(src, header, p, buffer, pos, room);
        if !ok { return -1; }
        done := done + Spread(header, 0, src[p..]).value.0;
        p, pos, room := next, newPos, left;
        size := size + 8;
      }
    }
    UnpackNothing(done);
    assert src[p..] == [];
  }

  lemma BehindEmpty(rest: Option<seq<Byte>>)
    ensures Behind([], rest) == rest
  {
    if rest.Some? { assert [] + rest.value == rest.value; }
  }

  lemma UnpackNothing(done: seq<Byte>)
    ensures Behind(done, Unpack([])) == Some(done)
  {
    assert done + [] == done;
  }

  method CopyRun(src: array<Byte>, from: nat, buffer: array<Byte>, to: nat, n: nat)
    requires src != buffer && from + n <= src.Length && to + n <= buffer.Length
    modifies buffer
    ensures buffer[to..to + n] == src[from..from + n]
    ensures forall k :: 0 <= k < buffer.Length && (k < to || k >= to + n) ==> buffer[k] == old(buffer[k])
  {
    var i := 0;
    while i < n
      invariant 0 <= i <= n
      invariant forall k :: to <= k < to + i ==> buffer[k] == src[from + (k - to)]
      invariant forall k :: 0 <= k < buffer.Length && (k < to || k >= to + n) ==> buffer[k] == old(buffer[k])
    {
      buffer[to + i] := src[from + i];
      i := i + 1;
    }
  }
}
