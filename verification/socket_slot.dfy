/** What every operation of the socket thread keeps about one slot. */
module SocketSlot {
  import opened Common
  import opened Wire
  import opened SocketSpec

  predicate Live(s: Sock) { s.typ != Invalid && s.typ != Reserved }

  function Direct(s: Sock): seq<Buffer> { if s.dw.None? then [] else [s.dw.value] }

  /** Everything waiting on the socket, in the order it will be written. */
  function Line(s: Sock): seq<Buffer> { Direct(s) + s.high + s.low }

  predicate Fits(line: seq<Buffer>) {
    forall k :: 0 <= k < |line| ==> line[k].sent == 0 || line[k].sent < |line[k].m.data|
  }

  /**
   Between two operations: an unused slot has nothing queued; a used one has a well-formed
   stream, its line fits that stream, the low list is untouched, and wb_size is what the lists still owe.
   */
  predicate Sound(s: Sock) {
    if Live(s) then
      Aligned(s.fd, Line(s)) && Fits(Line(s)) && Unsent(s.low) && s.wb == Left(s.high) + Left(s.low)
    else Empty(s) && s.dw.None?
  }

  function Named(line: seq<Buffer>): seq<Message> {
    if |line| == 0 then [] else [line[0].m] + Named(line[1..])
  }

  /** `after` is `before` with its first messages gone and perhaps more of the next one sent. */
  predicate Drained(before: seq<Buffer>, after: seq<Buffer>) {
    var k := |before| - |after|;
    k >= 0 && (|after| > 0 ==> after[0].m == before[k].m && after[1..] == before[k + 1..])
  }

  /** The messages of `before` that are gone from `after`. */
  function Finished(before: seq<Buffer>, after: seq<Buffer>): seq<Message> {
    if |after| <= |before| then Named(before[..|before| - |after|]) else []
  }

  /** A write by the head of the line keeps stream and line together. */
  lemma WriteKeeps(fd: seq<Chunk>, line: seq<Buffer>, n: nat)
    requires |line| > 0 && Aligned(fd, line) && Fits(line) && n <= Remaining(line[0])
    ensures var b := line[0]; var fd' := fd + Written(b, n);
      if n == Remaining(b)
      then Aligned(fd', line[1..]) && Whole(fd') == Whole(fd) + [b.m]
      else Aligned(fd', [Buffer(b.m, b.sent + n)] + line[1..]) && Whole(fd') == Whole(fd)
  {
    var b := line[0];
    var c := Chunk(b.m, b.sent, b.sent + n);
    ParseAppend(fd, c);
    if Written(b, n) == [] {
      assert fd + Written(b, n) == fd;
      assert [Buffer(b.m, b.sent)] + line[1..] == line;
    } else {
      assert Parse(fd + [c]) == Some(Reached(Parse(fd).value.whole, b.m, c.to));
      assert ([Buffer(b.m, b.sent + n)] + line[1..])[1..] == line[1..];
    }
  }

  ghost predicate Keeps(fd: seq<Chunk>, list: seq<Buffer>, wb: int, rest: seq<Buffer>, r: Sent) {
    Aligned(r.fd, r.list + rest) && Fits(r.list + rest) && Drained(list, r.list)
    && Whole(r.fd) == Whole(fd) + Finished(list, r.list)
    && Left(r.list) - r.wb == Left(list) - wb
  }

  /** send_list_tcp finishes messages from the head of the list on, in order, whatever the kernel answers. */
  lemma {:induction false} SendListKeeps(fd: seq<Chunk>, list: seq<Buffer>, rest: seq<Buffer>, wb: int, ws: seq<WriteResult>)
    requires Aligned(fd, list + rest) && Fits(list + rest)
    ensures Keeps(fd, list, wb, rest, SendList(fd, list, wb, ws))
    decreases |ws|
  {
    hide Aligned, Fits, Whole, Left, Written, Remaining;
    if |list| == 0 || |ws| == 0 || ws[0].WouldBlock? || ws[0].Broken? {
      assert list[..0] == [];
    } else if ws[0].Interrupted? {
      SendListKeeps(fd, list, rest, wb, ws[1..]);
    } else {
      var b, n := list[0], Min(ws[0].n, Remaining(list[0]));
      if n == Remaining(b) {
        HeadFinished(fd, list, rest);
        SendListKeeps(fd + Written(b, n), list[1..], rest, wb - n, ws[1..]);
        FinishedOneMore(list, SendList(fd + Written(b, n), list[1..], wb - n, ws[1..]).list);
      } else {
        HeadPartly(fd, list, rest, wb, n);
      }
    }
  }

  lemma HeadFinished(fd: seq<Chunk>, list: seq<Buffer>, rest: seq<Buffer>)
    requires |list| > 0 && Aligned(fd, list + rest) && Fits(list + rest)
    ensures var fd' := fd + Written(list[0], Remaining(list[0]));
      Aligned(fd', list[1..] + rest) && Fits(list[1..] + rest) && Left(list[1..]) == Left(list) - Remaining(list[0])
      && Whole(fd') == Whole(fd) + [list[0].m]
  {
    hide Aligned, Whole, Written, Fits, Left, Remaining;
    var line := list + rest;
    assert line[0] == list[0] && line[1..] == list[1..] + rest;
    WriteKeeps(fd, line, Remaining(list[0]));
    FitsTail(line, Remaining(list[0]));
    LeftTail(list);
  }

  lemma LeftTail(list: seq<Buffer>)
    requires |list| > 0 && list[0].sent <= |list[0].m.data|
    ensures Left(list[1..]) == Left(list) - Remaining(list[0])
  {
  }

  lemma HeadPartly(fd: seq<Chunk>, list: seq<Buffer>, rest: seq<Buffer>, wb: int, n: nat)
    requires |list| > 0 && Aligned(fd, list + rest) && Fits(list + rest) && n < Remaining(list[0])
    ensures
      var b := list[0];
      Keeps(fd, list, wb, rest, Sent(fd + Written(b, n), [Buffer(b.m, b.sent + n)] + list[1..], wb - n, [], true))
  {
    hide Aligned, Whole, Written, Fits, Named;
    var b := list[0];
    var line, next := list + rest, [Buffer(b.m, b.sent + n)] + list[1..];
    assert line[0] == b && line[1..] == list[1..] + rest;
    WriteKeeps(fd, line, n);
    FitsTail(line, n);
    assert next + rest == [Buffer(b.m, b.sent + n)] + line[1..];
    assert next[1..] == list[1..];
    NamedNone(list);
  }

  lemma NamedNone(list: seq<Buffer>)
    ensures Named(list[..0]) == []
  {
  }

  lemma FitsTail(line: seq<Buffer>, n: nat)
    requires |line| > 0 && Fits(line)
    ensures Fits(line[1..]) && line[0].sent <= |line[0].m.data|
    ensures n < Remaining(line[0]) ==> Fits([Buffer(line[0].m, line[0].sent + n)] + line[1..])
  {
  }

  lemma FinishedOneMore(list: seq<Buffer>, after: seq<Buffer>)
    requires |list| > 0 && Drained(list[1..], after)
    ensures Drained(list, after) && Finished(list, after) == [list[0].m] + Finished(list[1..], after)
  {
    var k := |list| - |after|;
    assert list[..k][1..] == list[1..][..k - 1];
  }

  /** A list on which a write failed has lost only messages that went out whole. */
  lemma {:induction false} FailedUntouched(fd: seq<Chunk>, list: seq<Buffer>, wb: int, ws: seq<WriteResult>)
    requires Unsent(list)
    ensures !SendList(fd, list, wb, ws).ok ==> Unsent(SendList(fd, list, wb, ws).list)
    decreases |ws|
  {
    if |list| > 0 && |ws| > 0 {
      if ws[0].Interrupted? {
        FailedUntouched(fd, list, wb, ws[1..]);
      } else if ws[0].Accepted? {
        var n := Min(ws[0].n, Remaining(list[0]));
        FailedUntouched(fd + Written(list[0], n), list[1..], wb - n, ws[1..]);
      }
    }
  }

  lemma NamedAppend(a: seq<Buffer>, b: seq<Buffer>)
    ensures Named(a + b) == Named(a) + Named(b)
  {
    if |a| > 0 {
      assert (a + b)[1..] == a[1..] + b;
      NamedAppend(a[1..], b);
    } else {
      assert a + b == b;
    }
  }

  lemma FinishedRest(before: seq<Buffer>, after: seq<Buffer>)
    requires Drained(before, after)
    ensures Finished(before, after) + Named(after) == Named(before)
  {
    var k := |before| - |after|;
    assert before == before[..k] + before[k..];
    NamedAppend(before[..k], before[k..]);
    assert after != [] ==> before[k..][1..] == after[1..];
  }

  /**
   Nothing is lost, repeated or overtaken: what is whole on the stream, followed by what still
   waits, is what it was; when the slot was given up, the stream went on by a part of what waited.
   */
  predicate InOrder(s: Sock, after: Sock) {
    Whole(s.fd) <= Whole(after.fd)
    && if Live(after) then Whole(after.fd) + Named(Line(after)) == Whole(s.fd) + Named(Line(s))
       else Whole(after.fd) <= Whole(s.fd) + Named(Line(s))
  }

  lemma TakeDirectKeeps(s: Sock)
    requires Sound(s) && Live(s)
    ensures var t := TakeDirect(s);
      Sound(t) && Line(t) == Line(s) && t.dw.None? && t.high + t.low == Line(s) && t.fd == s.fd && t.typ == s.typ
      && t.closing == s.closing
  {
    var t := TakeDirect(s);
    assert t.high + t.low == Line(s);
    assert Line(t) == t.high + t.low;
    if s.dw.Some? {
      assert t.high[1..] == s.high;
      assert Line(s)[0] == s.dw.value;
    }
  }

  /** The first pass of send_buffer_: the high list. */
  lemma FirstPass(s: Sock, ws: seq<WriteResult>)
    requires Sound(s) && Live(s) && s.dw.None?
    ensures var r := SendList(s.fd, s.high, s.wb, ws); var s1 := s.(fd := r.fd, high := r.list, wb := r.wb);
      Sound(s1) && InOrder(s, s1)
  {
    hide SendList, Aligned, Finished, Drained, Fits, Whole, Left, Named, InOrder;
    assert Line(s) == s.high + s.low;
    SendListKeeps(s.fd, s.high, s.low, s.wb, ws);
    var r := SendList(s.fd, s.high, s.wb, ws);
    assert Line(s.(fd := r.fd, high := r.list, wb := r.wb)) == r.list + s.low;
    FirstOrder(s, r);
  }

  lemma FirstOrder(s: Sock, r: Sent)
    requires Live(s) && s.dw.None? && Drained(s.high, r.list) && Whole(r.fd) == Whole(s.fd) + Finished(s.high, r.list)
    ensures InOrder(s, s.(fd := r.fd, high := r.list, wb := r.wb))
  {
    hide Whole, Finished, Drained;
    assert Line(s) == s.high + s.low;
    assert Line(s.(fd := r.fd, high := r.list, wb := r.wb)) == r.list + s.low;
    FinishedRest(s.high, r.list);
    NamedAppend(s.high, s.low);
    NamedAppend(r.list, s.low);
  }

  /** The second pass: the low list; a half-sent head moves to the high list, which is empty. */
  lemma SecondPass(s: Sock, ws: seq<WriteResult>)
    requires Sound(s) && Live(s) && s.dw.None? && s.high == []
    ensures var r := SendList(s.fd, s.low, s.wb, ws); var s2 := s.(fd := r.fd, low := r.list, wb := r.wb);
      InOrder(s, s2)
      && (if r.ok && Uncomplete(r.list) then Sound(RaiseUncomplete(s2)) && Line(RaiseUncomplete(s2)) == Line(s2) else Sound(s2))
      && (r.list == [] ==> s2.wb == 0)
  {
    hide SendList, Aligned, Fits, Unsent, Whole, Finished, Drained;
    assert Line(s) == s.low && s.low + [] == s.low;
    SendListKeeps(s.fd, s.low, [], s.wb, ws);
    FailedUntouched(s.fd, s.low, s.wb, ws);
    var r := SendList(s.fd, s.low, s.wb, ws);
    var s2 := s.(fd := r.fd, low := r.list, wb := r.wb);
    assert r.list + [] == r.list;
    assert Line(s2) == r.list;
    FinishedRest(s.low, r.list);
    LowLeft(s2, r.ok);
  }

  lemma LowLeft(s: Sock, ok: bool)
    requires Live(s) && s.dw.None? && s.high == [] && Aligned(s.fd, s.low) && Fits(s.low) && s.wb == Left(s.low)
    requires !ok ==> Unsent(s.low)
    ensures if ok && Uncomplete(s.low) then Sound(RaiseUncomplete(s)) && Line(RaiseUncomplete(s)) == Line(s) else Sound(s)
  {
    assert Line(s) == s.low;
    if ok && Uncomplete(s.low) {
      hide Parse, Whole;
      var t := RaiseUncomplete(s);
      assert t.high == [s.low[0]] && t.low == s.low[1..];
      assert Line(t) == s.low;
      assert t.high[1..] == [];
      assert Left(t.high) == |s.low[0].m.data| - s.low[0].sent;
    }
  }

  /** What follows the passes: the slot stays sound, and unless it is given up its line and stream stay. */
  lemma Concluded(s: Sock)
    requires Live(s)
    ensures Sound(Invalidate(FreeLists(s)))
    ensures Sound(s) ==> Sound(s.(writing := false)) && Sound(CloseWrite(s).0)
    ensures CloseWrite(s).0.fd == s.fd && (Live(CloseWrite(s).0) ==> Line(CloseWrite(s).0) == Line(s))
    ensures Line(s.(writing := false)) == Line(s)
  {
  }

  /** A later state with the same line and stream, or one that gave the slot up, is in order too. */
  lemma OrderOn(s: Sock, t: Sock, after: Sock)
    requires InOrder(s, t) && Live(t) && after.fd == t.fd && (Live(after) ==> Line(after) == Line(t))
    ensures InOrder(s, after)
  {
  }

  /** send_buffer keeps the slot sound and sends the line in its order, whatever the kernel answers. */
  lemma SendBufferKeeps(s: Sock, ws: seq<WriteResult>)
    requires Sound(s) && Live(s)
    ensures Sound(SendBuffer(s, ws).0) && InOrder(s, SendBuffer(s, ws).0)
  {
    hide SendList, Sound, CloseWrite, InOrder, Line;
    var t := TakeDirect(s);
    TakeDirectKeeps(s);
    FirstPass(t, ws);
    var first := SendList(t.fd, t.high, t.wb, ws);
    var s1 := t.(fd := first.fd, high := first.list, wb := first.wb);
    Concluded(s1);
    TakenInOrder(s, t, s1);
    if !first.ok || first.list != [] {
      OrderOn(s, s1, SendBuffer(s, ws).0);
    } else {
      SecondPass(s1, first.rest);
      var second := SendList(s1.fd, s1.low, s1.wb, first.rest);
      var s2 := s1.(fd := second.fd, low := second.list, wb := second.wb);
      Concluded(s2);
      OrderThen(s, s1, s2);
      OrderOn(s, s2, SendBuffer(s, ws).0);
    }
  }

  lemma TakenInOrder(s: Sock, t: Sock, after: Sock)
    requires Line(t) == Line(s) && t.fd == s.fd && InOrder(t, after)
    ensures InOrder(s, after)
  {
  }

  lemma OrderThen(s: Sock, t: Sock, after: Sock)
    requires InOrder(s, t) && InOrder(t, after) && Live(t) && Live(after)
    ensures InOrder(s, after)
  {
  }

  /** A closing socket that has sent everything is given up with nothing lost: every waiting message is on the stream. */
  lemma ClosingFinishes(s: Sock, ws: seq<WriteResult>)
    requires Sound(s) && Live(s) && SendBuffer(s, ws).0.typ == Invalid
    ensures Whole(SendBuffer(s, ws).0.fd) == Whole(s.fd) + Named(Line(s)) || Broken in ws
  {
    hide SendList, Sound, CloseWrite;
    var t := TakeDirect(s);
    TakeDirectKeeps(s);
    FirstPass(t, ws);
    var first := SendList(t.fd, t.high, t.wb, ws);
    BrokenOnly(t.fd, t.high, t.wb, ws);
    if first.ok && first.list == [] {
      var s1 := t.(fd := first.fd, high := first.list, wb := first.wb);
      SecondPass(s1, first.rest);
      BrokenOnly(s1.fd, s1.low, s1.wb, first.rest);
    }
  }

  /** A list is given up only when a write broke. */
  lemma {:induction false} BrokenOnly(fd: seq<Chunk>, list: seq<Buffer>, wb: int, ws: seq<WriteResult>)
    ensures !SendList(fd, list, wb, ws).ok ==> Broken in ws
    ensures forall w :: w in SendList(fd, list, wb, ws).rest ==> w in ws
    decreases |ws|
  {
    if |list| > 0 && |ws| > 0 {
      if ws[0].Interrupted? {
        BrokenOnly(fd, list, wb, ws[1..]);
      } else if ws[0].Accepted? {
        var n := Min(ws[0].n, Remaining(list[0]));
        BrokenOnly(fd + Written(list[0], n), list[1..], wb - n, ws[1..]);
      }
    }
  }
}
