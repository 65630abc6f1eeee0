/** struct socket and the functions that update it (fengnet-src/socket_server.cpp), with the source's asserts. */
module SocketServer {
  import opened Common
  import opened Wire
  import opened SocketSpec
  import opened SocketSlot
  import opened SocketSafety
  import opened SocketLosses

  /** The answers of write come from the caller, in the order of the calls; `fd` records what was accepted. */
  class Slot {
    var id: nat
    var typ: Type
    var tcp: bool
    var closing: bool
    var writing: bool
    var high: seq<Buffer>
    var low: seq<Buffer>
    var wb: int
    var dw: Option<Buffer>
    var tag: nat
    var count: nat
    ghost var fd: seq<Chunk>

    ghost function Value(): Sock
      reads this
    {
      Sock(id, typ, tcp, closing, writing, high, low, wb, dw, tag, count, fd)
    }

    /** force_close once it has the lock, with the lists it frees before. */
    method ForceClose()
      modifies this
      ensures Value() == old(if typ == Invalid then Value() else Invalidate(FreeLists(Value())))
      ensures old(Sound(Value())) ==> Sound(Value()) && Line(Value()) == [] && fd == old(fd) && id == old(id)
    {
      if typ == Invalid { return; }
      high, low := [], [];
      typ := Invalid;
      dw := None;
    }

    method CloseWriteSide() returns (raised: Raised)
      modifies this
      requires Live(Value())
      ensures (Value(), raised) == old(CloseWrite(Value()))
      ensures old(Sound(Value())) ==> Sound(Value())
      ensures fd == old(fd) && (typ != Invalid ==> Line(Value()) == old(Line(Value())))
      ensures raised != Close && (typ == Invalid <==> old(closing || typ == HalfcloseRead))
    {
      if Sound(Value()) {
        Concluded(Value());
      }
      if closing {
        ForceClose();
        return Nothing;
      }
      if typ == HalfcloseRead {
        ForceClose();
        return Nothing;
      }
      if typ == HalfcloseWrite { return Nothing; }
      typ := HalfcloseWrite;
      writing := false;
      return Error;
    }

    /** send_list_tcp on the high or the low list. */
    method SendListTcp(useLow: bool, ws: seq<WriteResult>) returns (rest: seq<WriteResult>, ok: bool, raised: Raised)
      modifies this
      requires Live(Value())
      ensures var s := old(Value());
        var r := SendList(s.fd, if useLow then s.low else s.high, s.wb, ws);
        var s1 := s.(fd := r.fd, high := if useLow then s.high else r.list, low := if useLow then r.list else s.low, wb := r.wb);
        rest == r.rest && ok == r.ok && (Value(), raised) == if ok then (s1, Nothing) else CloseWrite(s1)
    {
      hide CloseWrite, Remaining, Written, Min, SendList, Sound, Line;
      rest, ok, raised := ws, true, Nothing;
      var list := if useLow then low else high;
      ghost var r := SendList(fd, list, wb, ws);
      while |list| > 0 && |rest| > 0
        invariant ok && raised == Nothing && SendList(fd, list, wb, rest) == r
        invariant Value() == old(Value()).(fd := fd, wb := wb,
          high := if useLow then old(high) else list, low := if useLow then list else old(low))
        decreases |rest|
      {
        SendListTurn(fd, list, wb, rest);
        var head, result := list[0], rest[0];
        rest := rest[1..];
        match result
        case Interrupted =>
        case WouldBlock => return;
        case Broken =>
          ok := false;
          raised := CloseWriteSide();
          return;
        case Accepted(offered) =>
          var n := Min(offered, Remaining(head));
          fd := fd + Written(head, n);
          wb := wb - n;
          list := if n == Remaining(head) then list[1..] else [Buffer(head.m, head.sent + n)] + list[1..];
          PutList(useLow, list);
          if n != Remaining(head) { return; }
      }
      SendListEnd(fd, list, wb, rest);
    }

    method PutList(useLow: bool, list: seq<Buffer>)
      modifies this
      ensures Value() == if useLow then old(Value()).(low := list) else old(Value()).(high := list)
    {
      if useLow { low := list; } else { high := list; }
    }

    method MoveUncomplete()
      modifies this
      requires |low| > 0 && high == []
      ensures Value() == RaiseUncomplete(old(Value()))
      ensures Line(Value()) == old(Line(Value())) && (old(Unsent(low[1..])) ==> Unsent(low))
    {
      var head := low[0];
      low := low[1..];
      assert high == [];  // assert(high->head == NULL)
      high := [head];
    }

    /** send_buffer_, with its asserts. */
    method SendBothLists(ws: seq<WriteResult>) returns (raised: Raised)
      modifies this
      requires Live(Value()) && Sound(Value()) && dw.None?
      ensures (Value(), raised) == old(SendLists(Value(), ws))
    {
      hide SendList, Aligned, Fits, Left, Named, InOrder;
      ghost var s := Value();
      FirstPass(s, ws);
      assert !Uncomplete(low);  // assert(!list_uncomplete(&s->low))
      var rest, ok;
      rest, ok, raised := SendListTcp(false, ws);
      if !ok { return; }
      if high == [] {
        SecondPass(Value(), rest);
        if low != [] {
          rest, ok, raised := SendListTcp(true, rest);
          if !ok { return; }
          if Uncomplete(low) {
            MoveUncomplete();
            return;
          }
          if low != [] { return; }
        } else {
          SendNothing(fd, wb, rest);
        }
        assert high == [] && low == [] && wb == 0;  // assert(send_buffer_empty(s) && s->wb_size == 0)
        if closing {
          ForceClose();
          return;
        }
        writing := false;
      }
    }

    /** send_buffer, under the lock: the slot stays sound and its messages stay in order. */
    method SendBufferLocked(ws: seq<WriteResult>) returns (raised: Raised)
      modifies this
      requires Live(Value()) && Sound(Value())
      ensures (Value(), raised) == old(SendBuffer(Value(), ws))
      ensures Sound(Value()) && InOrder(old(Value()), Value())
    {
      hide SendLists, Sound, InOrder;
      SendBufferKeeps(Value(), ws);
      TakeDirectKeeps(Value());
      if dw.Some? {
        var b := dw.value;
        wb := wb + Remaining(b);
        high := [b] + high;
        dw := None;
      }
      raised := SendBothLists(ws);
    }

    /**
     send_socket: a message that is kept waits behind all that waited, except that a high one goes
     before the low list; when both lists were empty its priority does not matter.
     */
    method TakeMessage(from: nat, m: Message, lowPriority: bool) returns (kept: bool)
      modifies this
      ensures (Value(), kept) == old(SendSocket(Value(), from, m, lowPriority))
      ensures kept <==> !old(Refuses(Value(), from))
      ensures old(Sound(Value()) && !(typ == Reserved && id == from)) ==> Sound(Value())
      ensures kept && lowPriority ==> Named(Line(Value())) == old(Named(Line(Value()))) + [m]
      ensures kept && !lowPriority ==>
        Named(Line(Value())) == old(Named(Direct(Value()) + high)) + [m] + old(Named(low))
      ensures !kept ==> Value() == old(Value())
    {
      hide Sound, Line, Named, Direct;
      TakenWaits(Value(), from, m, lowPriority);
      KeptExactly(Value(), from, m, lowPriority);
      if typ == Invalid || id != from || typ == HalfcloseWrite || typ == PAccept || closing { return false; }
      if typ == PListen || typ == Listening { return false; }
      if high == [] && low == [] {
        assert high + [Buffer(m, 0)] == [Buffer(m, 0)];
        high := high + [Buffer(m, 0)];
        wb := wb + |m.data|;
        writing := true;
      } else {
        if lowPriority { low := low + [Buffer(m, 0)]; } else { high := high + [Buffer(m, 0)]; }
        wb := wb + |m.data|;
      }
      return true;
    }

    /** The locked section of socket_server_send, for a slot nothing waits on: what is left goes to the direct write buffer. */
    method SendDirectly(m: Message, answer: WriteResult) returns (done: bool)
      modifies this
      requires Live(Value()) && Sound(Value()) && Empty(Value()) && dw.None?
      ensures Sound(Value()) && Whole(fd) + Named(Line(Value())) == old(Whole(fd)) + [m]
      ensures done <==> Line(Value()) == []
    {
      var n := if answer.Accepted? then Min(answer.n, |m.data|) else 0;
      ghost var s := Value();
      DirectInOrder(s, m, n);
      fd := fd + Written(Buffer(m, 0), n);
      if n == |m.data| { return true; }
      dw := Some(Buffer(m, n));
      return false;
    }

    /** close_socket; `force` asks for force_close, which waits for the lock. */
    method CloseRequest(shutdown: bool) returns (force: bool, raised: Raised)
      modifies this
      ensures (Value(), force, raised) == old(CloseSocket(Value(), shutdown))
      ensures old(Sound(Value())) && Live(old(Value())) ==> Sound(Value())
      ensures Line(Value()) == old(Line(Value())) && fd == old(fd)
      ensures raised != Error && (raised == Close <==> old(typ) != HalfcloseRead)
      ensures !force ==> closing && typ == HalfcloseRead
      ensures force && !shutdown && typ != HalfcloseWrite ==> Line(Value()) == [] && count == 0
    {
      var shutdownRead := typ == HalfcloseRead;
      if shutdown || (high == [] && low == [] && dw.None? && count == 0) || typ == HalfcloseWrite {
        return true, if shutdownRead then Nothing else Close;
      }
      closing := true;
      if !shutdownRead {
        typ := HalfcloseRead;
        return false, Close;
      }
      return false, Nothing;
    }

    /** forward_message_tcp when the remote side has ended its stream. */
    method RemoteEnd() returns (force: bool, raised: Raised)
      modifies this
      ensures (Value(), force, raised) == old(ReadEnd(Value()))
      ensures old(Sound(Value())) && Live(old(Value())) ==> Sound(Value())
      ensures Line(Value()) == old(Line(Value())) && fd == old(fd)
      ensures raised != Error && (raised == Close <==> old(!closing && typ != HalfcloseRead))
      ensures !force ==> closing || typ == HalfcloseRead
      ensures force && typ != HalfcloseWrite ==> Line(Value()) == [] && count == 0
    {
      if closing {
        return (high == [] && low == [] && dw.None? && count == 0) || typ == HalfcloseWrite, Nothing;
      }
      if typ == HalfcloseRead { return false, Nothing; }
      if typ == HalfcloseWrite { return true, Close; }
      typ := HalfcloseRead;
      return false, Close;
    }
  }

  /** Where a message joins the line. */
  lemma JoinsBehind(s: Sock, m: Message)
    ensures var b := [Buffer(m, 0)];
      Named(Line(s.(low := s.low + b))) == Named(Line(s)) + [m]
      && Named(Line(s.(high := s.high + b))) == Named(Direct(s) + s.high) + [m] + Named(s.low)
      && (Empty(s) ==> s.high + b == b && Named(Line(s.(high := b))) == Named(Line(s)) + [m])
  {
    var b := [Buffer(m, 0)];
    assert Named(b) == [m] by { assert b[1..] == []; }
    NamedAppend(Line(s), b);
    assert Line(s.(low := s.low + b)) == Line(s) + b;
    NamedAppend(Direct(s) + s.high, b);
    NamedAppend(Direct(s) + s.high + b, s.low);
    assert Line(s.(high := s.high + b)) == Direct(s) + s.high + b + s.low;
    if Empty(s) {
      assert s.high + b == b && Line(s.(high := b)) == Line(s) + b;
    }
  }

  lemma TakenWaits(s: Sock, from: nat, m: Message, low: bool)
    ensures var (t, kept) := SendSocket(s, from, m, low);
      (Sound(s) && !(s.typ == Reserved && s.id == from) ==> Sound(t)) && (!kept ==> t == s)
      && (kept && low ==> Named(Line(t)) == Named(Line(s)) + [m])
      && (kept && !low ==> Named(Line(t)) == Named(Direct(s) + s.high) + [m] + Named(s.low))
  {
    hide Sound, Named, Line;
    if Sound(s) && !(s.typ == Reserved && s.id == from) {
      SendSocketKeeps(s, from, m, low);
    }
    JoinsBehind(s, m);
    var (t, kept) := SendSocket(s, from, m, low);
    if kept {
      SameNames(t, s.(high := t.high, low := t.low));
    }
  }

  lemma SameNames(s: Sock, t: Sock)
    requires t.high == s.high && t.low == s.low && t.dw == s.dw
    ensures Line(s) == Line(t)
  {
  }

  /** One turn of send_list_tcp's loop. */
  lemma SendListTurn(fd: seq<Chunk>, list: seq<Buffer>, wb: int, ws: seq<WriteResult>)
    requires |list| > 0 && |ws| > 0
    ensures SendList(fd, list, wb, ws) ==
      match ws[0]
      case Interrupted => SendList(fd, list, wb, ws[1..])
      case WouldBlock => Sent(fd, list, wb, ws[1..], true)
      case Broken => Sent(fd, list, wb, ws[1..], false)
      case Accepted(offered) =>
        var b := list[0];
        var n := Min(offered, Remaining(b));
        if n == Remaining(b) then SendList(fd + Written(b, n), list[1..], wb - n, ws[1..])
        else Sent(fd + Written(b, n), [Buffer(b.m, b.sent + n)] + list[1..], wb - n, ws[1..], true)
  {
  }

  lemma SendListEnd(fd: seq<Chunk>, list: seq<Buffer>, wb: int, ws: seq<WriteResult>)
    requires |list| == 0 || |ws| == 0
    ensures SendList(fd, list, wb, ws) == Sent(fd, list, wb, ws, true)
  {
  }

  lemma SendNothing(fd: seq<Chunk>, wb: int, ws: seq<WriteResult>)
    ensures SendList(fd, [], wb, ws) == Sent(fd, [], wb, ws, true)
  {
  }

  lemma DirectInOrder(s: Sock, m: Message, n: nat)
    requires Live(s) && Sound(s) && Empty(s) && s.dw.None? && n <= |m.data|
    ensures var fd := s.fd + Written(Buffer(m, 0), n);
      var t := if n == |m.data| then s.(fd := fd) else s.(fd := fd, dw := Some(Buffer(m, n)));
      Sound(t) && Whole(t.fd) + Named(Line(t)) == Whole(s.fd) + [m] && (n == |m.data| <==> Line(t) == [])
  {
    hide Aligned, Fits, Whole, Written, Parse;
    var line := [Buffer(m, 0)];
    assert Line(s) == [] && line[1..] == [] && line[0] == Buffer(m, 0);
    StartLine(s.fd, line);
    WriteKeeps(s.fd, line, n);
    LineOfDirect(s, m, n);
  }

  lemma StartLine(fd: seq<Chunk>, line: seq<Buffer>)
    requires Aligned(fd, []) && |line| == 1 && line[0].sent == 0
    ensures Aligned(fd, line) && Fits(line)
  {
  }

  lemma LineOfDirect(s: Sock, m: Message, n: nat)
    requires Live(s) && Sound(s) && Empty(s) && s.dw.None? && n <= |m.data|
    requires var fd := s.fd + Written(Buffer(m, 0), n);
      if n == |m.data| then Aligned(fd, []) && Whole(fd) == Whole(s.fd) + [m]
      else Aligned(fd, [Buffer(m, n)] + []) && Whole(fd) == Whole(s.fd)
    ensures var fd := s.fd + Written(Buffer(m, 0), n);
      var t := if n == |m.data| then s.(fd := fd) else s.(fd := fd, dw := Some(Buffer(m, n)));
      Sound(t) && Whole(t.fd) + Named(Line(t)) == Whole(s.fd) + [m] && (n == |m.data| <==> Line(t) == [])
  {
    hide Aligned, Whole, Written, Parse;
    var fd := s.fd + Written(Buffer(m, 0), n);
    var t := if n == |m.data| then s.(fd := fd) else s.(fd := fd, dw := Some(Buffer(m, n)));
    var b := [Buffer(m, n)];
    assert b[1..] == [] && b + [] == b;
    assert Line(t) == if n == |m.data| then [] else b;
    assert Named(b) == [m];
  }
}
