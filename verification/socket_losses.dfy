/**
 Why messages are freed unsent: at each step that frees one, what the caller or the socket was
 like; and that nothing else keeps a message from being written.
 */
module SocketLosses {
  import opened Common
  import opened Wire
  import opened SocketSpec
  import opened SocketSlot
  import opened SocketProtocol
  import opened SocketSafety
  import opened SocketAccounting

  // ---------- what send_socket takes ----------

  /** The slot is not in use under this id, will send no more, or is no open stream. */
  predicate Refuses(s: Sock, id: nat) {
    s.id != id || s.closing
    || s.typ == Invalid || s.typ == HalfcloseWrite || s.typ == PAccept || s.typ == PListen || s.typ == Listening
  }

  /** A message from the pipe is kept exactly when the slot does not refuse it, whatever its priority and whatever waits. */
  lemma KeptExactly(s: Sock, id: nat, m: Message, low: bool)
    ensures SendSocket(s, id, m, low).1 <==> !Refuses(s, id)
  {
  }

  // ---------- why a message is freed ----------

  predicate WaitsInList(s: Sock, m: Message) { m in Named(s.high + s.low) }

  /** This step may free m: the reason is in the step and in the slot it meets. */
  predicate MayDrop(n: Net, step: Step, m: Message) {
    var s := n.sock;
    match step
    case Begin(_, id, m') => m' == m && (s.id != id || s.typ == Invalid || s.closing)
    case BeginLow(_, id, m') => m' == m && (s.id != id || s.typ == Invalid)
    case Serve =>
      |n.pipe| > 0 &&
      (match n.pipe[0]
       case Send(id, m', _, _) => m' == m && Refuses(s, id)
       case CloseIt(id, shutdown) => s.id == id && (shutdown || s.typ == HalfcloseWrite) && WaitsInList(s, m)
       case _ => false)
    case ReadZero => s.typ == HalfcloseWrite && WaitsInList(s, m)
    case HangUp => WaitsInList(s, m)
    case ConnectFailed => WaitsInList(s, m)
    case WriteEvent(ws) => Broken in ws && (s.closing || s.typ == HalfcloseRead) && m in Named(Line(s))
    case FinishForce => s.dw.Some? && s.dw.value.m == m
    case _ => false
  }

  lemma StartForceDrops(n: Net, m: Message)
    ensures StartForce(n).dropped[m] > n.dropped[m] ==> WaitsInList(n.sock, m)
  {
    var line := Named(n.sock.high + n.sock.low);
    if multiset(line)[m] > 0 {
      assert m in multiset(line);
    }
  }

  lemma ForcedDrops(n: Net, s: Sock, force: bool, r: Raised, m: Message)
    requires s.high == n.sock.high && s.low == n.sock.low
    ensures Forced(n, s, force, r).dropped[m] > n.dropped[m] ==> force && WaitsInList(n.sock, m)
  {
    hide WaitsInList;
    StartForceDrops(Raise(n.(sock := s), r), m);
    SameLists(n.sock, s, m);
  }

  lemma SameLists(s: Sock, t: Sock, m: Message)
    requires s.high == t.high && s.low == t.low
    ensures WaitsInList(s, m) <==> WaitsInList(t, m)
  {
  }

  lemma NoneInList(s: Sock, m: Message)
    requires Empty(s)
    ensures !WaitsInList(s, m)
  {
    assert s.high + s.low == [];
  }

  lemma ServeDrops(n: Net, m: Message)
    requires |n.pipe| > 0 && ServeOne(n).dropped[m] > n.dropped[m]
    ensures MayDrop(n, Serve, m)
  {
    hide WaitsInList, SendSocket, Forced;
    var n1 := n.(pipe := n.pipe[1..]);
    if n.pipe[0].Send? {
      KeptExactly(n.sock, n.pipe[0].id, n.pipe[0].m, n.pipe[0].low);
    } else if n.pipe[0].CloseIt? && n.sock.typ != Invalid && n.sock.id == n.pipe[0].id {
      var (s, force, r) := CloseSocket(n.sock, n.pipe[0].shutdown);
      ForcedDrops(n1, s, force, r, m);
      if Empty(n.sock) { NoneInList(n.sock, m); }
    }
  }

  lemma ReadDrops(n: Net, m: Message)
    requires var (s, force, r) := ReadEnd(n.sock); Forced(n, s, force, r).dropped[m] > n.dropped[m]
    ensures MayDrop(n, ReadZero, m)
  {
    hide WaitsInList, Forced;
    var (s, force, r) := ReadEnd(n.sock);
    ForcedDrops(n, s, force, r, m);
    if Empty(n.sock) { NoneInList(n.sock, m); }
  }

  lemma DirectDrops(n: Net, m: Message)
    requires multiset(Named(Direct(n.sock)))[m] > 0
    ensures n.sock.dw.Some? && n.sock.dw.value.m == m
  {
    if n.sock.dw.Some? {
      OneName(n.sock.dw.value);
      assert m in multiset([n.sock.dw.value.m]);
    }
  }

  /** A write event gives a slot up only if it is closing or half closed. */
  lemma GivenUpWhen(s: Sock, ws: seq<WriteResult>)
    requires Live(s) && !Live(SendBuffer(s, ws).0)
    ensures s.closing || s.typ == HalfcloseRead
  {
    hide SendBuffer;
    SendBufferType(s, ws);
  }

  lemma WriteDrops(n: Net, ws: seq<WriteResult>, m: Message)
    requires Sound(n.sock) && Live(n.sock) && WriteDone(n, ws).dropped[m] > n.dropped[m]
    ensures MayDrop(n, WriteEvent(ws), m)
  {
    hide Sound, SendBuffer, Whole, Line, Named, Live;
    var s := SendBuffer(n.sock, ws).0;
    WriteShape(n, ws);
    assert !Live(s);
    GivenUpWhen(n.sock, ws);
    SendBufferKeeps(n.sock, ws);
    var before, after, line := Whole(n.sock.fd), Whole(s.fd), Named(Line(n.sock));
    var done := Since(before, after);
    LostLine(before, after, line, m);
    if Broken !in ws {
      GivenUpTyp(n.sock, ws);
      ClosingFinishes(n.sock, ws);
      AllDone(before, line);
    }
  }

  lemma GivenUpTyp(s: Sock, ws: seq<WriteResult>)
    requires Live(s) && !Live(SendBuffer(s, ws).0)
    ensures SendBuffer(s, ws).0.typ == Invalid
  {
    SendBufferType(s, ws);
  }

  lemma LostLine(before: seq<Message>, after: seq<Message>, line: seq<Message>, m: Message)
    requires before <= after <= before + line && multiset(Since(Since(before, after), line))[m] > 0
    ensures m in line
  {
    var rest := Since(Since(before, after), line);
    assert m in multiset(rest);
    var k :| 0 <= k < |rest| && rest[k] == m;
  }

  lemma AllDone(before: seq<Message>, line: seq<Message>)
    ensures Since(before, before + line) == line && Since(line, line) == []
  {
    assert (before + line)[|before|..] == line;
  }

  /** What the sender's steps free. */
  lemma SenderDrops(n: Net, step: Step, m: Message)
    requires SenderStep(step) && Phased(n, step) && SenderNext(n, step).dropped[m] > n.dropped[m]
    ensures MayDrop(n, step, m)
  {
    hide ReadHolds, Written, IncSending, Min;
  }

  /** Every message a step frees is freed for one of these reasons. */
  lemma DropsOnlyWhen(n: Net, step: Step, m: Message)
    requires WriteInv(n) && Enabled(n, step) && Next(n, step).dropped[m] > n.dropped[m]
    ensures MayDrop(n, step, m)
  {
    hide MayDrop, LockHeld, HolderInv, ServeOne, WriteDone, StartForce, Forced, ReadEnd, SenderNext, Sound, Parse;
    if SenderStep(step) {
      SenderDrops(n, step, m);
    } else if step.Serve? {
      ServeDrops(n, m);
    } else if step.ReadZero? {
      ReadDrops(n, m);
    } else if step.WriteEvent? {
      WriteDrops(n, step.ws, m);
    } else {
      EventDrops(n, step, m);
    }
  }

  lemma EventDrops(n: Net, step: Step, m: Message)
    requires Enabled(n, step) && !SenderStep(step) && !step.Serve? && !step.ReadZero? && !step.WriteEvent?
    requires Next(n, step).dropped[m] > n.dropped[m]
    ensures MayDrop(n, step, m)
  {
    hide StartForce, Forced, WaitsInList, Direct, Named;
    if step.HangUp? {
      ForcedDrops(n, n.sock, true, if n.sock.typ == HalfcloseRead then Nothing else Close, m);
    } else if step.ConnectFailed? {
      StartForceDrops(n, m);
    } else if step.FinishForce? {
      DirectDrops(n, m);
    }
  }

  /** Somewhere in the run a step was taken that may free m. */
  ghost predicate SomeReason(n: Net, steps: seq<Step>, m: Message)
    requires Run(n, steps)
    decreases |steps|
  {
    |steps| > 0 && (MayDrop(n, steps[0], m) || SomeReason(Next(n, steps[0]), steps[1..], m))
  }

  lemma {:induction false} DroppedAlways(n: Net, steps: seq<Step>, m: Message)
    requires WriteInv(n) && Run(n, steps) && After(n, steps).dropped[m] > n.dropped[m]
    ensures SomeReason(n, steps, m)
    decreases |steps|
  {
    hide WriteInv, Next, Enabled, MayDrop;
    if |steps| > 0 {
      if Next(n, steps[0]).dropped[m] > n.dropped[m] {
        DropsOnlyWhen(n, steps[0], m);
      } else {
        WriteInvKept(n, steps[0]);
        DroppedAlways(Next(n, steps[0]), steps[1..], m);
      }
    }
  }

  /** A message from the pipe that the slot does not refuse waits on it afterwards, and is not freed. */
  lemma ServedWaits(n: Net)
    requires Enabled(n, Serve) && n.pipe[0].Send?
    ensures var r, after := n.pipe[0], ServeOne(n);
      if Refuses(n.sock, r.id) then after.dropped == n.dropped + multiset{r.m} && Line(after.sock) == Line(n.sock)
      else after.dropped == n.dropped && multiset(Named(Line(after.sock))) == multiset(Named(Line(n.sock))) + multiset{r.m}
  {
    hide SendSocket, DecSending, Line, Named;
    var r := n.pipe[0];
    var s := SendSocket(n.sock, r.id, r.m, r.low).0;
    KeptExactly(n.sock, r.id, r.m, r.low);
    SendSocketNames(n.sock, r.id, r.m, r.low);
    OnlyCount(s, r.id);
    SameNames(s, ServeOne(n).sock);
    if Refuses(n.sock, r.id) {
      RefusedSame(n.sock, r.id, r.m, r.low);
    }
  }

  lemma RefusedSame(s: Sock, id: nat, m: Message, low: bool)
    requires Refuses(s, id)
    ensures SendSocket(s, id, m, low) == (s, false)
  {
  }

  // ---------- when a socket is closing ----------

  /** The step serves a request to close the slot. */
  predicate ServesClose(n: Net, step: Step) {
    step.Serve? && |n.pipe| > 0 && n.pipe[0].CloseIt? && n.sock.typ != Invalid && n.sock.id == n.pipe[0].id
  }

  function AskedNow(n: Net, step: Step, before: bool): bool {
    if step.OpenFd? then false else before || ServesClose(n, step)
  }

  /** In this run a close request was served since the slot was last opened. */
  predicate Asked(n: Net, steps: seq<Step>, before: bool)
    requires Run(n, steps)
    decreases |steps|
  {
    if |steps| == 0 then before else Asked(Next(n, steps[0]), steps[1..], AskedNow(n, steps[0], before))
  }

  /** The mark of a socket in use says whether it was asked to close. */
  predicate ClosingRight(n: Net, asked: bool) { Live(n.sock) && n.force.NotClosing? ==> (n.sock.closing <==> asked) }

  lemma ClosingStep(n: Net, step: Step, asked: bool)
    requires ClosingRight(n, asked) && Enabled(n, step)
    ensures ClosingRight(Next(n, step), AskedNow(n, step, asked))
  {
    hide ServeOne, WriteDone, SenderNext, Named, Uncomplete, NoMoreSending, Direct;
    if SenderStep(step) {
      SenderLeaves(n, step);
    } else if step.WriteEvent? {
      hide SendBuffer;
      SendBufferType(n.sock, step.ws);
      WriteShape(n, step.ws);
      WriteForce(n, step.ws);
    } else if step.Serve? {
      ClosingServe(n, asked);
    } else if step.ReadZero? {
      ClosingRead(n);
    }
  }

  lemma WriteForce(n: Net, ws: seq<WriteResult>)
    ensures WriteDone(n, ws).force == n.force
  {
    hide SendBuffer, Named, Whole, Line, Since;
  }

  lemma ClosingRead(n: Net)
    requires Live(n.sock)
    ensures var (s, force, r) := ReadEnd(n.sock); Forced(n, s, force, r).sock.closing == n.sock.closing
  {
    hide Named, Uncomplete, NoMoreSending;
  }

  lemma ClosingServe(n: Net, asked: bool)
    requires ClosingRight(n, asked) && Enabled(n, Serve)
    ensures ClosingRight(ServeOne(n), AskedNow(n, Serve, asked))
  {
    hide SendSocket, DecSending, Named, Uncomplete, NoMoreSending;
    if n.pipe[0].Send? {
      var r := n.pipe[0];
      SendSocketType(n.sock, r.id, r.m, r.low);
      OnlyCount(SendSocket(n.sock, r.id, r.m, r.low).0, r.id);
    }
  }

  lemma {:induction false} ClosingAlways(n: Net, steps: seq<Step>, asked: bool)
    requires ClosingRight(n, asked) && Run(n, steps)
    ensures ClosingRight(After(n, steps), Asked(n, steps, asked))
    decreases |steps|
  {
    hide ClosingRight, AskedNow, Next, Enabled;
    if |steps| > 0 {
      ClosingStep(n, steps[0], asked);
      ClosingAlways(Next(n, steps[0]), steps[1..], AskedNow(n, steps[0], asked));
    }
  }

  /** A slot owes nothing: no message waits on it and none is on its way to it. */
  predicate OwesNothing(s: Sock) { Line(s) == [] && s.count == 0 }

  /**
   Serving a close request gives the slot up at once exactly when it is a shutdown, the write side is
   gone, or nothing is owed; otherwise everything that waits goes on waiting, and only reading ends.
   */
  lemma CloseServed(n: Net)
    requires Enabled(n, Serve) && ServesClose(n, Serve) && Live(n.sock)
    ensures var s, after := n.sock, ServeOne(n);
      (after.force.Freed? <==> n.pipe[0].shutdown || s.typ == HalfcloseWrite || OwesNothing(s))
      && (!after.force.Freed? ==>
            after.sock == s.(closing := true, typ := HalfcloseRead) && after.dropped == n.dropped && after.finished == n.finished)
  {
    hide Named, Uncomplete;
  }

  /** The end of the peer's stream gives the slot up exactly when nobody could write any more or a close request has nothing left to wait for. */
  lemma ReadEndServed(n: Net)
    requires Enabled(n, ReadZero)
    ensures var s, after := n.sock, Next(n, ReadZero);
      (after.force.Freed? <==> s.typ == HalfcloseWrite || (s.closing && OwesNothing(s)))
      && (!after.force.Freed? ==> after.sock == s.(typ := after.sock.typ) && (after.sock.typ == HalfcloseRead || s.closing))
  {
    hide Named, Uncomplete;
  }

  lemma {:induction false} SendListBroken(fd: seq<Chunk>, list: seq<Buffer>, wb: int, ws: seq<WriteResult>)
    requires Broken !in ws
    ensures var r := SendList(fd, list, wb, ws); r.ok && Broken !in r.rest
    decreases |ws|
  {
    if |list| > 0 && |ws| > 0 {
      assert forall w :: w in ws[1..] ==> w in ws;
      match ws[0]
      case Interrupted => SendListBroken(fd, list, wb, ws[1..]);
      case Accepted(offered) =>
        var n := Min(offered, Remaining(list[0]));
        SendListBroken(fd + Written(list[0], n), list[1..], wb - n, ws[1..]);
      case _ =>
    }
  }

  /** SOCKET_ERR is raised exactly when the write side goes, only after a write failed, and the write event is off then. */
  lemma ErrorRaised(s: Sock, ws: seq<WriteResult>)
    ensures var (t, r) := SendBuffer(s, ws);
      (r == Error <==> s.typ != HalfcloseWrite && t.typ == HalfcloseWrite)
      && (r == Error ==> Broken in ws && !t.writing)
  {
    hide SendList, Uncomplete, Left, Remaining;
    if Broken !in ws {
      var t := TakeDirect(s);
      SendListBroken(t.fd, t.high, t.wb, ws);
      var first := SendList(t.fd, t.high, t.wb, ws);
      SendListBroken(first.fd, t.low, first.wb, first.rest);
    }
  }

  /** A write that fails at once ends the write side, or the slot when it is closing or half closed. */
  lemma BrokenEnds(s: Sock, ws: seq<WriteResult>)
    requires Live(s) && Line(s) != [] && |ws| > 0 && ws[0].Broken?
    ensures var t := SendBuffer(s, ws).0; t.typ == if s.closing || s.typ == HalfcloseRead then Invalid else HalfcloseWrite
  {
    var t := TakeDirect(s);
    assert t.high == [] ==> SendList(t.fd, t.high, t.wb, ws) == Sent(t.fd, t.high, t.wb, ws, true);
  }

  /** Unless the write side ends, the write event is left on exactly while something still waits. */
  lemma EventOnWhileWaiting(s: Sock, ws: seq<WriteResult>)
    requires s.writing && s.typ != HalfcloseWrite
    ensures var t := SendBuffer(s, ws).0; Live(t) && t.typ != HalfcloseWrite ==> (t.writing <==> Line(t) != [])
  {
    hide SendList, Remaining;
  }

  /** A connection that is made leaves the write event on exactly if a message waits or is on its way. */
  lemma ConnectServed(n: Net)
    requires Enabled(n, ConnectOk)
    ensures var s, after := n.sock, Next(n, ConnectOk);
      after == n.(sock := s.(typ := Connected, writing := s.writing && !OwesNothing(s)))
  {
  }

  // ---------- writing everything out ----------

  /** The kernel takes each buffer of the line whole, one after the other. */
  predicate TakesAll(ws: seq<WriteResult>, line: seq<Buffer>) {
    |ws| >= |line| && forall k :: 0 <= k < |line| ==> ws[k].Accepted? && ws[k].n >= Remaining(line[k])
  }

  lemma {:induction false} SendListAll(fd: seq<Chunk>, list: seq<Buffer>, wb: int, ws: seq<WriteResult>)
    requires TakesAll(ws, list)
    ensures var r := SendList(fd, list, wb, ws); r.list == [] && r.ok && r.rest == ws[|list|..]
    decreases |list|
  {
    if |list| > 0 {
      var n := Min(ws[0].n, Remaining(list[0]));
      SendListAll(fd + Written(list[0], n), list[1..], wb - n, ws[1..]);
    } else {
      assert ws[0..] == ws;
    }
  }

  /** When the kernel takes it, everything that waits goes out in one event: direct buffer, high list and low list. */
  lemma SendBufferAll(s: Sock, ws: seq<WriteResult>)
    requires Sound(s) && Live(s) && TakesAll(ws, Line(s))
    ensures var t := SendBuffer(s, ws).0;
      Line(t) == [] && Whole(t.fd) == Whole(s.fd) + Named(Line(s)) && t.typ == if s.closing then Invalid else s.typ
  {
    hide SendList, Aligned, Fits, Whole, Left, Named, Sound, TakesAll, InOrder;
    var t := TakeDirect(s);
    TakeDirectKeeps(s);
    Both(ws, t.high, t.low);
    SendListAll(t.fd, t.high, t.wb, ws);
    var first := SendList(t.fd, t.high, t.wb, ws);
    SendListAll(first.fd, t.low, first.wb, first.rest);
    FirstPass(t, ws);
    var s1 := t.(fd := first.fd, high := first.list, wb := first.wb);
    SecondPass(s1, first.rest);
    WholeOut(s, t, s1, SendBuffer(s, ws).0);
  }

  lemma Both(ws: seq<WriteResult>, high: seq<Buffer>, low: seq<Buffer>)
    requires TakesAll(ws, high + low)
    ensures TakesAll(ws, high) && TakesAll(ws[|high|..], low)
  {
    forall k | 0 <= k < |high| ensures ws[k].Accepted? && ws[k].n >= Remaining(high[k]) {
      assert (high + low)[k] == high[k];
    }
    forall k | 0 <= k < |low| ensures ws[|high|..][k].Accepted? && ws[|high|..][k].n >= Remaining(low[k]) {
      assert (high + low)[|high| + k] == low[k];
    }
  }

  lemma WholeOut(s: Sock, t: Sock, s1: Sock, after: Sock)
    requires Line(t) == Line(s) && t.fd == s.fd && InOrder(t, s1) && Live(s1)
    requires exists s2 :: InOrder(s1, s2) && Live(s2) && Line(s2) == [] && s2.fd == after.fd
    ensures Whole(after.fd) == Whole(s.fd) + Named(Line(s))
  {
    var s2 :| InOrder(s1, s2) && Live(s2) && Line(s2) == [] && s2.fd == after.fd;
    assert Named([]) == [];
    hide Named, Whole;
  }

  /** Some continuation has the kernel take everything that waits on the slot now. */
  ghost predicate CanWriteOut(n: Net) {
    exists steps :: Run(n, steps) && Line(After(n, steps).sock) == []
      && After(n, steps).finished == n.finished + multiset(Named(Line(n.sock)))
  }

  function Takes(line: seq<Buffer>): seq<WriteResult> {
    seq(|line|, k requires 0 <= k < |line| => Accepted(Remaining(line[k])))
  }

  lemma OneStep(n: Net, step: Step)
    requires Enabled(n, step)
    ensures Run(n, [step]) && After(n, [step]) == Next(n, step)
  {
    hide Enabled, Next;
    assert [step][1..] == [];
    assert Run(Next(n, step), []) && After(Next(n, step), []) == Next(n, step);
  }

  lemma WriteAll(n: Net, ws: seq<WriteResult>)
    requires Sound(n.sock) && Live(n.sock) && TakesAll(ws, Line(n.sock))
    ensures var after := WriteDone(n, ws);
      Line(after.sock) == [] && after.finished == n.finished + multiset(Named(Line(n.sock)))
  {
    hide Sound, SendBuffer, Line, Named, Whole, WriteDone, TakesAll;
    WriteShape(n, ws);
    SendBufferAll(n.sock, ws);
    AllDone(Whole(n.sock.fd), Named(Line(n.sock)));
  }

  lemma OneWrite(n: Net)
    requires StreamInv(n) && Enabled(n, WriteEvent(Takes(Line(n.sock))))
    ensures CanWriteOut(n)
  {
    var ws := Takes(Line(n.sock));
    WriteEnabled(n, ws);
    WriteAll(n, ws);
    OneStep(n, WriteEvent(ws));
    hide Line, Named, Enabled, Next, WriteDone, Takes, StreamInv;
    assert Run(n, [WriteEvent(ws)]) && Line(After(n, [WriteEvent(ws)]).sock) == [];
  }

  lemma WriteEnabled(n: Net, ws: seq<WriteResult>)
    requires StreamInv(n) && Enabled(n, WriteEvent(ws))
    ensures Sound(n.sock) && Live(n.sock) && Next(n, WriteEvent(ws)) == WriteDone(n, ws)
  {
    hide Sound, WriteDone;
  }

  lemma NothingToWrite(n: Net)
    requires Line(n.sock) == []
    ensures CanWriteOut(n)
  {
    assert Named(Line(n.sock)) == [];
    assert Run(n, []) && After(n, []) == n;
  }

  lemma WriteOutBack(n: Net, step: Step)
    requires Enabled(n, step) && CanWriteOut(Next(n, step))
    requires Line(Next(n, step).sock) == Line(n.sock) && Next(n, step).finished == n.finished
    ensures CanWriteOut(n)
  {
    var t := Next(n, step);
    var steps :| Run(t, steps) && Line(After(t, steps).sock) == []
      && After(t, steps).finished == t.finished + multiset(Named(Line(t.sock)));
    hide Enabled, Next, Line, Named;
    assert ([step] + steps)[1..] == steps;
    assert Run(n, [step] + steps) && After(n, [step] + steps) == After(t, steps);
  }

  /** With the lock free and its write event on, a socket that is connected or about to be can write out its line. */
  lemma WritesOut(n: Net)
    requires WriteInv(n) && !n.crashed && n.lock.None? && n.force.NotClosing? && n.sock.writing
    requires n.sock.typ == Connecting || Polled(n.sock.typ)
    ensures CanWriteOut(n)
  {
    hide CanWriteOut, LockHeld, HolderInv;
    if n.sock.typ == Connecting {
      var t := Next(n, ConnectOk);
      WriteInvKept(n, ConnectOk);
      Connects(n);
      hide StreamInv;
      if Line(t.sock) == [] {
        NothingToWrite(t);
      } else {
        OneWrite(t);
      }
      WriteOutBack(n, ConnectOk);
    } else {
      OneWrite(n);
    }
  }

  lemma Connects(n: Net)
    requires !n.crashed && n.force.NotClosing? && n.sock.typ == Connecting && n.sock.writing && n.lock.None?
    ensures var t := Next(n, ConnectOk);
      Line(t.sock) == Line(n.sock) && t.finished == n.finished
      && (Line(t.sock) != [] ==> forall ws :: Enabled(t, WriteEvent(ws)))
  {
  }
}
