/** What every step of the socket protocol keeps. */
module SocketSafety {
  import opened Common
  import opened Wire
  import opened SocketSpec
  import opened SocketSlot
  import opened SocketProtocol

  predicate Holds(p: Phase) { p.Checking? || p.Doubtful? }

  /** The lock is held by exactly the sender that thinks so. */
  predicate LockHeld(n: Net) {
    (forall k :: 0 <= k < |n.senders| ==> (Holds(n.senders[k]) <==> n.lock == Some(k)))
    && (n.lock.Some? ==> n.lock.value < |n.senders|)
  }

  lemma LockKept(n: Net, step: Step)
    requires LockHeld(n) && Enabled(n, step)
    ensures LockHeld(Next(n, step))
  {
    if SocketThread(step) {
      SocketThreadKeepsSenders(n, step);
    } else if SenderStep(step) {
      hide ReadHolds, IncSending, Min, Written, READS;
      LockKeptBySender(n, step);
    }
  }

  lemma LockKeptBySender(n: Net, step: Step)
    requires LockHeld(n) && SenderStep(step) && Phased(n, step)
    ensures LockHeld(SenderNext(n, step))
  {
    hide LockHeld;
    assert Holds(n.senders[step.k]) <==> n.lock == Some(step.k) by { LockOf(n, step.k); }
    SenderMoves(n, step);
    LockMoves(n, SenderNext(n, step), step.k);
  }

  lemma LockOf(n: Net, k: nat)
    requires LockHeld(n) && k < |n.senders|
    ensures Holds(n.senders[k]) <==> n.lock == Some(k)
  {
  }

  /** A sender's step changes its own phase, and the lock only by taking it when it is free or giving it back. */
  lemma SenderMoves(n: Net, step: Step)
    requires SenderStep(step) && Phased(n, step) && (Holds(n.senders[step.k]) <==> n.lock == Some(step.k))
    ensures OwnMove(n, SenderNext(n, step), step.k)
  {
    hide ReadHolds, IncSending, Min, Written, Checked, DirectDone;
    var k := step.k;
    assert n.senders[k := n.senders[k]] == n.senders;
    if step.Check? {
      CheckMoves(n, k);
    } else if step.WriteDirect? {
      DirectMoves(n, k, step.offered);
    }
  }

  lemma CheckMoves(n: Net, k: nat)
    requires k < |n.senders| && Holds(n.senders[k]) && n.lock == Some(k)
    ensures OwnMove(n, Checked(n, k), k)
  {
    hide ReadHolds;
  }

  lemma DirectMoves(n: Net, k: nat, offered: nat)
    requires k < |n.senders| && n.senders[k].Checking? && n.lock == Some(k)
    ensures OwnMove(n, DirectDone(n, k, offered), k)
  {
    hide Written;
  }

  predicate OwnMove(n: Net, after: Net, k: nat) {
    k < |n.senders| == |after.senders| && after.senders == n.senders[k := after.senders[k]]
    && if Holds(after.senders[k]) then n.lock in {None, Some(k)} && after.lock == Some(k)
       else after.lock == if n.lock == Some(k) then None else n.lock
  }

  lemma LockMoves(n: Net, after: Net, k: nat)
    requires LockHeld(n) && OwnMove(n, after, k)
    ensures LockHeld(after)
  {
    assert forall j :: 0 <= j < |n.senders| && j != k ==> after.senders[j] == n.senders[j];
  }

  lemma SocketThreadKeepsSenders(n: Net, step: Step)
    requires SocketThread(step) && Enabled(n, step)
    ensures var n' := Next(n, step); n'.senders == n.senders && n'.lock == n.lock && n'.submitted == n.submitted
  {
    hide SendBuffer, CloseSocket, ReadEnd, ConnectDone, Resumed, NewFd, FreeLists, Invalidate, ServeOne,
      Uncomplete, Direct, Line, Named, Whole, Since, Live;
    if step.Serve? {
      ServeKeepsSenders(n);
    }
  }

  lemma ServeKeepsSenders(n: Net)
    requires |n.pipe| > 0
    ensures var n' := ServeOne(n); n'.senders == n.senders && n'.lock == n.lock && n'.submitted == n.submitted
  {
    hide SendSocket, CloseSocket, DecSending, FreeLists, Uncomplete, Named;
  }

  /**
   While the lists are not freed the slot is sound; while force_close waits for the lock, the lists
   are empty, and the half-sent message is still in the direct write buffer or was among what was freed.
   */
  predicate StreamInv(n: Net) {
    (n.spoilt <==> Parse(n.sock.fd).None?)
    && match n.force
       case NotClosing => Sound(n.sock) && (Live(n.sock) ==> !n.spoilt)
       case Freed(half) =>
         Live(n.sock) && Empty(n.sock)
         && if half then n.spoilt || Parse(n.sock.fd).value.open.Some?
            else !n.spoilt && Aligned(n.sock.fd, Line(n.sock)) && Fits(Line(n.sock))
  }

  /** What the reads of the lock's holder still tell, although nothing but the lock protects them. */
  predicate HolderInv(n: Net) {
    n.lock.Some? && n.lock.value < |n.senders| ==>
      var p := n.senders[n.lock.value];
      (p.Checking? ==>
        (p.passed >= 2 && n.force != Freed(true) ==> Unsent(n.sock.high))
        && (p.passed >= 4 ==> n.sock.dw.None?)
        && (p.passed == READS ==> Live(n.sock)))
      && (p.Doubtful? ==> n.sock.typ == HalfcloseWrite)
  }

  predicate WriteInv(n: Net) { LockHeld(n) && StreamInv(n) && HolderInv(n) }

  /** A step of another party that leaves what the holder looks at. */
  lemma HolderSame(n: Net, after: Net)
    requires HolderInv(n) && after.senders == n.senders && after.lock == n.lock && after.force == n.force
    requires after.sock.dw == n.sock.dw && (Live(n.sock) ==> Live(after.sock))
    requires n.sock.typ == HalfcloseWrite ==> after.sock.typ == HalfcloseWrite
    requires Unsent(n.sock.high) ==> Unsent(after.sock.high)
    ensures HolderInv(after)
  {
    hide Unsent, Live;
  }

  /** A new message may join a line anywhere after its head. */
  lemma JoinLine(fd: seq<Chunk>, a: seq<Buffer>, b: seq<Buffer>, m: Message)
    requires Aligned(fd, a + b) && Fits(a + b) && Unsent(b)
    ensures Aligned(fd, a + [Buffer(m, 0)] + b) && Fits(a + [Buffer(m, 0)] + b)
  {
    var line, after := a + b, a + [Buffer(m, 0)] + b;
    forall k | 0 <= k < |after|
      ensures (k > 0 ==> after[k].sent == 0) && (after[k].sent == 0 || after[k].sent < |after[k].m.data|)
    {
      if k < |a| {
        assert after[k] == line[k] && (k > 0 ==> line[k] == line[1..][k - 1]);
      } else if k > |a| {
        assert after[k] == b[k - |a| - 1];
      }
    }
    if a == [] { assert line == b; }
  }

  predicate Joined(s: Sock, s': Sock) {
    Sound(s') && s'.fd == s.fd && s'.dw == s.dw && s'.typ == s.typ && (Unsent(s.high) ==> Unsent(s'.high))
  }

  lemma LeftOne(m: Message)
    ensures Left([Buffer(m, 0)]) == |m.data|
  {
    assert [Buffer(m, 0)][1..] == [];
  }

  lemma JoinHigh(s: Sock, m: Message, writing: bool)
    requires Sound(s) && Live(s)
    ensures Joined(s, s.(high := s.high + [Buffer(m, 0)], wb := s.wb + |m.data|, writing := writing))
  {
    hide Aligned, Fits, Left, Line, Unsent, Direct;
    var b := [Buffer(m, 0)];
    LineAppend(s.high, b);
    LeftOne(m);
    JoinLine(s.fd, Direct(s) + s.high, s.low, m) by { LineParts(s); }
    UnsentMore(s.high, m);
    LineWithHigh(s, m, writing);
  }

  lemma LineParts(s: Sock)
    ensures Line(s) == Direct(s) + s.high + s.low && Line(s) == Line(s) + []
  {
  }

  lemma LineWithHigh(s: Sock, m: Message, writing: bool)
    ensures Line(s.(high := s.high + [Buffer(m, 0)], wb := s.wb + |m.data|, writing := writing))
      == (Direct(s) + s.high) + [Buffer(m, 0)] + s.low
  {
  }

  lemma LineWithLow(s: Sock, m: Message)
    ensures Line(s.(low := s.low + [Buffer(m, 0)], wb := s.wb + |m.data|)) == Line(s) + [Buffer(m, 0)] + []
  {
  }

  lemma JoinLow(s: Sock, m: Message)
    requires Sound(s) && Live(s)
    ensures Joined(s, s.(low := s.low + [Buffer(m, 0)], wb := s.wb + |m.data|))
  {
    hide Aligned, Fits, Left, Line, Direct;
    LineAppend(s.low, [Buffer(m, 0)]);
    LeftOne(m);
    LineParts(s);
    JoinLine(s.fd, Line(s), [], m);
    UnsentMore(s.low, m);
    LineWithLow(s, m);
  }

  lemma UnsentMore(line: seq<Buffer>, m: Message)
    ensures Unsent(line) ==> Unsent(line + [Buffer(m, 0)])
  {
  }

  lemma SendSocketKeeps(s: Sock, id: nat, m: Message, low: bool)
    requires Sound(s) && !(s.typ == Reserved && s.id == id)
    ensures Joined(s, SendSocket(s, id, m, low).0)
  {
    hide Sound, Unsent;
    if SendSocket(s, id, m, low).1 {
      if Empty(s) {
        assert s.high + [Buffer(m, 0)] == [Buffer(m, 0)];
        JoinHigh(s, m, true);
      } else if low {
        JoinLow(s, m);
      } else {
        JoinHigh(s, m, s.writing);
      }
    }
  }

  predicate Steady(n: Net) { StreamInv(n) && HolderInv(n) }

  /** What freeing the lists leaves: either nothing was half sent but the direct write, or the half-sent message is lost. */
  lemma FreedLine(s: Sock)
    requires Sound(s) && Live(s)
    ensures Line(FreeLists(s)) == Direct(s)
    ensures if Uncomplete(s.high) then Parse(s.fd).value.open.Some? else Aligned(s.fd, Direct(s)) && Fits(Direct(s)) && Unsent(s.high)
  {
    hide Parse, Named, Fits, Left;
    var line := Line(s);
    if s.dw.Some? {
      assert line[0] == s.dw.value && Direct(s)[1..] == [];
      assert line[1..] == s.high + s.low;
      if s.high != [] { assert line[1..][0] == s.high[0]; }
      OneFits(line);
      UnsentPart(s.high, s.low);
    } else {
      assert line == s.high + s.low;
      NoneFits();
      if s.high != [] {
        assert line[1..] == s.high[1..] + s.low;
        UnsentPart(s.high[1..], s.low);
        assert forall k :: 1 <= k < |s.high| ==> s.high[k] == s.high[1..][k - 1];
      }
    }
  }

  lemma UnsentPart(a: seq<Buffer>, b: seq<Buffer>)
    ensures Unsent(a + b) ==> Unsent(a)
  {
    if Unsent(a + b) {
      assert forall k :: 0 <= k < |a| ==> a[k] == (a + b)[k];
    }
  }

  lemma StartForceKeeps(n: Net)
    requires Steady(n) && n.force.NotClosing? && Live(n.sock)
    ensures Steady(StartForce(n))
  {
    hide Parse, Named, Fits, Aligned, Line, Direct;
    FreedLine(n.sock);
  }

  lemma OneFits(line: seq<Buffer>)
    requires Fits(line) && |line| > 0
    ensures Fits([line[0]])
  {
  }

  lemma NoneFits()
    ensures Fits([])
  {
  }

  lemma NothingWaits(s: Sock)
    requires Empty(s) && s.dw.None?
    ensures Line(s) == [] && Fits(Line(s)) && Unsent(s.low) && Left(s.high) + Left(s.low) == 0
  {
  }

  lemma NewFdKeeps(n: Net, typ: Type)
    requires Steady(n) && Enabled(n, OpenFd(typ))
    ensures Steady(Next(n, OpenFd(typ)))
  {
    hide Sound;
    assert Sound(n.sock);
    FreshSound(n.sock, typ);
    HolderSame(n, Next(n, OpenFd(typ)));
  }

  lemma FreshSound(s: Sock, typ: Type)
    requires Sound(s) && !Live(s)
    ensures Sound(NewFd(s, typ)) && Parse(NewFd(s, typ).fd).Some?
    ensures Empty(s) && s.dw.None?
  {
    if Live(NewFd(s, typ)) {
      NothingWaits(NewFd(s, typ));
    }
  }

  lemma WriteEventKeeps(n: Net, ws: seq<WriteResult>)
    requires Steady(n) && Enabled(n, WriteEvent(ws))
    ensures Steady(WriteDone(n, ws))
  {
    hide SendBuffer, Sound, Since, Named, Line;
    SendBufferKeeps(n.sock, ws);
    ParsesAfter(n.sock, ws);
  }

  /** The stream parses after a write event, also when the slot is given up. */
  lemma ParsesAfter(s: Sock, ws: seq<WriteResult>)
    requires Sound(s) && Live(s)
    ensures Parse(SendBuffer(s, ws).0.fd).Some?
  {
    hide SendList, CloseWrite, InOrder;
    var t := TakeDirect(s);
    TakeDirectKeeps(s);
    FirstPass(t, ws);
    var first := SendList(t.fd, t.high, t.wb, ws);
    var s1 := t.(fd := first.fd, high := first.list, wb := first.wb);
    Concluded(s1);
    if first.ok && first.list == [] {
      SecondPass(s1, first.rest);
      var second := SendList(s1.fd, s1.low, s1.wb, first.rest);
      Concluded(s1.(fd := second.fd, low := second.list, wb := second.wb));
    }
  }

  /** Steps that leave line and stream of a sound slot alone. */
  lemma SameLine(s: Sock, t: Sock)
    requires Sound(s) && t.fd == s.fd && t.high == s.high && t.low == s.low && t.dw == s.dw && t.wb == s.wb
    requires Live(s) <==> Live(t)
    ensures Sound(t)
  {
  }

  lemma ForcedKeeps(n: Net, s: Sock, force: bool, r: Raised)
    requires Steady(n) && n.force.NotClosing? && Live(n.sock) && Live(s) && s.(typ := n.sock.typ, closing := n.sock.closing) == n.sock
    requires n.sock.typ == HalfcloseWrite ==> s.typ == HalfcloseWrite
    ensures Steady(Forced(n, s, force, r))
  {
    var n1 := Raise(n.(sock := s), r);
    SameLine(n.sock, s);
    HolderSame(n, n1);
    if force {
      StartForceKeeps(n1);
    }
  }

  lemma ServeKeeps(n: Net)
    requires Steady(n) && Enabled(n, Serve)
    ensures Steady(ServeOne(n))
  {
    hide Steady, Sound, StartForce, SendSocket, Parse, Joined, CloseSocket, Forced, DecSending;
    var n1 := n.(pipe := n.pipe[1..]);
    Unfolded(n, n1);
    match n.pipe[0]
    case Send(id, m, low, _) => ServeSendKeeps(n);
    case Trigger(id) => TriggerKeeps(n);
    case CloseIt(id, shutdown) =>
      if n.sock.typ != Invalid && n.sock.id == id {
        CloseItKeeps(n1, shutdown);
      }
  }

  lemma ServeSendKeeps(n: Net)
    requires Steady(n) && Enabled(n, Serve) && n.pipe[0].Send?
    ensures Steady(ServeOne(n))
  {
    hide Steady, Sound, SendSocket, Joined, DecSending;
    var r, after := n.pipe[0], ServeOne(n);
    var (s, kept) := SendSocket(n.sock, r.id, r.m, r.low);
    Unfolded(n, n);
    SendSocketKeeps(n.sock, r.id, r.m, r.low);
    OnlyCount(s, r.id);
    SteadyOn(n, after, s);
  }

  lemma OnlyCount(s: Sock, id: nat)
    ensures DecSending(s, id).Some? ==> DecSending(s, id).value == s.(count := DecSending(s, id).value.count)
  {
  }

  lemma TriggerKeeps(n: Net)
    requires Steady(n) && Enabled(n, Serve) && n.pipe[0].Trigger?
    ensures Steady(ServeOne(n))
  {
    hide Steady, Sound;
    Unfolded(n, n);
    SteadyOn(n, ServeOne(n), n.sock);
  }

  lemma CloseItKeeps(n: Net, shutdown: bool)
    requires Steady(n) && n.force.NotClosing? && Live(n.sock)
    ensures var (s, force, r) := CloseSocket(n.sock, shutdown); Steady(Forced(n, s, force, r))
  {
    hide Steady, Forced;
    var (s, force, r) := CloseSocket(n.sock, shutdown);
    ForcedKeeps(n, s, force, r);
  }

  lemma Unfolded(n: Net, n1: Net)
    requires Steady(n) && n.force.NotClosing? && n1 == n.(pipe := n1.pipe)
    ensures Steady(n1) && StreamInv(n) && HolderInv(n) && Sound(n.sock)
  {
  }

  /** A slot whose fields agree with a sound one on line and stream, and whose type agrees, keeps the net steady. */
  lemma SteadyOn(n: Net, after: Net, s: Sock)
    requires Steady(n) && n.force.NotClosing? && after.force.NotClosing? && after.spoilt == n.spoilt
    requires after.senders == n.senders && after.lock == n.lock
    requires Joined(n.sock, s) && after.sock.(writing := s.writing, count := s.count) == s
    ensures Steady(after)
  {
    hide Parse, Aligned, Unsent;
    SameLine(s, after.sock);
    HolderSame(n, after);
  }

  lemma SocketStepKeeps(n: Net, step: Step)
    requires Steady(n) && LockHeld(n) && SocketThread(step) && Enabled(n, step)
    ensures Steady(SocketNext(n, step))
  {
    hide Steady, Sound, ServeOne, StartForce, NewFd, WriteDone, Forced, ReadEnd, CloseSocket, Parse, LockHeld,
      Invalidate, Line, NoMoreSending;
    match step
    case OpenFd(typ) => NewFdKeeps(n, typ);
    case WriteEvent(ws) => WriteEventKeeps(n, ws);
    case Serve => ServeKeeps(n);
    case FinishForce => FinishKeeps(n);
    case OpenFailed => OpenFailedKeeps(n);
    case ConnectOk => RetypedKeeps(n, ConnectDone(n.sock));
    case Resume => RetypedKeeps(n, Resumed(n.sock));
    case ConnectFailed =>
      StartForceKeeps(n);
      RefusedSame(StartForce(n));
    case ReadZero => ReadZeroKeeps(n);
    case HangUp => HangUpKeeps(n);
    case _ =>
  }

  lemma RefusedSame(n: Net)
    requires Steady(n)
    ensures Steady(n.(refused := true))
  {
  }

  lemma FinishKeeps(n: Net)
    requires Steady(n) && Enabled(n, FinishForce)
    ensures Steady(SocketNext(n, FinishForce))
  {
    hide Parse, Aligned, Named;
  }

  lemma OpenFailedKeeps(n: Net)
    requires Steady(n) && n.force.NotClosing? && n.sock.typ == Reserved
    ensures Steady(n.(sock := n.sock.(typ := Invalid), refused := true))
  {
    hide Parse, Aligned;
  }

  lemma RetypedKeeps(n: Net, s: Sock)
    requires Live(n.sock) && (n.sock.typ == HalfcloseWrite ==> s == n.sock)
    requires Steady(n) && n.force.NotClosing? && Live(s) && s.(typ := n.sock.typ, writing := n.sock.writing) == n.sock
    ensures Steady(n.(sock := s))
  {
    hide Parse, Aligned;
    SameLine(n.sock, s);
    HolderSame(n, n.(sock := s));
  }

  lemma ReadZeroKeeps(n: Net)
    requires Steady(n) && n.force.NotClosing? && Live(n.sock)
    ensures var (s, force, r) := ReadEnd(n.sock); Steady(Forced(n, s, force, r))
  {
    hide Steady, Forced;
    var (s, force, r) := ReadEnd(n.sock);
    ForcedKeeps(n, s, force, r);
  }

  lemma HangUpKeeps(n: Net)
    requires Steady(n) && n.force.NotClosing? && Live(n.sock)
    ensures Steady(Forced(n, n.sock, true, Close)) && Steady(Forced(n, n.sock, true, Nothing))
  {
    hide Steady, Forced;
    ForcedKeeps(n, n.sock, true, Close);
    ForcedKeeps(n, n.sock, true, Nothing);
  }

  /** The head of a line nobody has started on lets a new message be written before it. */
  lemma DirectSound(s: Sock, m: Message, w: nat)
    requires Aligned(s.fd, Line(s)) && Fits(Line(s)) && s.dw.None? && Unsent(s.high) && Unsent(s.low) && w <= |m.data|
    ensures var fd := s.fd + Written(Buffer(m, 0), w);
      var t := if w == |m.data| then s.(fd := fd) else s.(fd := fd, dw := Some(Buffer(m, w)));
      Aligned(t.fd, Line(t)) && Fits(Line(t))
  {
    hide Parse, Aligned, Left, Written;
    var b, rest := Buffer(m, 0), s.high + s.low;
    assert Line(s) == rest;
    BeforeUnsent(s.fd, b, rest);
    var line := [b] + rest;
    assert line[0] == b && line[1..] == rest;
    WriteKeeps(s.fd, line, w);
    if w < |m.data| {
      var t := s.(fd := s.fd + Written(b, w), dw := Some(Buffer(m, w)));
      assert Line(t) == [Buffer(m, w)] + rest;
    } else {
      assert Line(s.(fd := s.fd + Written(b, w))) == rest;
    }
  }

  lemma BeforeUnsent(fd: seq<Chunk>, b: Buffer, rest: seq<Buffer>)
    requires Aligned(fd, rest) && Fits(rest) && Unsent(rest) && b.sent == 0
    ensures Aligned(fd, [b] + rest) && Fits([b] + rest)
  {
    assert ([b] + rest)[1..] == rest;
  }

  /** After a half-sent message was freed, whatever else is written tears the stream. */
  lemma DirectTears(fd: seq<Chunk>, m: Message, w: nat)
    requires Parse(fd).None? || (Parse(fd).value.open.Some? && Parse(fd).value.open.value.sent > 0)
    requires w <= |m.data| && Written(Buffer(m, 0), w) != []
    ensures Parse(fd + Written(Buffer(m, 0), w)).None?
  {
    ParseAppend(fd, Chunk(m, 0, w));
  }

  lemma OpenIsStarted(fd: seq<Chunk>)
    ensures Parse(fd).Some? && Parse(fd).value.open.Some? ==> Parse(fd).value.open.value.sent > 0
  {
  }

  lemma DirectKeeps(n: Net, k: nat, offered: nat)
    requires Steady(n) && LockHeld(n) && Phased(n, WriteDirect(k, offered))
    ensures Steady(DirectDone(n, k, offered))
  {
    hide Parse, Aligned, Fits, Unsent, Line, Written;
    var m := n.senders[k].m;
    var w := Min(offered, |m.data|);
    var fd := n.sock.fd + Written(Buffer(m, 0), w);
    assert n.lock == Some(k);
    if n.force == Freed(true) {
      OpenIsStarted(n.sock.fd);
      if Written(Buffer(m, 0), w) == [] {
        assert fd == n.sock.fd;
      } else {
        DirectTears(n.sock.fd, m, w);
      }
    } else {
      if n.force.Freed? { NothingUnsent(n.sock); }
      DirectSound(n.sock, m, w);
      AlignedParses(fd, Line(DirectDone(n, k, offered).sock));
    }
  }

  lemma NothingUnsent(s: Sock)
    requires Empty(s)
    ensures Unsent(s.high) && Unsent(s.low)
  {
  }

  lemma AlignedParses(fd: seq<Chunk>, line: seq<Buffer>)
    requires Aligned(fd, line)
    ensures Parse(fd).Some?
  {
  }

  lemma CheckKeeps(n: Net, k: nat)
    requires Steady(n) && LockHeld(n) && Phased(n, Check(k))
    ensures Steady(Checked(n, k))
  {
    hide StreamInv;
    assert n.lock == Some(k);
    SameStream(n, Checked(n, k));
    HolderChecked(n, k);
  }

  lemma HolderChecked(n: Net, k: nat)
    requires HolderInv(n) && n.lock == Some(k) && Phased(n, Check(k))
    ensures HolderInv(Checked(n, k))
  {
  }

  lemma SameStream(n: Net, after: Net)
    requires StreamInv(n) && after.force == n.force && after.spoilt == n.spoilt && after.sock.(count := n.sock.count) == n.sock
    ensures StreamInv(after)
  {
    hide Parse, Aligned, Fits;
    assert Line(after.sock) == Line(n.sock);
    if n.force.NotClosing? { SameLine(n.sock, after.sock); }
  }

  /** A sender's step that only moves it along, or takes the lock, keeps the net steady. */
  lemma MovedKeeps(n: Net, after: Net, k: nat)
    requires Steady(n) && LockHeld(n) && OwnMove(n, after, k) && after.force == n.force && after.spoilt == n.spoilt
    requires after.sock.(count := n.sock.count) == n.sock
    requires n.lock != Some(k)
    requires Holds(after.senders[k]) ==> after.senders[k].Checking? && after.senders[k].passed == 0
    ensures Steady(after)
  {
    hide StreamInv, Unsent;
    SameStream(n, after);
    assert n.lock.Some? && n.lock.value < |n.senders| ==> after.senders[n.lock.value] == n.senders[n.lock.value];
  }

  lemma SenderStepKeeps(n: Net, step: Step)
    requires Steady(n) && LockHeld(n) && SenderStep(step) && Phased(n, step)
    ensures Steady(SenderNext(n, step))
  {
    hide Steady, LockHeld, Checked, DirectDone, StreamInv, HolderInv, OwnMove;
    LockOf(n, step.k);
    if step.Check? {
      CheckKeeps(n, step.k);
    } else if step.WriteDirect? {
      DirectKeeps(n, step.k, step.offered);
    } else {
      SenderMoves(n, step);
      MovedKeeps(n, SenderNext(n, step), step.k);
    }
  }

  lemma WriteInvKept(n: Net, step: Step)
    requires WriteInv(n) && Enabled(n, step)
    ensures WriteInv(Next(n, step))
  {
    hide Steady, LockHeld, StreamInv, HolderInv, SocketNext, SenderNext;
    LockKept(n, step);
    assert Steady(n) by { Regroup(n); }
    if SocketThread(step) {
      SocketStepKeeps(n, step);
    } else if SenderStep(step) {
      SenderStepKeeps(n, step);
    } else {
      OutsideKeeps(n, step);
    }
    Regroup(Next(n, step));
  }

  lemma Regroup(n: Net)
    ensures Steady(n) <==> StreamInv(n) && HolderInv(n)
  {
  }

  lemma OutsideKeeps(n: Net, step: Step)
    requires Steady(n) && Enabled(n, step) && (step.ReserveId? || step.PostClose?)
    ensures Steady(Next(n, step))
  {
    hide Parse, Aligned, Fits;
  }
}
