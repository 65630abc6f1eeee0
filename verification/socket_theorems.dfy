/** What holds in every state the socket protocol can reach. */
module SocketTheorems {
  import opened Common
  import opened Wire
  import opened SocketSpec
  import opened SocketSlot
  import opened SocketProtocol
  import opened SocketSafety
  import opened SocketAccounting
  import opened SocketDiscipline
  import opened SocketCareless
  import opened SocketLosses

  // ---------- the byte stream ----------

  lemma InitialWriteInv(n: Net)
    requires Initial(n)
    ensures WriteInv(n)
  {
  }

  lemma {:induction false} WriteInvAlways(n: Net, steps: seq<Step>)
    requires WriteInv(n) && Run(n, steps)
    ensures WriteInv(After(n, steps))
    decreases |steps|
  {
    hide WriteInv, Next, Enabled;
    if |steps| > 0 {
      WriteInvKept(n, steps[0]);
      WriteInvAlways(Next(n, steps[0]), steps[1..]);
    }
  }

  /**
   No interleaving: in every run of senders and socket thread, whatever the kernel accepts, the
   bytes taken by the file descriptor are whole messages followed by a proper prefix of one more,
   unless the stream is spoilt; and while the socket is in use and no half-sent buffer was freed,
   it is not spoilt and the half-sent message is the next to be written.
   */
  lemma NoInterleaving(n: Net, steps: seq<Step>)
    requires Initial(n) && Run(n, steps)
    ensures var s := After(n, steps).sock;
      After(n, steps).spoilt <==> Parse(s.fd).None?
    ensures var s := After(n, steps).sock;
      Parse(s.fd).Some? ==>
        Stream(s.fd) == Concat(Whole(s.fd)) + Prefix(Parse(s.fd).value.open)
    ensures var s := After(n, steps).sock;
      Live(s) && After(n, steps).force != Freed(true) ==>
        !After(n, steps).spoilt && Parse(s.fd).value.open == OpenOf(Line(s))
  {
    hide WriteInv, Run, After, Line, Stream, Concat;
    InitialWriteInv(n);
    WriteInvAlways(n, steps);
    var m := After(n, steps);
    StreamOf(m);
    if Parse(m.sock.fd).Some? {
      StreamIsMessages(m.sock.fd);
    }
  }

  lemma StreamOf(n: Net)
    requires WriteInv(n)
    ensures n.spoilt <==> Parse(n.sock.fd).None?
    ensures Live(n.sock) && n.force != Freed(true) ==> !n.spoilt && Parse(n.sock.fd).value.open == OpenOf(Line(n.sock))
  {
    hide HolderInv, LockHeld;
  }

  /**
   When the source does interleave: a step takes a well-formed stream to a malformed one exactly
   if it is a direct write that the kernel takes bytes of between force_close's freeing of a
   half-sent buffer and its taking of the lock.
   */
  lemma InterleavesExactly(n: Net, step: Step)
    requires WriteInv(n) && Enabled(n, step) && Parse(n.sock.fd).Some?
    ensures Parse(Next(n, step).sock.fd).None? <==>
      n.force == Freed(true) && step.WriteDirect?
      && Written(Buffer(n.senders[step.k].m, 0), Min(step.offered, |n.senders[step.k].m.data|)) != []
  {
    hide WriteInv, Parse, SendBuffer, SendSocket, CloseSocket, ReadEnd, DecSending, ConnectDone, Resumed, FreeLists,
      Line, Named, Whole, Since, Checked, IncSending;
    WriteInvKept(n, step);
    StreamOf(n);
    StreamOf(Next(n, step));
    SpoiltBy(n, step);
  }

  lemma SpoiltBy(n: Net, step: Step)
    requires Enabled(n, step) && !n.spoilt
    ensures Next(n, step).spoilt <==>
      n.force == Freed(true) && step.WriteDirect?
      && Written(Buffer(n.senders[step.k].m, 0), Min(step.offered, |n.senders[step.k].m.data|)) != []
  {
    hide SendBuffer, SendSocket, CloseSocket, ReadEnd, DecSending, ConnectDone, Resumed, FreeLists, NewFd, Reserve, IncSending,
      Line, Named, Whole, Since, ReadHolds, Written, Min, Direct, Invalidate, Live;
  }

  // ---------- a run that interleaves ----------

  lemma {:induction false} Extend(n: Net, steps: seq<Step>, step: Step)
    requires Run(n, steps) && Enabled(After(n, steps), step)
    ensures Run(n, steps + [step]) && After(n, steps + [step]) == Next(After(n, steps), step)
    decreases |steps|
  {
    hide Enabled, Next;
    if |steps| == 0 {
      assert [step][1..] == [];
    } else {
      assert (steps + [step])[1..] == steps[1..] + [step];
      Extend(Next(n, steps[0]), steps[1..], step);
    }
  }

  lemma SixReads(n: Net, steps: seq<Step>, k: nat) returns (more: seq<Step>)
    requires Run(n, steps) && !After(n, steps).crashed
    requires k < |After(n, steps).senders| && After(n, steps).senders[k].Checking? && After(n, steps).senders[k].passed == 0
    requires forall j: nat :: j < READS ==> ReadHolds(After(n, steps).sock, After(n, steps).senders[k].id, j)
    ensures Run(n, more)
    ensures var st := After(n, steps); After(n, more) == With(st, k, Checking(st.senders[k].id, st.senders[k].m, READS))
  {
    hide Run, After, ReadHolds;
    more := steps;
    var st := After(n, steps);
    var p := st.senders[k];
    assert With(st, k, p) == st;
    for j := 0 to READS
      invariant Run(n, more) && After(n, more) == With(st, k, Checking(p.id, p.m, j))
    {
      Extend(n, more, Check(k));
      more := more + [Check(k)];
    }
  }

  predicate At(n: Net, sock: Sock, senders: seq<Phase>, pipe: seq<Request>, force: Closing) {
    n.sock == sock && n.senders == senders && n.lock.None? && n.pipe == pipe && n.force == force && !n.crashed
  }

  /** A sender that finds the socket idle and unlocked writes directly. */
  lemma SendDirect(n: Net, steps: seq<Step>, s: Sock, senders: seq<Phase>, force: Closing, k: nat, m: Message, w: nat)
    returns (more: seq<Step>)
    requires Run(n, steps) && At(After(n, steps), s, senders, [], force) && k < |senders| && senders[k].Idle?
    requires forall j: nat :: j < READS ==> ReadHolds(s, s.id, j)
    requires s.typ == Connected && s.dw.None? && !s.closing && 0 < w <= |m.data|
    ensures Run(n, more) && At(After(n, more),
      s.(fd := s.fd + [Chunk(m, 0, w)], dw := if w < |m.data| then Some(Buffer(m, w)) else None),
      senders[k := if w < |m.data| then Notify(s.id) else Idle], [], force)
  {
    hide Run, After, Enabled, Next, ReadHolds;
    more := GetLock(n, steps, s, senders, force, k, m);
    more := SixReads(n, more, k);
    var st := After(n, more);
    assert senders[k := Checking(s.id, m, READS)][k := Idle] == senders[k := Idle];
    DirectAt(st, s, k, m, w);
    more := Do(n, more, WriteDirect(k, w));
  }

  lemma DirectAt(st: Net, s: Sock, k: nat, m: Message, w: nat)
    requires st.sock == s && !st.crashed && k < |st.senders| && st.senders[k] == Checking(s.id, m, READS)
    requires 0 < w <= |m.data| && s.dw.None?
    ensures Enabled(st, WriteDirect(k, w))
    ensures At(Next(st, WriteDirect(k, w)),
      s.(fd := s.fd + [Chunk(m, 0, w)], dw := if w < |m.data| then Some(Buffer(m, w)) else None),
      st.senders[k := if w < |m.data| then Notify(s.id) else Idle], st.pipe, st.force)
  {
  }

  lemma GetLock(n: Net, steps: seq<Step>, s: Sock, senders: seq<Phase>, force: Closing, k: nat, m: Message)
    returns (more: seq<Step>)
    requires Run(n, steps) && At(After(n, steps), s, senders, [], force) && k < |senders| && senders[k].Idle?
    requires !s.closing && s.typ == Connected
    ensures Run(n, more)
    ensures var st := After(n, more);
      st.sock == s && st.senders == senders[k := Checking(s.id, m, 0)] && st.pipe == [] && st.force == force && !st.crashed
  {
    hide Run, After, ReadHolds;
    more := Do(n, steps, Begin(k, s.id, m));
    assert After(n, more).senders == senders[k := Ready(s.id, m)];
    more := Do(n, more, TryLock(k));
  }

  const HELLO: Message := Message(1, [1, 2])
  const WORLD: Message := Message(2, [3, 4])

  /** The slot connected under id 1, with nothing waiting. */
  const OPEN: Sock := Sock(1, Connected, true, false, false, [], [], 0, None, 1, 0, [])
  const HALF: seq<Chunk> := [Chunk(HELLO, 0, 1)]

  /**
   Two senders, one of which is half done when the socket is shut down: the other one finds the
   lists already freed and the type still CONNECTED, and writes into the middle of the first message.
   */
  lemma ShutdownInterleaves() returns (n: Net, steps: seq<Step>)
    ensures Initial(n) && Run(n, steps)
    ensures Parse(After(n, steps).sock.fd).None?
    ensures Stream(After(n, steps).sock.fd) == [1, 3, 4]
  {
    var s0 := Sock(0, Invalid, false, false, false, [], [], 0, None, 0, 0, []);
    n := Net(s0, [Idle, Idle], None, [], NotClosing, 0, true, false, false, multiset{}, multiset{}, multiset{});
    assert Run(n, []) && After(n, []) == n;
    hide Run, After, Initial, Stream, Parse;
    assert Initial(n) by { InitialTwo(n); }
    steps := Opened(n);
    steps := HalfSent(n, steps);
    steps := ListsFreed(n, steps);
    var s := OPEN.(writing := true, wb := 1, fd := HALF);
    steps := SendDirect(n, steps, s, [Idle, Idle], Freed(true), 1, WORLD, 2);
    Torn();
  }

  lemma InitialTwo(n: Net)
    requires n.sock == Sock(0, Invalid, false, false, false, [], [], 0, None, 0, 0, [])
    requires n == Net(n.sock, [Idle, Idle], None, [], NotClosing, 0, true, false, false, multiset{}, multiset{}, multiset{})
    ensures Initial(n)
  {
  }

  lemma Opened(n: Net) returns (steps: seq<Step>)
    requires Initial(n) && n.senders == [Idle, Idle]
    ensures Run(n, steps) && At(After(n, steps), OPEN, [Idle, Idle], [], NotClosing)
  {
    steps := [];
    assert Run(n, steps) && After(n, steps) == n;
    hide Run, After;
    steps := Do(n, steps, ReserveId(1));
    steps := Do(n, steps, OpenFd(Connected));
  }

  /** Sender 0 has one byte of its message taken, and the socket thread has put the rest in the high list. */
  lemma HalfSent(n: Net, before: seq<Step>) returns (steps: seq<Step>)
    requires Run(n, before) && At(After(n, before), OPEN, [Idle, Idle], [], NotClosing)
    ensures Run(n, steps) && At(After(n, steps),
      OPEN.(writing := true, wb := 1, high := [Buffer(HELLO, 1)], fd := HALF), [Idle, Idle], [], NotClosing)
  {
    hide Run, After, WriteDone;
    steps := SendDirect(n, before, OPEN, [Idle, Idle], NotClosing, 0, HELLO, 1);
    var s := OPEN.(fd := HALF, dw := Some(Buffer(HELLO, 1)));
    assert At(After(n, steps), s, [Notify(1), Idle], [], NotClosing);
    steps := Triggered(n, steps, s);
    BlockedAt(After(n, steps));
    steps := Do(n, steps, WriteEvent([WouldBlock]));
  }

  lemma PostedAt(st: Net, s: Sock)
    requires At(st, s, [Notify(s.id), Idle], [], NotClosing)
    ensures Enabled(st, PostTrigger(0))
    ensures At(Next(st, PostTrigger(0)), s, [Idle, Idle], [Request.Trigger(s.id)], NotClosing)
  {
  }

  lemma WritingAt(st: Net, s: Sock)
    requires At(st, s, [Idle, Idle], [Request.Trigger(s.id)], NotClosing) && s.typ == Connected
    ensures Enabled(st, Serve) && At(Next(st, Serve), s.(writing := true), [Idle, Idle], [], NotClosing)
  {
  }

  lemma Triggered(n: Net, before: seq<Step>, s: Sock) returns (steps: seq<Step>)
    requires Run(n, before) && At(After(n, before), s, [Notify(s.id), Idle], [], NotClosing) && s.typ == Connected
    ensures Run(n, steps) && At(After(n, steps), s.(writing := true), [Idle, Idle], [], NotClosing)
  {
    hide Run, After, At, Enabled, Next;
    PostedAt(After(n, before), s);
    steps := Do(n, before, PostTrigger(0));
    WritingAt(After(n, steps), s);
    steps := Do(n, steps, Serve);
  }

  lemma BlockedAt(st: Net)
    requires At(st, OPEN.(fd := HALF, dw := Some(Buffer(HELLO, 1)), writing := true), [Idle, Idle], [], NotClosing)
    ensures At(WriteDone(st, [WouldBlock]),
      OPEN.(writing := true, wb := 1, high := [Buffer(HELLO, 1)], fd := HALF), [Idle, Idle], [], NotClosing)
  {
    hide Whole, Named, Since;
  }

  lemma ListsFreed(n: Net, before: seq<Step>) returns (steps: seq<Step>)
    requires Run(n, before) && At(After(n, before),
      OPEN.(writing := true, wb := 1, high := [Buffer(HELLO, 1)], fd := HALF), [Idle, Idle], [], NotClosing)
    ensures Run(n, steps) && At(After(n, steps), OPEN.(writing := true, wb := 1, fd := HALF), [Idle, Idle], [], Freed(true))
  {
    hide Run, After, Named;
    var s := OPEN.(writing := true, wb := 1, high := [Buffer(HELLO, 1)], fd := HALF);
    steps := Do(n, before, PostClose(1, true));
    assert At(After(n, steps), s, [Idle, Idle], [CloseIt(1, true)], NotClosing);
    ShutdownAt(After(n, steps), s);
    steps := Do(n, steps, Serve);
  }

  lemma ShutdownAt(st: Net, s: Sock)
    requires At(st, s, [Idle, Idle], [CloseIt(s.id, true)], NotClosing) && Live(s) && Uncomplete(s.high)
    ensures At(ServeOne(st), FreeLists(s), [Idle, Idle], [], Freed(true))
  {
    hide Named;
  }

  lemma Do(n: Net, steps: seq<Step>, step: Step) returns (more: seq<Step>)
    requires Run(n, steps) && Enabled(After(n, steps), step)
    ensures Run(n, more) && After(n, more) == Next(After(n, steps), step)
  {
    Extend(n, steps, step);
    more := steps + [step];
  }

  lemma Torn()
    ensures Parse(HALF + [Chunk(WORLD, 0, 2)]).None? && Stream(HALF + [Chunk(WORLD, 0, 2)]) == [1, 3, 4]
  {
    var fd := HALF + [Chunk(WORLD, 0, 2)];
    assert fd[..1] == HALF && HALF[..0] == [];
    assert Stream(HALF) == [1];
  }

  // ---------- messages, the counter, and wake-ups ----------

  /**
   In every run each submitted message is with its sender, in the pipe, waiting on the slot, written
   whole or freed: once. And a message was freed only at a step whose slot was not in use under its
   id, refused it, was being forced closed, or had broken while closing.
   */
  lemma MessagesConserved(n: Net, steps: seq<Step>)
    requires Initial(n) && Run(n, steps)
    ensures Conserved(After(n, steps))
    ensures forall m :: m in After(n, steps).dropped ==> SomeReason(n, steps, m)
  {
    hide WriteInv, Run, After, Conserved;
    InitialWriteInv(n);
    NothingInHand(n);
    ConservedAlways(n, steps);
    forall m | m in After(n, steps).dropped ensures SomeReason(n, steps, m) {
      DroppedAlways(n, steps, m);
    }
  }

  /** In every run a socket in use is marked as closing exactly if it was asked to close since it was opened. */
  lemma ClosingWhenAsked(n: Net, steps: seq<Step>)
    requires Initial(n) && Run(n, steps) && Live(After(n, steps).sock) && After(n, steps).force.NotClosing?
    ensures After(n, steps).sock.closing <==> Asked(n, steps, false)
  {
    assert ClosingRight(n, false);
    hide Run, After;
    ClosingAlways(n, steps, false);
  }

  /** No sender is inside the lock, nothing is being forced closed, and the socket can write or is connecting. */
  predicate Quiet(n: Net) {
    n.lock.None? && n.force.NotClosing? && (n.sock.typ == Connecting || Polled(n.sock.typ)) && n.sock.typ != HalfcloseWrite
    && (n.sock.dw.None? || n.sock.writing)
  }

  /**
   Nothing that waits is stuck: after every run of proper steps, everything that waits on a quiet
   socket can be written out, by at most a connection and one write event, if only the kernel takes it.
   */
  lemma WaitingCanBeWritten(n: Net, steps: seq<Step>)
    requires Initial(n) && ProperRun(n, steps)
    ensures Run(n, steps)
    ensures var m := After(n, steps);
      Quiet(m) ==> CanWriteOut(m)
  {
    hide ProperRun, Run, After, CountInv, WriteInv, Awake, CanWriteOut, HolderInv;
    InitialWriteInv(n);
    assert CountInv(n) && Awake(n) by { InitialCounts(n); }
    DisciplinedAlways(n, steps);
    var m := After(n, steps);
    if Quiet(m) {
      if m.sock.writing {
        WritesOut(m);
      } else {
        AwakeEmpty(m);
        NothingToWrite(m);
      }
    }
  }

  lemma AwakeEmpty(n: Net)
    requires Awake(n) && n.force.NotClosing? && Live(n.sock) && n.sock.typ != HalfcloseWrite && n.sock.dw.None? && !n.sock.writing
    ensures Line(n.sock) == []
  {
  }

  lemma NothingInHand(n: Net)
    requires Initial(n)
    ensures Conserved(n)
  {
    AllIdle(n.senders);
    assert Line(n.sock) == [];
  }

  lemma {:induction false} AllIdle(ps: seq<Phase>)
    requires forall k :: 0 <= k < |ps| ==> ps[k].Idle?
    ensures InHands(ps) == multiset{}
  {
    if |ps| > 0 { AllIdle(ps[1..]); }
  }

  predicate Disciplined(n: Net) { CountInv(n) && WakeInv(n) && WriteInv(n) && !n.crashed }

  lemma {:induction false} DisciplinedAlways(n: Net, steps: seq<Step>)
    requires Disciplined(n) && ProperRun(n, steps)
    ensures Run(n, steps) && Disciplined(After(n, steps))
    decreases |steps|
  {
    hide CountInv, WakeInv, WriteInv, Next, Enabled, Careful, MidCheck;
    if |steps| > 0 {
      CountKept(n, steps[0]);
      WakeKept(n, steps[0]);
      WriteInvKept(n, steps[0]);
      DisciplinedAlways(Next(n, steps[0]), steps[1..]);
    }
  }

  /**
   When ids are used properly, the assert of dec_sending_ref never fails, the counter is the number
   of messages on their way, and whatever waits on a writable socket has a write event coming.
   */
  lemma ProperUse(n: Net, steps: seq<Step>)
    requires Initial(n) && ProperRun(n, steps)
    ensures Run(n, steps) && !After(n, steps).crashed && CountInv(After(n, steps)) && Awake(After(n, steps))
  {
    hide ProperRun, Run, After, CountInv, WriteInv, Awake;
    InitialWriteInv(n);
    assert CountInv(n) && Awake(n) by { InitialCounts(n); }
    DisciplinedAlways(n, steps);
  }

  lemma InitialCounts(n: Net)
    requires Initial(n)
    ensures CountInv(n) && Awake(n)
  {
  }

  /** A graceful close that ends the socket at once has nothing left to lose: no message waits, none is on its way. */
  lemma GracefulCloseLosesNothing(n: Net)
    requires CountInv(n) && Enabled(n, Serve) && n.pipe[0].CloseIt? && !n.pipe[0].shutdown
    requires n.pipe[0].id == n.sock.id && n.sock.typ != Invalid && n.sock.typ != HalfcloseWrite
    requires ServeOne(n).force.Freed?
    ensures ServeOne(n).dropped == n.dropped && n.sock.dw.None?
    ensures forall j :: 0 <= j < |n.pipe| ==> !IsSend(n.pipe[j], n.sock.id)
  {
    SendsNone(n.pipe, n.sock.id);
    OneName(Buffer(Message(0, []), 0));
    assert n.sock.high + n.sock.low == [];
  }

  /** What every run of careful steps keeps. */
  lemma {:induction false} CarefulAlways(n: Net, steps: seq<Step>)
    requires CountInv(n) && WriteInv(n) && ReadsBounded(n) && !n.crashed && CarefulRun(n, steps)
    ensures Run(n, steps)
    ensures var m := After(n, steps); CountInv(m) && WriteInv(m) && ReadsBounded(m) && !m.crashed
    decreases |steps|
  {
    hide CountInv, WriteInv, ReadsBounded, Next, Enabled, Careful;
    if |steps| > 0 {
      CountKept(n, steps[0]);
      assert LockHeld(n) by { LockPart(n); }
      WriteInvKept(n, steps[0]);
      BoundKept(n, steps[0]);
      CarefulAlways(Next(n, steps[0]), steps[1..]);
    }
  }

  lemma LockPart(n: Net)
    requires WriteInv(n)
    ensures LockHeld(n)
  {
  }

  /**
   When the assert of dec_sending_ref can fail: after any run of careful steps it has not failed
   and the counter is exact; one more careful step leaves that so, and one careless step is enough
   for some continuation to end in the assert failing.
   */
  lemma AssertNeedsCare(n: Net, steps: seq<Step>, step: Step)
    requires Initial(n) && CarefulRun(n, steps)
    ensures Run(n, steps) && !After(n, steps).crashed && CountInv(After(n, steps))
    ensures Enabled(After(n, steps), step) ==>
      (Careful(After(n, steps), step) ==> !Next(After(n, steps), step).crashed)
      && (!Careful(After(n, steps), step) ==> CanCrash(Next(After(n, steps), step)))
  {
    hide CarefulRun, Run, After, CountInv, WriteInv, Enabled, Next, CanCrash, Careful;
    InitialWriteInv(n);
    assert CountInv(n) && ReadsBounded(n) && !n.crashed by { InitialCounts(n); }
    CarefulAlways(n, steps);
    if Enabled(After(n, steps), step) {
      AssertExactly(After(n, steps), step);
    }
  }

  /** The same for the wake-up of what waits: which slots may be reserved while a sender is checking one. */
  lemma WakeNeedsLock(n: Net, steps: seq<Step>, id: nat, w: nat)
    requires Initial(n) && CarefulRun(n, steps)
    ensures Run(n, steps)
    ensures var m := After(n, steps);
      Enabled(m, ReserveId(id)) && MidCheck(m) && Unused(m, id) && w < |m.senders[m.lock.value].m.data| ==>
      CanMisdeliver(Next(m, ReserveId(id)), id, m.senders[m.lock.value].m, w)
  {
    hide CarefulRun, Run, After, CountInv, WriteInv, Enabled, Next, CanMisdeliver, Unused;
    InitialWriteInv(n);
    assert CountInv(n) && ReadsBounded(n) && !n.crashed by { InitialCounts(n); }
    CarefulAlways(n, steps);
    var m := After(n, steps);
    if Enabled(m, ReserveId(id)) && MidCheck(m) && Unused(m, id) && w < |m.senders[m.lock.value].m.data| {
      MidCheckMisdelivers(m, id, w);
    }
  }

  /** One such run: a send on the id that the first step reserves. */
  lemma EarlySendCrashes() returns (n: Net)
    ensures Initial(n) && CanCrash(n)
  {
    n := Net(Sock(0, Invalid, false, false, false, [], [], 0, None, 0, 0, []), [Idle, Idle], None, [], NotClosing,
      0, true, false, false, multiset{}, multiset{}, multiset{});
    InitialTwo(n);
    var st := Next(n, ReserveId(1));
    assert CarefulRun(n, [ReserveId(1)]) && Run(n, [ReserveId(1)]) && After(n, [ReserveId(1)]) == st by {
      assert [ReserveId(1)][1..] == [];
    }
    hide CanCrash, Run, After;
    assert EarlySend(st, Begin(0, 1, HELLO)) && Enabled(st, Begin(0, 1, HELLO));
    AssertNeedsCare(n, [ReserveId(1)], Begin(0, 1, HELLO));
    Back(st, Begin(0, 1, HELLO));
    Back(n, ReserveId(1));
  }
}
