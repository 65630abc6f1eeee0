/** What is raised, counted, woken and conserved over the runs of the socket protocol. */
module SocketAccounting {
  import opened Common
  import opened Wire
  import opened SocketSpec
  import opened SocketSlot
  import opened SocketProtocol
  import opened SocketSafety

  // ---------- SOCKET_CLOSE ----------

  /**
   While the socket is in use SOCKET_CLOSE has been raised exactly if its type is HALFCLOSE_READ;
   once it is given up it has been raised exactly once, unless SOCKET_ERR refused the connection.
   */
  predicate CloseInv(n: Net) {
    (n.force.Freed? ==> Live(n.sock) && n.closes == if n.refused then 0 else 1)
    && (n.force.NotClosing? && n.sock.typ == Invalid ==> n.closes == if n.refused then 0 else 1)
    && (n.force.NotClosing? && n.sock.typ != Invalid ==>
         !n.refused && n.closes == if n.sock.typ == HalfcloseRead then 1 else 0)
    && (Live(n.sock) && n.sock.closing ==> n.force.Freed? || n.sock.typ == HalfcloseRead)
  }

  /** What send_buffer can do to the type. */
  lemma SendBufferType(s: Sock, ws: seq<WriteResult>)
    ensures var (s', r) := SendBuffer(s, ws);
      s'.closing == s.closing && r != Close && s'.id == s.id && s'.tag == s.tag && s'.count == s.count && s'.tcp == s.tcp
      && (s'.typ == s.typ
          || (s'.typ == HalfcloseWrite && s.typ != HalfcloseRead && !s.closing)
          || (s'.typ == Invalid && (s.closing || s.typ == HalfcloseRead)))
  {
    hide SendList, Uncomplete, Left, Remaining;
  }

  lemma CloseKept(n: Net, step: Step)
    requires CloseInv(n) && Enabled(n, step)
    ensures CloseInv(Next(n, step))
  {
    hide SendBuffer, Named, Line, Since, NoMoreSending, Uncomplete, Direct, ServeOne, SenderNext, Phased, WriteDone,
      Forced, ReadEnd;
    if SocketThread(step) {
      match step
      case WriteEvent(ws) => CloseKeptWriting(n, ws);
      case Serve => CloseKeptServing(n);
      case ReadZero => CloseKeptReading(n);
      case HangUp => CloseKeptHungUp(n);
      case _ =>
    } else if SenderStep(step) {
      assert Phased(n, step);
      SenderLeaves(n, step);
    }
  }

  lemma CloseKeptReading(n: Net)
    requires CloseInv(n) && n.force.NotClosing? && Live(n.sock)
    ensures var (s, force, r) := ReadEnd(n.sock); CloseInv(Forced(n, s, force, r))
  {
    hide Named, NoMoreSending, Uncomplete;
  }

  lemma CloseKeptHungUp(n: Net)
    requires CloseInv(n) && n.force.NotClosing? && Live(n.sock)
    ensures CloseInv(Forced(n, n.sock, true, if n.sock.typ == HalfcloseRead then Nothing else Close))
  {
    hide Named, Uncomplete;
  }

  lemma CloseKeptWriting(n: Net, ws: seq<WriteResult>)
    requires CloseInv(n) && Enabled(n, WriteEvent(ws))
    ensures CloseInv(WriteDone(n, ws))
  {
    hide SendBuffer, Named, Line, Since, Whole;
    SendBufferType(n.sock, ws);
  }

  lemma CloseKeptServing(n: Net)
    requires CloseInv(n) && Enabled(n, Serve)
    ensures CloseInv(ServeOne(n))
  {
    hide SendSocket, Named, NoMoreSending, Uncomplete, DecSending, CloseSocket, Forced;
    if n.pipe[0].Send? {
      var r := n.pipe[0];
      SendSocketType(n.sock, r.id, r.m, r.low);
      OnlyCount(SendSocket(n.sock, r.id, r.m, r.low).0, r.id);
    } else if n.pipe[0].CloseIt? && n.sock.typ != Invalid && n.sock.id == n.pipe[0].id {
      CloseKeptClosing(n.(pipe := n.pipe[1..]), n.pipe[0].shutdown);
    }
  }

  lemma CloseKeptClosing(n: Net, shutdown: bool)
    requires CloseInv(n) && n.force.NotClosing? && Live(n.sock)
    ensures var (s, force, r) := CloseSocket(n.sock, shutdown); CloseInv(Forced(n, s, force, r))
  {
    hide Named, NoMoreSending, Uncomplete;
  }

  lemma SendSocketType(s: Sock, id: nat, m: Message, low: bool)
    ensures var s' := SendSocket(s, id, m, low).0;
      s' == s.(high := s'.high, low := s'.low, wb := s'.wb, writing := s'.writing)
  {
  }

  /** A sender changes of the slot only the counter, the stream and the direct write buffer. */
  lemma SenderLeaves(n: Net, step: Step)
    requires SenderStep(step) && Phased(n, step)
    ensures Spared(n, SenderNext(n, step))
  {
    hide ReadHolds, Min, Written, Checked, DirectDone;
    if step.Check? {
      CheckLeaves(n, step.k);
    } else if step.WriteDirect? {
      DirectLeaves(n, step.k, step.offered);
    }
  }

  predicate Spared(n: Net, n': Net) {
    n'.sock == n.sock.(count := n'.sock.count, fd := n'.sock.fd, dw := n'.sock.dw)
    && n'.force == n.force && n'.closes == n.closes && n'.refused == n.refused && n'.crashed == n.crashed
  }

  lemma CheckLeaves(n: Net, k: nat)
    requires Phased(n, Check(k))
    ensures Spared(n, Checked(n, k))
  {
    hide ReadHolds;
  }

  lemma DirectLeaves(n: Net, k: nat, offered: nat)
    requires Phased(n, WriteDirect(k, offered))
    ensures Spared(n, DirectDone(n, k, offered))
  {
    hide Written, Min;
  }

  lemma {:induction false} CloseAlways(n: Net, steps: seq<Step>)
    requires CloseInv(n) && Run(n, steps)
    ensures CloseInv(After(n, steps))
    decreases |steps|
  {
    hide CloseInv, Next, Enabled;
    if |steps| > 0 {
      CloseKept(n, steps[0]);
      CloseAlways(Next(n, steps[0]), steps[1..]);
    }
  }

  /** Between a reservation and the return to INVALID, SOCKET_CLOSE is raised once, or not at all when SOCKET_ERR told of a failed connection. */
  lemma CloseRaisedOnce(n: Net, steps: seq<Step>)
    requires Initial(n) && Run(n, steps)
    ensures var m := After(n, steps);
      m.closes <= 1 && (m.sock.typ == Invalid && !m.refused ==> m.closes == 1) && (m.refused ==> m.closes == 0)
  {
    hide Run, After;
    assert CloseInv(n);
    CloseAlways(n, steps);
  }

  // ---------- conservation ----------

  function InHand(p: Phase): multiset<Message> {
    match p
    case Ready(_, m) => multiset{m}
    case Checking(_, m, _) => multiset{m}
    case Doubtful(_, m) => multiset{m}
    case Fallback(_, m, _) => multiset{m}
    case Queue(_, m, _, _) => multiset{m}
    case _ => multiset{}
  }

  function InHands(ps: seq<Phase>): multiset<Message> {
    if |ps| == 0 then multiset{} else InHand(ps[0]) + InHands(ps[1..])
  }

  function InPipe(rs: seq<Request>): multiset<Message> {
    if |rs| == 0 then multiset{}
    else InPipe(rs[..|rs| - 1]) + (if rs[|rs| - 1].Send? then multiset{rs[|rs| - 1].m} else multiset{})
  }

  /** Every submitted message is in one place: with its sender, in the pipe, waiting on the slot, written whole, or freed. */
  predicate Conserved(n: Net) {
    n.submitted == InHands(n.senders) + InPipe(n.pipe) + multiset(Named(Line(n.sock))) + n.finished + n.dropped
  }

  lemma {:induction false} HandsMove(ps: seq<Phase>, k: nat, p: Phase)
    requires k < |ps|
    ensures InHands(ps[k := p]) + InHand(ps[k]) == InHands(ps) + InHand(p)
  {
    hide InHand;
    if k == 0 {
      assert ps[k := p][1..] == ps[1..];
    } else {
      var qs, rest := ps[k := p], ps[1..];
      assert rest[k - 1] == ps[k];
      assert qs[0] == ps[0] && qs[1..] == rest[k - 1 := p];
      HandsMove(rest, k - 1, p);
      var a, b := InHands(qs[1..]), InHands(rest);
      assert a + InHand(ps[k]) == b + InHand(p);
      var h, c, d := InHand(ps[0]), InHand(ps[k]), InHand(p);
      assert InHands(qs) == h + a && InHands(ps) == h + b;
      assert (h + a) + c == h + (a + c) && (h + b) + d == h + (b + d);
    }
  }

  lemma PipePush(rs: seq<Request>, r: Request)
    ensures InPipe(rs + [r]) == InPipe(rs) + (if r.Send? then multiset{r.m} else multiset{})
  {
    assert (rs + [r])[..|rs|] == rs;
  }

  lemma {:induction false} PipePop(rs: seq<Request>)
    requires |rs| > 0
    ensures InPipe(rs) == (if rs[0].Send? then multiset{rs[0].m} else multiset{}) + InPipe(rs[1..])
  {
    if |rs| == 1 {
      assert rs[..0] == [] && rs[1..] == [];
    } else {
      PipePop(rs[..|rs| - 1]);
      assert rs[..|rs| - 1][1..] == rs[1..][..|rs| - 2];
    }
  }

  lemma LineNames(s: Sock)
    ensures multiset(Named(Line(s))) == multiset(Named(Direct(s))) + multiset(Named(s.high)) + multiset(Named(s.low))
    ensures multiset(Named(s.high + s.low)) == multiset(Named(s.high)) + multiset(Named(s.low))
  {
    NamedAppend(Direct(s) + s.high, s.low);
    NamedAppend(Direct(s), s.high);
    NamedAppend(s.high, s.low);
  }

  lemma SendSocketNames(s: Sock, id: nat, m: Message, low: bool)
    ensures var (s', kept) := SendSocket(s, id, m, low);
      multiset(Named(Line(s'))) == multiset(Named(Line(s))) + if kept then multiset{m} else multiset{}
  {
    hide Line, Named, Direct;
    LineNames(s);
    var (s', kept) := SendSocket(s, id, m, low);
    LineNames(s');
    NamedAppend(s.high, [Buffer(m, 0)]);
    NamedAppend(s.low, [Buffer(m, 0)]);
    OneName(Buffer(m, 0));
    SameDirect(s, s');
    if Empty(s) { assert s.high + [Buffer(m, 0)] == [Buffer(m, 0)]; }
  }

  lemma SameDirect(s: Sock, t: Sock)
    requires t.dw == s.dw
    ensures Direct(t) == Direct(s)
  {
  }

  lemma OneName(b: Buffer)
    ensures Named([b]) == [b.m] && Named([]) == []
  {
    assert [b][1..] == [];
  }

  /** Forcing the slot closed moves what the lists held to the freed messages. */
  lemma StartForceConserves(n: Net)
    requires Conserved(n)
    ensures Conserved(StartForce(n))
  {
    hide InHands, InPipe, Line;
    LineNames(n.sock);
    LineNames(FreeLists(n.sock));
    assert Direct(FreeLists(n.sock)) == Direct(n.sock);
  }

  /** The conservation of one write event, from its order. */
  lemma WriteConserves(n: Net, ws: seq<WriteResult>)
    requires Conserved(n) && Sound(n.sock) && Live(n.sock)
    ensures Conserved(WriteDone(n, ws))
  {
    hide Line, SendBuffer, Whole, Sound, Since, Named, Conserved, WriteDone;
    SendBufferKeeps(n.sock, ws);
    WriteShape(n, ws);
    var s := SendBuffer(n.sock, ws).0;
    var before, after, line, left := Whole(n.sock.fd), Whole(s.fd), Named(Line(n.sock)), Named(Line(s));
    Divided(before, after, line, left, Live(s));
    if !Live(s) { GoneNames(n.sock, ws); }
    var done := Since(before, after);
    Balance(n, WriteDone(n, ws), multiset(done), multiset(if Live(s) then [] else Since(done, line)));
  }

  lemma WriteShape(n: Net, ws: seq<WriteResult>)
    ensures var s, m := SendBuffer(n.sock, ws).0, WriteDone(n, ws);
      var done := Since(Whole(n.sock.fd), Whole(s.fd));
      var lost := if Live(s) then [] else Since(done, Named(Line(n.sock)));
      m.sock == s && m.senders == n.senders && m.pipe == n.pipe && m.submitted == n.submitted
      && m.finished == n.finished + multiset(done) && m.dropped == n.dropped + multiset(lost)
  {
    hide Line, SendBuffer, Whole, Since, Named, Live;
  }

  lemma Balance(n: Net, after: Net, done: multiset<Message>, lost: multiset<Message>)
    requires Conserved(n) && after.senders == n.senders && after.pipe == n.pipe && after.submitted == n.submitted
    requires after.finished == n.finished + done && after.dropped == n.dropped + lost
    requires multiset(Named(Line(n.sock))) == done + lost + multiset(Named(Line(after.sock)))
    ensures Conserved(after)
  {
    hide Line, Named, InHands, InPipe;
  }

  lemma Divided(before: seq<Message>, after: seq<Message>, line: seq<Message>, left: seq<Message>, live: bool)
    requires before <= after && if live then after + left == before + line else after <= before + line
    ensures var done := Since(before, after);
      if live then multiset(line) == multiset(done) + multiset(left)
      else multiset(line) == multiset(done) + multiset(Since(done, line))
  {
    var done := after[|before|..];
    assert after == before + done;
    if live {
      assert (before + (done + left))[|before|..] == (before + line)[|before|..];
      assert done + left == line;
    } else {
      assert done == (before + line)[|before|..|after|];
      assert line == done + line[|done|..];
    }
  }

  lemma GoneNames(s: Sock, ws: seq<WriteResult>)
    requires Sound(s) && Live(s)
    ensures !Live(SendBuffer(s, ws).0) ==> Named(Line(SendBuffer(s, ws).0)) == []
  {
    hide SendBuffer, InOrder;
    SendBufferKeeps(s, ws);
    if !Live(SendBuffer(s, ws).0) { NothingWaits(SendBuffer(s, ws).0); }
  }

  /** What `Conserved` looks at besides the messages the slot holds. */
  predicate SameBooks(n: Net, after: Net) {
    after.senders == n.senders && after.pipe == n.pipe && after.submitted == n.submitted
    && after.finished == n.finished && after.dropped == n.dropped
  }

  lemma SameLineConserves(n: Net, after: Net)
    requires Conserved(n) && SameBooks(n, after)
    requires after.sock.dw == n.sock.dw && after.sock.high == n.sock.high && after.sock.low == n.sock.low
    ensures Conserved(after)
  {
    assert Line(after.sock) == Line(n.sock);
    hide Line, InHands, InPipe, Named;
  }

  lemma ForcedConserves(n: Net, s: Sock, force: bool, r: Raised)
    requires Conserved(n) && s.dw == n.sock.dw && s.high == n.sock.high && s.low == n.sock.low
    ensures Conserved(Forced(n, s, force, r))
  {
    hide Conserved;
    var n1 := Raise(n.(sock := s), r);
    SameLineConserves(n, n1);
    StartForceConserves(n1);
  }

  lemma FinishConserves(n: Net)
    requires Conserved(n) && StreamInv(n) && Enabled(n, FinishForce)
    ensures Conserved(Next(n, FinishForce))
  {
    var after := Next(n, FinishForce);
    assert Line(n.sock) == Direct(n.sock);
    NothingWaits(Invalidate(n.sock));
    LineFreed(n, after);
  }

  /** What waited has been freed. */
  lemma LineFreed(n: Net, after: Net)
    requires Conserved(n) && Line(after.sock) == []
    requires after == n.(sock := after.sock, force := NotClosing, dropped := n.dropped + multiset(Named(Line(n.sock))))
    ensures Conserved(after)
  {
    hide InHands, InPipe, Line;
    OneName(Buffer(Message(0, []), 0));
  }

  lemma ServeConserves(n: Net)
    requires Conserved(n) && |n.pipe| > 0
    ensures Conserved(ServeOne(n))
  {
    hide Conserved, SendSocket, CloseSocket, Forced, DecSending;
    var r, n1 := n.pipe[0], n.(pipe := n.pipe[1..]);
    PipePop(n.pipe);
    if r.Send? {
      SendServed(n);
    } else {
      assert Conserved(n1) by { PopOther(n); }
      if r.Trigger? {
        SameLineConserves(n1, ServeOne(n));
      } else if n.sock.typ != Invalid && n.sock.id == r.id {
        CloseSocketLine(n.sock, r.shutdown);
        var (s, force, raised) := CloseSocket(n.sock, r.shutdown);
        ForcedConserves(n1, s, force, raised);
      }
    }
  }

  lemma CloseSocketLine(s: Sock, shutdown: bool)
    ensures var t := CloseSocket(s, shutdown).0; t.dw == s.dw && t.high == s.high && t.low == s.low
  {
  }

  lemma PopOther(n: Net)
    requires Conserved(n) && |n.pipe| > 0 && !n.pipe[0].Send?
    ensures Conserved(n.(pipe := n.pipe[1..]))
  {
    hide InHands, InPipe, Line, Named;
    PipePop(n.pipe);
  }

  lemma SendServed(n: Net)
    requires Conserved(n) && |n.pipe| > 0 && n.pipe[0].Send?
    ensures Conserved(ServeOne(n))
  {
    hide InHands, InPipe, Line, Named, SendSocket, DecSending;
    var r := n.pipe[0];
    var (s, kept) := SendSocket(n.sock, r.id, r.m, r.low);
    PipePop(n.pipe);
    SendSocketNames(n.sock, r.id, r.m, r.low);
    OnlyCount(s, r.id);
    SameNames(s, ServeOne(n).sock);
  }

  lemma SameNames(s: Sock, t: Sock)
    requires t.dw == s.dw && t.high == s.high && t.low == s.low
    ensures Line(t) == Line(s)
  {
  }

  lemma SocketConserves(n: Net, step: Step)
    requires Conserved(n) && Steady(n) && SocketThread(step) && Enabled(n, step)
    ensures Conserved(SocketNext(n, step))
  {
    hide Conserved, StartForce, WriteDone, ServeOne, Forced, Sound, Parse, Invalidate, NoMoreSending;
    match step
    case WriteEvent(ws) => WriteConserves(n, ws);
    case Serve => ServeConserves(n);
    case FinishForce => FinishConserves(n);
    case ReadZero =>
      var (s, force, r) := ReadEnd(n.sock);
      ForcedConserves(n, s, force, r);
    case HangUp => ForcedConserves(n, n.sock, true, if n.sock.typ == HalfcloseRead then Nothing else Close);
    case ConnectFailed =>
      StartForceConserves(n);
      SameLineConserves(StartForce(n), SocketNext(n, step));
    case OpenFd(typ) =>
      FreshSound(n.sock, typ);
      SameLineConserves(n, SocketNext(n, step));
    case OpenFailed => SameLineConserves(n, SocketNext(n, step));
    case ConnectOk => SameLineConserves(n, SocketNext(n, step));
    case Resume => SameLineConserves(n, SocketNext(n, step));
    case _ =>
  }

  /** The messages a sender's step moves between its hand and the other places. */
  lemma SenderConserves(n: Net, step: Step)
    requires Conserved(n) && Steady(n) && LockHeld(n) && SenderStep(step) && Phased(n, step)
    ensures Conserved(SenderNext(n, step))
  {
    hide Conserved, Steady, LockHeld, InHands, InHand, Checked, DirectDone, SenderNext;
    var k := step.k;
    if step.WriteDirect? {
      Regroup(n);
      DirectConserves(n, k, step.offered);
      NextIs(n, step);
    } else if step.Check? {
      CheckMovesMessage(n, k);
      Kept(n, Checked(n, k), k);
      NextIs(n, step);
    } else if step.PostSend? {
      PostSendConserves(n, k);
    } else if step.PostTrigger? {
      PostTriggerConserves(n, k);
    } else if step.Begin? || step.BeginLow? {
      BeginConserves(n, step);
    } else {
      OnwardConserves(n, step);
    }
  }

  lemma NextIs(n: Net, step: Step)
    requires SenderStep(step) && Phased(n, step)
    ensures step.WriteDirect? ==> SenderNext(n, step) == DirectDone(n, step.k, step.offered)
    ensures step.Check? ==> SenderNext(n, step) == Checked(n, step.k)
  {
    hide Checked, DirectDone;
  }

  /** A step that leaves every message where it is. */
  lemma Kept(n: Net, after: Net, k: nat)
    requires Conserved(n) && k < |n.senders| == |after.senders| && after.senders == n.senders[k := after.senders[k]]
    requires InHand(after.senders[k]) == InHand(n.senders[k]) && InPipe(after.pipe) == InPipe(n.pipe)
    requires after.sock.dw == n.sock.dw && after.sock.high == n.sock.high && after.sock.low == n.sock.low
    requires after.submitted == n.submitted && after.finished == n.finished && after.dropped == n.dropped
    ensures Conserved(after)
  {
    hide InHand, InHands, InPipe, Line, Named;
    HandsMove(n.senders, k, after.senders[k]);
    SameNames(n.sock, after.sock);
    SameSum(InHands(after.senders), InHands(n.senders), InHand(n.senders[k]));
  }

  lemma SameSum(x: multiset<Message>, y: multiset<Message>, a: multiset<Message>)
    requires x + a == y + a
    ensures x == y
  {
    forall m ensures x[m] == y[m] {
      assert (x + a)[m] == (y + a)[m];
    }
  }

  lemma OnwardConserves(n: Net, step: Step)
    requires Conserved(n) && SenderStep(step) && Phased(n, step) && (step.TryLock? || step.GiveUp? || step.Count?)
    ensures Conserved(SenderNext(n, step))
  {
    hide Conserved, InHands;
    Kept(n, SenderNext(n, step), step.k);
  }

  lemma PostTriggerConserves(n: Net, k: nat)
    requires Conserved(n) && Phased(n, PostTrigger(k))
    ensures Conserved(SenderNext(n, PostTrigger(k)))
  {
    hide Conserved, InHands;
    PipePush(n.pipe, Request.Trigger(n.senders[k].id));
    Kept(n, SenderNext(n, PostTrigger(k)), k);
  }

  lemma PostSendConserves(n: Net, k: nat)
    requires Conserved(n) && Phased(n, PostSend(k))
    ensures Conserved(SenderNext(n, PostSend(k)))
  {
    hide InHands, InPipe, Line, Named;
    var p, after := n.senders[k], SenderNext(n, PostSend(k));
    PipePush(n.pipe, Send(p.id, p.m, p.low, p.counted));
    HandsMove(n.senders, k, Idle);
    assert InHands(n.senders) == InHands(after.senders) + multiset{p.m};
  }

  lemma BeginConserves(n: Net, step: Step)
    requires Conserved(n) && SenderStep(step) && Phased(n, step) && (step.Begin? || step.BeginLow?)
    ensures Conserved(SenderNext(n, step))
  {
    var k, after := step.k, SenderNext(n, step);
    BeginNext(n, step);
    hide Conserved, InHands, SenderNext;
    if after.senders[k] == Idle {
      Refused(n, after, step.m);
    } else {
      HandsMove(n.senders, k, after.senders[k]);
      Gained(n, after, step.m);
    }
  }

  lemma BeginNext(n: Net, step: Step)
    requires SenderStep(step) && Phased(n, step) && (step.Begin? || step.BeginLow?)
    ensures var k, m, after := step.k, step.m, SenderNext(n, step);
      n.senders[k] == Idle && |after.senders| == |n.senders| &&
      if after.senders[k] == Idle then after == n.(submitted := n.submitted + multiset{m}, dropped := n.dropped + multiset{m})
      else InHand(after.senders[k]) == multiset{m} && after.senders == n.senders[k := after.senders[k]]
           && after == n.(submitted := n.submitted + multiset{m}, senders := after.senders)
  {
    hide Checked, DirectDone, IncSending;
  }

  lemma Refused(n: Net, after: Net, m: Message)
    requires Conserved(n)
    requires after == n.(submitted := n.submitted + multiset{m}, dropped := n.dropped + multiset{m})
    ensures Conserved(after)
  {
    hide InHands, InPipe, Line, Named;
  }

  lemma Gained(n: Net, after: Net, m: Message)
    requires Conserved(n) && after == n.(submitted := n.submitted + multiset{m}, senders := after.senders)
    requires InHands(after.senders) == InHands(n.senders) + multiset{m}
    ensures Conserved(after)
  {
    hide InHands, InPipe, Line, Named;
  }

  /** A read moves the checking sender on, or back to the pipe, with its message. */
  lemma CheckMovesMessage(n: Net, k: nat)
    requires Phased(n, Check(k))
    ensures var after := Checked(n, k);
      after.senders == n.senders[k := after.senders[k]] && |after.senders| == |n.senders|
      && InHand(after.senders[k]) == InHand(n.senders[k])
      && after == n.(senders := after.senders, lock := after.lock)
  {
    hide ReadHolds, InHand, With;
    var p := n.senders[k];
    SameHand(p);
    WithIs(n, k);
  }

  lemma SameHand(p: Phase)
    requires Holds(p)
    ensures InHand(p) == multiset{p.m} && InHand(Doubtful(p.id, p.m)) == multiset{p.m} && InHand(Fallback(p.id, p.m, false)) == multiset{p.m}
    ensures forall j :: InHand(Checking(p.id, p.m, j)) == multiset{p.m}
  {
  }

  lemma WithIs(n: Net, k: nat)
    requires k < |n.senders|
    ensures forall q :: With(n, k, q) == n.(senders := n.senders[k := q])
  {
  }

  /** A direct write finishes its message, or leaves it in a direct write buffer that was empty. */
  lemma DirectConserves(n: Net, k: nat, offered: nat)
    requires Conserved(n) && HolderInv(n) && LockHeld(n) && Phased(n, WriteDirect(k, offered))
    ensures Conserved(DirectDone(n, k, offered))
  {
    hide Conserved, DirectDone, HolderInv, LockHeld;
    NoDirect(n, k);
    if Min(offered, |n.senders[k].m.data|) == |n.senders[k].m.data| {
      DirectFinishes(n, k, offered);
    } else {
      DirectStays(n, k, offered);
    }
  }

  lemma DirectFinishes(n: Net, k: nat, offered: nat)
    requires Conserved(n) && k < |n.senders| && n.senders[k].Checking?
    requires Min(offered, |n.senders[k].m.data|) == |n.senders[k].m.data|
    ensures Conserved(DirectDone(n, k, offered))
  {
    hide InHands, Written, Line, Named, InPipe, Min;
    var m, after := n.senders[k].m, DirectDone(n, k, offered);
    HandsMove(n.senders, k, Idle);
    assert InHands(after.senders) + multiset{m} == InHands(n.senders);
    SameNames(n.sock, after.sock);
  }

  lemma DirectStays(n: Net, k: nat, offered: nat)
    requires Conserved(n) && k < |n.senders| && n.senders[k].Checking? && n.sock.dw.None?
    requires Min(offered, |n.senders[k].m.data|) != |n.senders[k].m.data|
    ensures Conserved(DirectDone(n, k, offered))
  {
    hide InHands, Written, Line, Named, InPipe, Min;
    var m, after := n.senders[k].m, DirectDone(n, k, offered);
    HandsMove(n.senders, k, Notify(n.senders[k].id));
    assert InHands(after.senders) + multiset{m} == InHands(n.senders);
    LeftDirect(n.sock, after.sock, Buffer(m, Min(offered, |m.data|)));
  }

  lemma NoDirect(n: Net, k: nat)
    requires HolderInv(n) && LockHeld(n) && k < |n.senders| && n.senders[k].Checking? && n.senders[k].passed == READS
    ensures n.sock.dw.None?
  {
  }

  lemma LeftDirect(s: Sock, t: Sock, b: Buffer)
    requires s.dw.None? && t.dw == Some(b) && t.high == s.high && t.low == s.low
    ensures multiset(Named(Line(t))) == multiset(Named(Line(s))) + multiset{b.m}
  {
    hide Line, Named;
    LineNames(s);
    LineNames(t);
    OneName(b);
  }

  lemma ConservedKept(n: Net, step: Step)
    requires Conserved(n) && WriteInv(n) && Enabled(n, step)
    ensures Conserved(Next(n, step))
  {
    hide Conserved, Steady, StreamInv, HolderInv, LockHeld, SocketNext, SenderNext;
    Regroup(n);
    if SocketThread(step) {
      SocketConserves(n, step);
    } else if SenderStep(step) {
      SenderConserves(n, step);
    } else {
      OutsideConserves(n, step);
    }
  }

  lemma OutsideConserves(n: Net, step: Step)
    requires Conserved(n) && Enabled(n, step) && (step.ReserveId? || step.PostClose?)
    ensures Conserved(Next(n, step))
  {
    hide InHands, Named;
    if step.PostClose? {
      PipePush(n.pipe, CloseIt(step.id, step.shutdown));
    } else {
      SameNames(n.sock, Next(n, step).sock);
    }
  }

  /** Messages are conserved over every run: none is lost, repeated or freed twice. */
  lemma {:induction false} ConservedAlways(n: Net, steps: seq<Step>)
    requires Conserved(n) && WriteInv(n) && Run(n, steps)
    ensures Conserved(After(n, steps))
    decreases |steps|
  {
    hide Conserved, WriteInv, Next, Enabled;
    if |steps| > 0 {
      ConservedKept(n, steps[0]);
      WriteInvKept(n, steps[0]);
      ConservedAlways(Next(n, steps[0]), steps[1..]);
    }
  }
}
