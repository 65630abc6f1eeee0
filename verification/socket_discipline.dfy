/**
 What also holds when an id is used only between its opening and its end: the counter of messages
 in flight is exact, so its assert holds and a graceful close finds nothing in flight; and
 whatever waits on a socket has a write event coming.
 */
module SocketDiscipline {
  import opened Common
  import opened Wire
  import opened SocketSpec
  import opened SocketSlot
  import opened SocketProtocol
  import opened SocketSafety
  import opened SocketAccounting

  predicate Mentions(p: Phase, id: nat) { !p.Idle? && p.id == id }

  /** A send on an id that is only reserved, which goes ahead. */
  predicate EarlySend(n: Net, step: Step) {
    (step.BeginLow? || (step.Begin? && !n.sock.closing)) && n.sock.typ == Reserved && n.sock.id == step.id
  }

  /** An id is reserved when no message for it is left over, and nobody sends on an id before it is open. */
  predicate Careful(n: Net, step: Step) {
    (step.ReserveId? ==> NoneSending(n, step.id)) && !EarlySend(n, step)
  }

  /** A sender holds the lock and has read the id of the slot. */
  predicate MidCheck(n: Net) {
    n.lock.Some? && n.lock.value < |n.senders| &&
    var p := n.senders[n.lock.value];
    Holds(p) && !(p.Checking? && p.passed == 0)
  }

  /** Careful, and no slot is reserved while a sender is between its reads of it. */
  predicate Proper(n: Net, step: Step) { Careful(n, step) && (step.ReserveId? ==> !MidCheck(n)) }

  predicate ProperRun(n: Net, steps: seq<Step>)
    decreases |steps|
  {
    |steps| > 0 ==> Enabled(n, steps[0]) && Proper(n, steps[0]) && ProperRun(Next(n, steps[0]), steps[1..])
  }

  predicate CarefulRun(n: Net, steps: seq<Step>)
    decreases |steps|
  {
    |steps| > 0 ==> Enabled(n, steps[0]) && Careful(n, steps[0]) && CarefulRun(Next(n, steps[0]), steps[1..])
  }

  // ---------- wake-ups ----------

  /** The lock's holder, past its first read, checks the slot under the id the slot has. */
  predicate IdInv(n: Net) {
    n.lock.Some? && n.lock.value < |n.senders| ==>
      var p := n.senders[n.lock.value];
      (p.Checking? && p.passed > 0 ==> p.id == n.sock.id) && (p.Doubtful? ==> p.id == n.sock.id)
  }

  /** What waits on a socket that can still write has a write event enabled, or a request for one on its way. */
  predicate Awake(n: Net) {
    n.force.NotClosing? && Live(n.sock) && n.sock.typ != HalfcloseWrite ==>
      (!Empty(n.sock) ==> n.sock.writing)
      && (n.sock.dw.Some? ==>
           n.sock.writing || Request.Trigger(n.sock.id) in n.pipe || Notify(n.sock.id) in n.senders)
  }

  predicate WakeInv(n: Net) { IdInv(n) && Awake(n) }

  /** send_buffer turns the write event off only when nothing waits. */
  lemma SendBufferWakes(s: Sock, ws: seq<WriteResult>)
    requires s.writing
    ensures var t := SendBuffer(s, ws).0;
      t.dw.None? && (Live(t) && t.typ != HalfcloseWrite && !Empty(t) ==> t.writing)
  {
    hide SendList, Remaining, Uncomplete;
  }

  lemma SendSocketWakes(s: Sock, id: nat, m: Message, low: bool)
    requires !Empty(s) ==> s.writing
    ensures var t := SendSocket(s, id, m, low).0;
      (!Empty(t) ==> t.writing) && (s.writing ==> t.writing) && t.dw == s.dw && t.id == s.id && t.typ == s.typ
  {
  }

  lemma ServeWakes(n: Net)
    requires WakeInv(n) && Enabled(n, Serve)
    ensures WakeInv(ServeOne(n))
  {
    hide SendSocket, DecSending, StartForce, NoMoreSending, Uncomplete;
    var r := n.pipe[0];
    assert Request.Trigger(n.sock.id) in n.pipe && r != Request.Trigger(n.sock.id) ==> Request.Trigger(n.sock.id) in n.pipe[1..];
    if r.Send? {
      ServeSendWakes(n);
    } else if r.CloseIt? && n.sock.typ != Invalid && n.sock.id == r.id {
      ForcedWakes(n.(pipe := n.pipe[1..]), r.shutdown);
    }
  }

  lemma ServeSendWakes(n: Net)
    requires WakeInv(n) && Enabled(n, Serve) && n.pipe[0].Send?
    ensures WakeInv(ServeOne(n))
  {
    hide SendSocket, DecSending, IdInv, Live;
    var r, after := n.pipe[0], ServeOne(n);
    assert Request.Trigger(n.sock.id) in n.pipe ==> Request.Trigger(n.sock.id) in n.pipe[1..];
    var s := SendSocket(n.sock, r.id, r.m, r.low).0;
    SendSocketType(n.sock, r.id, r.m, r.low);
    OnlyCount(s, r.id);
    IdSame(n, after);
    if Live(n.sock) && n.sock.typ != HalfcloseWrite {
      SendSocketWakes(n.sock, r.id, r.m, r.low);
    }
    StillAwake(n, after, s);
  }

  lemma IdSame(n: Net, after: Net)
    requires IdInv(n) && after.senders == n.senders && after.lock == n.lock && after.sock.id == n.sock.id
    ensures IdInv(after)
  {
  }

  /** A message from the pipe has joined a list. */
  lemma StillAwake(n: Net, after: Net, s: Sock)
    requires Awake(n) && |n.pipe| > 0 && n.pipe[0].Send? && after.pipe == n.pipe[1..] && after.senders == n.senders
    requires after.force == n.force && n.force.NotClosing? && after.sock == s.(count := after.sock.count)
    requires s.typ == n.sock.typ && s.id == n.sock.id && s.dw == n.sock.dw
    requires Live(n.sock) && n.sock.typ != HalfcloseWrite ==> (!Empty(s) ==> s.writing) && (n.sock.writing ==> s.writing)
    ensures Awake(after)
  {
    assert Request.Trigger(n.sock.id) in n.pipe ==> Request.Trigger(n.sock.id) in n.pipe[1..];
  }

  lemma ForcedWakes(n: Net, shutdown: bool)
    requires WakeInv(n) && n.force.NotClosing? && Live(n.sock)
    ensures var (s, force, r) := CloseSocket(n.sock, shutdown); WakeInv(Forced(n, s, force, r))
  {
    hide Uncomplete, Named;
  }

  lemma SocketWakes(n: Net, step: Step)
    requires WakeInv(n) && Steady(n) && SocketThread(step) && Enabled(n, step)
    ensures WakeInv(SocketNext(n, step))
  {
    if step.Serve? {
      ServeWakes(n);
    } else if step.WriteEvent? {
      WriteWakes(n, step.ws);
    } else {
      EventWakes(n, step);
    }
  }

  lemma WriteWakes(n: Net, ws: seq<WriteResult>)
    requires WakeInv(n) && Enabled(n, WriteEvent(ws))
    ensures WakeInv(WriteDone(n, ws))
  {
    hide SendBuffer, Named, Whole, Since, Line;
    SendBufferWakes(n.sock, ws);
    SendBufferType(n.sock, ws);
  }

  lemma EventWakes(n: Net, step: Step)
    requires WakeInv(n) && Steady(n) && SocketThread(step) && Enabled(n, step) && !step.Serve? && !step.WriteEvent?
    ensures WakeInv(SocketNext(n, step))
  {
    var after := SocketNext(n, step);
    if step.OpenFd? {
      OpenWakes(n, step.typ);
    } else {
      hide Steady;
      EventSame(n, step);
      hide Enabled, SocketNext;
      SameAwake(n, after);
    }
  }

  lemma OpenWakes(n: Net, typ: Type)
    requires WakeInv(n) && Steady(n) && Enabled(n, OpenFd(typ))
    ensures WakeInv(SocketNext(n, OpenFd(typ)))
  {
    hide Parse, Named, HolderInv, Uncomplete;
    FreshSound(n.sock, typ);
  }

  /** The slot is given up, or what waits on it and its write event stay as they were. */
  predicate StaysAwake(s: Sock, s': Sock, force: Closing) {
    s'.id == s.id &&
    (force.Freed? || !Live(s') ||
     (Live(s) && s'.high == s.high && s'.low == s.low && s'.dw == s.dw
      && (s.typ == HalfcloseWrite ==> s'.typ == HalfcloseWrite)
      && (s'.writing == s.writing || (Empty(s') && s'.dw.None?))))
  }

  lemma EventSame(n: Net, step: Step)
    requires SocketThread(step) && Enabled(n, step) && !step.Serve? && !step.WriteEvent? && !step.OpenFd?
    ensures var after := SocketNext(n, step);
      StaysAwake(n.sock, after.sock, after.force) && n.senders == after.senders && n.pipe == after.pipe && n.lock == after.lock
  {
    hide StaysAwake, Named, Direct, Forced, ReadEnd, ConnectDone, Resumed;
    if step.ReadZero? {
      var (s, force, r) := ReadEnd(n.sock);
      ReadSame(n.sock);
      ForcedSame(n, s, force, r);
    } else if step.HangUp? {
      HangSame(n.sock, n.force);
      ForcedSame(n, n.sock, true, if n.sock.typ == HalfcloseRead then Nothing else Close);
    } else {
      ConnectSame(n.sock);
      HangSame(n.sock, n.force);
      assert StaysAwake(n.sock, SocketNext(n, step).sock, SocketNext(n, step).force) by { GivenUp(n, step); }
    }
  }

  lemma ReadSame(s: Sock)
    requires Live(s)
    ensures StaysAwake(s, ReadEnd(s).0, NotClosing) && s.typ != Invalid
  {
    hide NoMoreSending;
  }

  lemma HangSame(s: Sock, force: Closing)
    ensures Live(s) ==> StaysAwake(s, s, force)
  {
  }

  lemma ConnectSame(s: Sock)
    ensures s.typ == Connecting ==> StaysAwake(s, ConnectDone(s), NotClosing)
    ensures Polled(s.typ) && s.typ != HalfcloseRead ==> StaysAwake(s, Resumed(s), NotClosing)
  {
  }

  lemma GivenUp(n: Net, step: Step)
    requires SocketThread(step) && Enabled(n, step)
    requires step.OpenFailed? || step.ConnectOk? || step.ConnectFailed? || step.Resume? || step.FinishForce?
    ensures StaysAwake(n.sock, SocketNext(n, step).sock, SocketNext(n, step).force)
  {
    hide Named, Direct, Uncomplete;
  }

  lemma ForcedSame(n: Net, s: Sock, force: bool, r: Raised)
    requires StaysAwake(n.sock, s, NotClosing) && n.force.NotClosing?
    ensures var after := Forced(n, s, force, r);
      StaysAwake(n.sock, after.sock, after.force) && n.senders == after.senders && n.pipe == after.pipe && n.lock == after.lock
  {
    hide Named, Uncomplete;
  }

  lemma SameAwake(n: Net, after: Net)
    requires WakeInv(n) && StaysAwake(n.sock, after.sock, after.force)
    requires n.senders == after.senders && n.pipe == after.pipe && n.lock == after.lock
    ensures n.force.NotClosing? ==> WakeInv(after)
  {
  }

  lemma StillNotified(n: Net, k: nat, p: Phase, id: nat)
    requires k < |n.senders| && n.senders[k] != Notify(id) && Notify(id) in n.senders
    ensures Notify(id) in n.senders[k := p]
  {
    var j :| 0 <= j < |n.senders| && n.senders[j] == Notify(id);
    assert n.senders[k := p][j] == Notify(id);
  }

  lemma NowNotified(n: Net, k: nat, p: Phase)
    requires k < |n.senders|
    ensures p in n.senders[k := p]
  {
    assert n.senders[k := p][k] == p;
  }

  /** A step of a sender that is not about to post its trigger keeps what is awake awake. */
  lemma MoveWakes(n: Net, after: Net, k: nat)
    requires Awake(n) && k < |n.senders| && !n.senders[k].Notify? && |after.senders| == |n.senders|
    requires after.senders == n.senders[k := after.senders[k]] && after.force == n.force && n.pipe <= after.pipe
    requires after.sock == n.sock.(count := after.sock.count, fd := after.sock.fd, dw := after.sock.dw)
    requires after.sock.dw == n.sock.dw || after.senders[k] == Notify(n.sock.id)
    ensures Awake(after)
  {
    NowNotified(n, k, after.senders[k]);
    if Notify(n.sock.id) in n.senders { StillNotified(n, k, after.senders[k], n.sock.id); }
    assert forall r :: r in n.pipe ==> r in after.pipe by {
      forall r | r in n.pipe ensures r in after.pipe {
        var j :| 0 <= j < |n.pipe| && n.pipe[j] == r;
        assert after.pipe[j] == r;
      }
    }
  }

  lemma PostTriggerWakes(n: Net, k: nat)
    requires Awake(n) && Phased(n, PostTrigger(k))
    ensures Awake(SenderNext(n, PostTrigger(k)))
  {
    var id, me, after := n.sock.id, n.senders[k].id, SenderNext(n, PostTrigger(k));
    assert after.pipe == n.pipe + [Request.Trigger(me)];
    if me != id && Notify(id) in n.senders { StillNotified(n, k, Idle, id); }
  }

  /** Nothing about the id changes for the lock's holder. */
  lemma MoveKeepsId(n: Net, after: Net, k: nat)
    requires IdInv(n) && LockHeld(n) && OwnMove(n, after, k) && after.sock.id == n.sock.id
    requires Holds(after.senders[k]) ==>
      (n.lock == Some(k) || (after.senders[k].Checking? && after.senders[k].passed == 0))
    requires Holds(after.senders[k]) && n.lock == Some(k) ==>
      n.senders[k].id == after.senders[k].id
      && (n.senders[k].Doubtful? || n.senders[k].passed > 0 || n.senders[k].id == n.sock.id)
    ensures IdInv(after)
  {
    assert n.lock.Some? && n.lock.value < |n.senders| && n.lock.value != k ==>
      after.senders[n.lock.value] == n.senders[n.lock.value];
  }

  lemma CheckKeepsId(n: Net, k: nat)
    requires IdInv(n) && LockHeld(n) && Phased(n, Check(k))
    ensures IdInv(Checked(n, k))
  {
    hide LockHeld;
    LockOf(n, k);
    CheckMoves(n, k);
  }

  lemma SenderWakes(n: Net, step: Step)
    requires WakeInv(n) && LockHeld(n) && SenderStep(step) && Phased(n, step)
    ensures WakeInv(SenderNext(n, step))
  {
    hide Awake, IdInv, LockHeld, ReadHolds, Written, Min, OwnMove, SenderNext, Checked, DirectDone;
    LockOf(n, step.k);
    SenderMoves(n, step);
    SenderLeaves(n, step);
    if step.PostTrigger? {
      PostTriggerWakes(n, step.k);
    } else if step.Check? {
      CheckMovesMessage(n, step.k);
      NextIs(n, step);
      MoveWakes(n, Checked(n, step.k), step.k);
      CheckKeepsId(n, step.k);
    } else {
      OtherWakes(n, step);
    }
    if !step.Check? { IdAfter(n, step); }
  }

  lemma IdAfter(n: Net, step: Step)
    requires IdInv(n) && LockHeld(n) && SenderStep(step) && Phased(n, step) && !step.Check?
    requires Spared(n, SenderNext(n, step)) && OwnMove(n, SenderNext(n, step), step.k)
    ensures IdInv(SenderNext(n, step))
  {
    hide IdInv, LockHeld, Written, Min, IncSending;
    MoveKeepsId(n, SenderNext(n, step), step.k);
  }

  lemma OtherWakes(n: Net, step: Step)
    requires Awake(n) && IdInv(n) && LockHeld(n) && SenderStep(step) && Phased(n, step) && !step.PostTrigger? && !step.Check?
    requires Spared(n, SenderNext(n, step)) && OwnMove(n, SenderNext(n, step), step.k)
    ensures Awake(SenderNext(n, step))
  {
    hide Awake, Written, Min, LockHeld, IdInv;
    LockOf(n, step.k);
    if step.WriteDirect? {
      SameId(n, step.k);
    }
    MoveWakes(n, SenderNext(n, step), step.k);
  }

  lemma SameId(n: Net, k: nat)
    requires IdInv(n) && n.lock == Some(k) && k < |n.senders| && n.senders[k].Checking? && n.senders[k].passed == READS
    ensures n.senders[k].id == n.sock.id
  {
  }

  lemma WakeKept(n: Net, step: Step)
    requires WakeInv(n) && WriteInv(n) && Enabled(n, step) && Proper(n, step)
    ensures WakeInv(Next(n, step))
  {
    hide WakeInv, Steady, StreamInv, HolderInv, LockHeld, SocketNext, SenderNext;
    Regroup(n);
    if SocketThread(step) {
      SocketWakes(n, step);
    } else if SenderStep(step) {
      SenderWakes(n, step);
    } else {
      OutsideWakes(n, step);
    }
  }

  lemma OutsideWakes(n: Net, step: Step)
    requires WakeInv(n) && HolderInv(n) && Enabled(n, step) && Proper(n, step) && (step.ReserveId? || step.PostClose?)
    ensures WakeInv(Next(n, step))
  {
  }

  // ---------- the counter of messages in flight ----------

  predicate IsSend(r: Request, id: nat) { r.Send? && r.id == id }

  predicate IsQueue(p: Phase, id: nat) { p.Queue? && p.id == id }

  predicate Carries(p: Phase, id: nat) { Mentions(p, id) && !p.Notify? }

  function Sends(rs: seq<Request>, id: nat): nat {
    if |rs| == 0 then 0 else Sends(rs[1..], id) + if IsSend(rs[0], id) then 1 else 0
  }

  function Queues(ps: seq<Phase>, id: nat): nat {
    if |ps| == 0 then 0 else Queues(ps[1..], id) + if IsQueue(ps[0], id) then 1 else 0
  }

  predicate AllCounted(n: Net, id: nat) {
    (forall k :: 0 <= k < |n.senders| && IsQueue(n.senders[k], id) ==> n.senders[k].counted)
    && (forall j :: 0 <= j < |n.pipe| && IsSend(n.pipe[j], id) ==> n.pipe[j].counted)
  }

  predicate NoneSending(n: Net, id: nat) {
    (forall k :: 0 <= k < |n.senders| ==> !Carries(n.senders[k], id))
    && (forall j :: 0 <= j < |n.pipe| ==> !IsSend(n.pipe[j], id))
  }

  /** For an id that has been opened, the low half of `sending` is the number of its messages on their way through the pipe. */
  predicate CountInv(n: Net) {
    var id := n.sock.id;
    if n.sock.tcp then
      n.sock.tag == id && n.sock.typ != Reserved && AllCounted(n, id)
      && n.sock.count == Sends(n.pipe, id) + Queues(n.senders, id)
    else !Live(n.sock) && NoneSending(n, id)
  }

  lemma {:induction false} SendsPush(rs: seq<Request>, r: Request, id: nat)
    ensures Sends(rs + [r], id) == Sends(rs, id) + if IsSend(r, id) then 1 else 0
  {
    if |rs| == 0 {
      assert rs + [r] == [r] && [r][1..] == [];
    } else {
      assert (rs + [r])[1..] == rs[1..] + [r];
      SendsPush(rs[1..], r, id);
    }
  }

  lemma {:induction false} QueuesMove(ps: seq<Phase>, k: nat, p: Phase, id: nat)
    requires k < |ps|
    ensures Queues(ps[k := p], id) + (if IsQueue(ps[k], id) then 1 else 0) == Queues(ps, id) + if IsQueue(p, id) then 1 else 0
  {
    if k == 0 {
      assert ps[k := p][1..] == ps[1..];
    } else {
      assert ps[k := p][1..] == ps[1..][k - 1 := p];
      QueuesMove(ps[1..], k - 1, p, id);
    }
  }

  lemma {:induction false} NoSends(rs: seq<Request>, id: nat)
    requires forall j :: 0 <= j < |rs| ==> !IsSend(rs[j], id)
    ensures Sends(rs, id) == 0
  {
    if |rs| > 0 { NoSends(rs[1..], id); }
  }

  lemma {:induction false} NoQueues(ps: seq<Phase>, id: nat)
    requires forall k :: 0 <= k < |ps| ==> !IsQueue(ps[k], id)
    ensures Queues(ps, id) == 0
  {
    if |ps| > 0 { NoQueues(ps[1..], id); }
  }

  /** Sends(rs, id) == 0 means what it says. */
  lemma {:induction false} SendsNone(rs: seq<Request>, id: nat)
    requires Sends(rs, id) == 0
    ensures forall j :: 0 <= j < |rs| ==> !IsSend(rs[j], id)
  {
    if |rs| > 0 {
      SendsNone(rs[1..], id);
      assert forall j :: 1 <= j < |rs| ==> rs[j] == rs[1..][j - 1];
    }
  }

  lemma OpenCounts(n: Net, typ: Type)
    requires CountInv(n) && Enabled(n, OpenFd(typ))
    ensures CountInv(Next(n, OpenFd(typ)))
  {
    NoSends(n.pipe, n.sock.id);
    NoQueues(n.senders, n.sock.id);
  }

  /** Serving the next request: the assert of dec_sending_ref holds, and the counter stays exact. */
  lemma ServeCounts(n: Net)
    requires CountInv(n) && Enabled(n, Serve)
    ensures CountInv(ServeOne(n)) && !ServeOne(n).crashed
  {
    hide CountInv, SendSocket, CloseSocket, Forced, DecSending;
    var r, n1 := n.pipe[0], n.(pipe := n.pipe[1..]);
    if r.Send? {
      ServeSendCounts(n);
    } else {
      PopOtherCounts(n);
      if r.Trigger? {
        TriggerCounts(n1, n1.(sock := n.sock.(writing := true)));
      } else if n.sock.typ != Invalid && n.sock.id == r.id {
        OpenedNow(n);
        CloseCounts(n1, r.shutdown);
      }
    }
  }

  lemma OpenedNow(n: Net)
    requires CountInv(n) && Enabled(n, Serve) && n.sock.typ != Invalid && n.sock.id == n.pipe[0].id
    ensures Live(n.sock)
  {
  }

  lemma TriggerCounts(n: Net, after: Net)
    requires CountInv(n) && after == n.(sock := n.sock.(writing := true))
    ensures CountInv(after)
  {
    SameCounts(n, after);
  }

  lemma ServeSendCounts(n: Net)
    requires CountInv(n) && Enabled(n, Serve) && n.pipe[0].Send?
    ensures CountInv(ServeOne(n)) && !ServeOne(n).crashed
  {
    hide SendSocket, AllCounted, NoneSending, Queues, Sends;
    var r := n.pipe[0];
    PopCounts(n);
    SendSocketType(n.sock, r.id, r.m, r.low);
  }

  lemma PopOtherCounts(n: Net)
    requires CountInv(n) && |n.pipe| > 0 && !n.pipe[0].Send?
    ensures CountInv(n.(pipe := n.pipe[1..]))
  {
    hide AllCounted, NoneSending, Queues, Sends;
    PopCounts(n);
  }

  lemma PopCounts(n: Net)
    requires CountInv(n) && |n.pipe| > 0
    ensures var after, id := n.(pipe := n.pipe[1..]), n.sock.id;
      if n.sock.tcp then AllCounted(after, id) && Sends(after.pipe, id) == Sends(n.pipe, id) - (if IsSend(n.pipe[0], id) then 1 else 0)
      else NoneSending(after, id) && !IsSend(n.pipe[0], id)
    ensures n.sock.tcp ==> forall m: Net :: m.senders == n.senders && m.pipe == n.pipe[1..] ==> AllCounted(m, n.sock.id)
    ensures !n.sock.tcp ==> forall m: Net :: m.senders == n.senders && m.pipe == n.pipe[1..] ==> NoneSending(m, n.sock.id)
  {
  }

  lemma CloseCounts(n: Net, shutdown: bool)
    requires CountInv(n) && Live(n.sock)
    ensures var (s, force, r) := CloseSocket(n.sock, shutdown);
      CountInv(Forced(n, s, force, r)) && Forced(n, s, force, r).crashed == n.crashed
  {
    hide Sends, Queues, Uncomplete, Named, AllCounted, NoneSending;
    var (s, force, r) := CloseSocket(n.sock, shutdown);
    SameCounts(n, Forced(n, s, force, r));
  }

  lemma SameCounts(n: Net, after: Net)
    requires CountInv(n) && after.senders == n.senders && after.pipe == n.pipe
    requires after.sock.id == n.sock.id && after.sock.tcp == n.sock.tcp && after.sock.tag == n.sock.tag && after.sock.count == n.sock.count
    requires after.sock.typ == Reserved ==> n.sock.typ == Reserved
    requires Live(after.sock) ==> Live(n.sock)
    ensures CountInv(after)
  {
    hide Sends, Queues;
  }

  lemma SocketCounts(n: Net, step: Step)
    requires CountInv(n) && SocketThread(step) && Enabled(n, step)
    ensures CountInv(SocketNext(n, step)) && !SocketNext(n, step).crashed
  {
    hide CountInv, ServeOne, SendBuffer, Named, Whole, Since, Line, Uncomplete, NewFd, Direct, NoMoreSending, Empty,
      StartForce, Forced;
    match step
    case Serve => ServeCounts(n);
    case WriteEvent(ws) =>
      SendBufferType(n.sock, ws);
      SameCounts(n, SocketNext(n, step));
    case OpenFd(typ) => OpenCounts(n, typ);
    case _ => QuietCounts(n, step);
  }

  /** Steps of the socket thread after which the same messages are in flight. */
  lemma QuietCounts(n: Net, step: Step)
    requires CountInv(n) && SocketThread(step) && Enabled(n, step) && !step.Serve? && !step.WriteEvent? && !step.OpenFd?
    ensures CountInv(SocketNext(n, step)) && !SocketNext(n, step).crashed
  {
    hide CountInv, Named, Direct, NoMoreSending, StartForce, Forced, ReadEnd;
    if step.ReadZero? {
      var (s, force, r) := ReadEnd(n.sock);
      ReadEndId(n.sock);
      ForcedCounts(n, s, force, r);
    } else if step.HangUp? {
      ForcedCounts(n, n.sock, true, if n.sock.typ == HalfcloseRead then Nothing else Close);
    } else {
      RaisedNothing(n);
      SameCounts(n, SocketNext(n, step));
    }
  }

  lemma RaisedNothing(n: Net)
    ensures StartForce(n) == Forced(n, n.sock, true, Nothing) && StartForce(n).senders == n.senders && StartForce(n).pipe == n.pipe
    ensures StartForce(n).sock == FreeLists(n.sock) && StartForce(n).crashed == n.crashed
  {
  }

  lemma ReadEndId(s: Sock)
    ensures var t := ReadEnd(s).0; t == s.(typ := t.typ) && (t.typ == s.typ || t.typ == HalfcloseRead)
  {
  }

  lemma ForcedCounts(n: Net, s: Sock, force: bool, r: Raised)
    requires CountInv(n) && Live(n.sock) && Live(s) && s == n.sock.(typ := s.typ)
    ensures CountInv(Forced(n, s, force, r)) && Forced(n, s, force, r).crashed == n.crashed
  {
    hide CountInv, Named, Uncomplete;
    SameCounts(n, Forced(n, s, force, r));
  }

  /** A sender's step that neither queues nor posts. */
  lemma MoveCounts(n: Net, after: Net, k: nat)
    requires CountInv(n) && k < |n.senders| == |after.senders| && after.senders == n.senders[k := after.senders[k]]
    requires !n.senders[k].Queue? && !after.senders[k].Queue?
    requires Carries(after.senders[k], n.sock.id) ==> n.sock.tcp || Carries(n.senders[k], n.sock.id)
    requires after.pipe == n.pipe || (|after.pipe| == |n.pipe| + 1 && after.pipe == n.pipe + [after.pipe[|n.pipe|]] && after.pipe[|n.pipe|].Trigger?)
    requires after.sock == n.sock.(fd := after.sock.fd, dw := after.sock.dw)
    ensures CountInv(after)
  {
    var id := n.sock.id;
    QueuesMove(n.senders, k, after.senders[k], id);
    if after.pipe != n.pipe { SendsPush(n.pipe, after.pipe[|n.pipe|], id); }
    hide Sends, Queues;
    assert forall j :: 0 <= j < |n.senders| && j != k ==> after.senders[j] == n.senders[j];
    assert forall j :: 0 <= j < |n.pipe| ==> after.pipe[j] == n.pipe[j];
  }

  lemma CountCounts(n: Net, k: nat)
    requires CountInv(n) && Phased(n, Count(k))
    ensures CountInv(SenderNext(n, Count(k)))
  {
    var p, after := n.senders[k], SenderNext(n, Count(k));
    QueuesMove(n.senders, k, after.senders[k], n.sock.id);
    assert forall j :: 0 <= j < |n.senders| && j != k ==> after.senders[j] == n.senders[j];
    assert Carries(n.senders[k], p.id);
    hide Sends, Queues;
  }

  lemma PostSendCounts(n: Net, k: nat)
    requires CountInv(n) && Phased(n, PostSend(k))
    ensures CountInv(SenderNext(n, PostSend(k)))
  {
    var p, after := n.senders[k], SenderNext(n, PostSend(k));
    QueuesMove(n.senders, k, Idle, n.sock.id);
    SendsPush(n.pipe, Send(p.id, p.m, p.low, p.counted), n.sock.id);
    assert forall j :: 0 <= j < |n.senders| && j != k ==> after.senders[j] == n.senders[j];
    assert Carries(n.senders[k], p.id);
    hide Sends, Queues;
  }

  lemma SenderCounts(n: Net, step: Step)
    requires CountInv(n) && SenderStep(step) && Phased(n, step) && Careful(n, step)
    ensures CountInv(SenderNext(n, step)) && SenderNext(n, step).crashed == n.crashed
  {
    hide CountInv, ReadHolds, Written, Min, SenderNext, Checked;
    SenderLeaves(n, step);
    if step.Count? {
      CountCounts(n, step.k);
    } else if step.PostSend? {
      PostSendCounts(n, step.k);
    } else if step.Check? {
      NextIs(n, step);
      CheckCounts(n, step.k);
    } else {
      OtherCounts(n, step);
    }
  }

  lemma CheckCounts(n: Net, k: nat)
    requires CountInv(n) && Phased(n, Check(k))
    ensures CountInv(Checked(n, k))
  {
    hide CountInv, Checked;
    CheckMovesMessage(n, k);
    CheckOnward(n, k);
    MoveCounts(n, Checked(n, k), k);
  }

  lemma CheckOnward(n: Net, k: nat)
    requires Phased(n, Check(k))
    ensures !Checked(n, k).senders[k].Queue? && !Checked(n, k).senders[k].Idle? && !Checked(n, k).senders[k].Notify?
    ensures Checked(n, k).senders[k].id == n.senders[k].id
  {
    hide ReadHolds;
  }

  lemma OtherCounts(n: Net, step: Step)
    requires CountInv(n) && SenderStep(step) && Phased(n, step) && Careful(n, step)
    requires !step.Count? && !step.PostSend? && !step.Check?
    ensures CountInv(SenderNext(n, step))
  {
    hide CountInv, Written, Min, IncSending, Checked, Careful;
    if step.Begin? || step.BeginLow? {
      OpenedBefore(n);
      assert !EarlySend(n, step) by { NotEarly(n, step); }
    }
    assert n.senders[step.k := n.senders[step.k]] == n.senders;
    MoveCounts(n, SenderNext(n, step), step.k);
  }

  lemma NotEarly(n: Net, step: Step)
    requires Careful(n, step)
    ensures !EarlySend(n, step)
  {
  }

  lemma OpenedBefore(n: Net)
    requires CountInv(n)
    ensures n.sock.typ != Invalid && n.sock.typ != Reserved ==> n.sock.tcp
  {
  }

  lemma CountKept(n: Net, step: Step)
    requires CountInv(n) && Enabled(n, step) && Careful(n, step)
    ensures CountInv(Next(n, step)) && !Next(n, step).crashed
  {
    hide SocketNext, SenderNext, CountInv;
    if SocketThread(step) {
      SocketCounts(n, step);
    } else if SenderStep(step) {
      SenderCounts(n, step);
    } else {
      OutsideCounts(n, step);
    }
  }

  lemma OutsideCounts(n: Net, step: Step)
    requires CountInv(n) && Enabled(n, step) && Careful(n, step) && (step.ReserveId? || step.PostClose?)
    ensures CountInv(Next(n, step))
  {
    if step.PostClose? {
      SendsPush(n.pipe, CloseIt(step.id, step.shutdown), n.sock.id);
    }
    hide Sends, Queues;
  }
}
