/**
 What careless use of ids costs, from every state the protocol can reach: each careless step can
 be followed by steps after which the assert of dec_sending_ref fails, and reserving a slot that
 a sender is in the middle of checking puts a message on the wrong connection.
 */
module SocketCareless {
  import opened Common
  import opened Wire
  import opened SocketSpec
  import opened SocketSlot
  import opened SocketProtocol
  import opened SocketSafety
  import opened SocketAccounting
  import opened SocketDiscipline

  ghost predicate CanCrash(n: Net) { exists steps :: Run(n, steps) && After(n, steps).crashed }

  lemma Crashed(n: Net)
    requires n.crashed
    ensures CanCrash(n)
  {
    assert Run(n, []) && After(n, []) == n;
  }

  lemma Back(n: Net, step: Step)
    requires Enabled(n, step) && CanCrash(Next(n, step))
    ensures CanCrash(n)
  {
    var steps :| Run(Next(n, step), steps) && After(Next(n, step), steps).crashed;
    hide Enabled, Next;
    assert ([step] + steps)[1..] == steps;
    assert Run(n, [step] + steps) && After(n, [step] + steps) == After(Next(n, step), steps);
  }

  // ---------- once an uncounted message is in the pipe of an open socket ----------

  /** The slot is open under the id, or its force_close is, with nothing counted. */
  predicate Uncounted(s: Sock, id: nat) { s.id == id && s.tcp && s.count == 0 && s.typ != Reserved }

  predicate Piped(n: Net, id: nat) { exists j :: 0 <= j < |n.pipe| && IsSend(n.pipe[j], id) }

  predicate Doomed(n: Net, id: nat) { !n.crashed && LockHeld(n) && Uncounted(n.sock, id) && Piped(n, id) }

  lemma ServeKeeps(n: Net, id: nat)
    requires Uncounted(n.sock, id) && |n.pipe| > 0 && !IsSend(n.pipe[0], id)
    ensures Uncounted(ServeOne(n).sock, id) && ServeOne(n).crashed == n.crashed && ServeOne(n).pipe == n.pipe[1..]
  {
    hide SendSocket, CloseSocket, Forced;
    var r := n.pipe[0];
    if r.Send? {
      OtherDropped(n.sock, r.id, r.m, r.low);
    } else if r.CloseIt? && n.sock.typ != Invalid && n.sock.id == r.id {
      CloseKeeps(n.(pipe := n.pipe[1..]), id, r.shutdown);
    }
  }

  lemma OtherDropped(s: Sock, id: nat, m: Message, low: bool)
    requires s.id != id
    ensures SendSocket(s, id, m, low) == (s, false)
  {
  }

  lemma CloseKeeps(n: Net, id: nat, shutdown: bool)
    requires Uncounted(n.sock, id)
    ensures var (s, force, r) := CloseSocket(n.sock, shutdown);
      var after := Forced(n, s, force, r);
      Uncounted(after.sock, id) && after.crashed == n.crashed && after.pipe == n.pipe
  {
    hide Uncomplete, Named, NoMoreSending;
  }

  lemma ServeOther(n: Net, id: nat)
    requires Doomed(n, id) && n.force.NotClosing? && !IsSend(n.pipe[0], id)
    ensures Enabled(n, Serve) && Doomed(Next(n, Serve), id) && |Next(n, Serve).pipe| < |n.pipe|
  {
    hide ServeOne, LockHeld, Uncounted;
    assert Enabled(n, Serve) && Next(n, Serve) == ServeOne(n) by { Servable(n, id); }
    var j :| 0 <= j < |n.pipe| && IsSend(n.pipe[j], id);
    assert n.pipe[1..][j - 1] == n.pipe[j];
    ServeKeeps(n, id);
    ServeKeepsSenders(n);
    LockSame(n, ServeOne(n));
  }

  lemma Servable(n: Net, id: nat)
    requires Doomed(n, id) && n.force.NotClosing?
    ensures Enabled(n, Serve) && Next(n, Serve) == ServeOne(n)
  {
  }

  lemma LockSame(n: Net, after: Net)
    requires LockHeld(n) && after.senders == n.senders && after.lock == n.lock
    ensures LockHeld(after)
  {
  }

  lemma ServeIt(n: Net, id: nat)
    requires Doomed(n, id) && n.force.NotClosing? && IsSend(n.pipe[0], id)
    ensures Enabled(n, Serve) && Next(n, Serve).crashed
  {
    SendSocketType(n.sock, id, n.pipe[0].m, n.pipe[0].low);
    hide SendSocket;
  }

  lemma ForceFinishes(n: Net, id: nat)
    requires Doomed(n, id) && n.force.Freed? && n.lock.None?
    ensures Enabled(n, FinishForce) && Doomed(Next(n, FinishForce), id)
    ensures Next(n, FinishForce).force.NotClosing? && Next(n, FinishForce).pipe == n.pipe
  {
    hide Named, Direct;
  }

  /** How far the lock's holder is from giving the lock back. */
  function Held(n: Net): nat {
    if n.lock.None? || n.lock.value >= |n.senders| then 0
    else match n.senders[n.lock.value]
      case Checking(_, _, passed) => if passed < READS then READS - passed + 1 else 1
      case Doubtful(_, _) => 2
      case _ => 0
  }

  function HolderStep(n: Net): Step
    requires n.lock.Some? && n.lock.value < |n.senders|
  {
    var k := n.lock.value;
    if n.senders[k].Checking? && n.senders[k].passed >= READS then WriteDirect(k, 0) else Check(k)
  }

  lemma HolderMoves(n: Net)
    requires !n.crashed && LockHeld(n) && n.lock.Some? && ReadsBounded(n)
    ensures Enabled(n, HolderStep(n)) && LockHeld(Next(n, HolderStep(n))) && ReadsBounded(Next(n, HolderStep(n)))
    ensures var after := Next(n, HolderStep(n));
      Held(after) < Held(n) && after.pipe == n.pipe && after.force == n.force && !after.crashed
      && after.sock == n.sock.(fd := after.sock.fd, dw := after.sock.dw)
  {
    var k := n.lock.value;
    LockOf(n, k);
    hide ReadHolds, Written, LockHeld, DirectDone, Checked;
    assert Phased(n, HolderStep(n));
    LockKept(n, HolderStep(n));
    if HolderStep(n).Check? {
      CheckGoesOn(n, k);
    } else {
      WriteUnlocks(n, k);
    }
  }

  lemma CheckGoesOn(n: Net, k: nat)
    requires k < |n.senders| && n.lock == Some(k)
    requires n.senders[k].Doubtful? || (n.senders[k].Checking? && n.senders[k].passed < READS)
    ensures var after := Checked(n, k);
      Held(after) < Held(n) && ReadsBounded(after) && after == n.(senders := after.senders, lock := after.lock)
  {
    hide ReadHolds;
  }

  lemma WriteUnlocks(n: Net, k: nat)
    requires k < |n.senders| && n.lock == Some(k) && n.senders[k].Checking?
    ensures var after := DirectDone(n, k, 0);
      after.lock.None? && after.pipe == n.pipe && after.force == n.force && after.crashed == n.crashed
      && after.sock == n.sock.(fd := after.sock.fd, dw := after.sock.dw)
  {
    hide Written;
  }

  predicate ReadsBounded(n: Net) {
    n.lock.Some? && n.lock.value < |n.senders| && n.senders[n.lock.value].Checking? ==>
      n.senders[n.lock.value].passed <= READS
  }

  /** From every doomed state, some steps end in the failing assert. */
  lemma {:induction false} DoomedCrashes(n: Net, id: nat)
    requires Doomed(n, id) && ReadsBounded(n)
    ensures CanCrash(n)
    decreases |n.pipe|, if n.force.Freed? then 1 else 0, Held(n)
  {
    hide Enabled, Next, LockHeld, Uncounted, CanCrash;
    if n.force.NotClosing? {
      if IsSend(n.pipe[0], id) {
        ServeIt(n, id);
        Crashed(Next(n, Serve));
      } else {
        ServeOther(n, id);
        SameHolder(n, Serve);
        DoomedCrashes(Next(n, Serve), id);
      }
      Back(n, Serve);
    } else if n.lock.None? {
      ForceFinishes(n, id);
      SameHolder(n, FinishForce);
      DoomedCrashes(Next(n, FinishForce), id);
      Back(n, FinishForce);
    } else {
      HolderExists(n);
      HolderMoves(n);
      assert Uncounted(Next(n, HolderStep(n)).sock, id) by { UncountedSame(n.sock, Next(n, HolderStep(n)).sock, id); }
      DoomedCrashes(Next(n, HolderStep(n)), id);
      Back(n, HolderStep(n));
    }
  }

  lemma HolderExists(n: Net)
    requires LockHeld(n) && n.lock.Some?
    ensures n.lock.value < |n.senders|
  {
  }

  lemma UncountedSame(s: Sock, s': Sock, id: nat)
    requires Uncounted(s, id) && s' == s.(fd := s'.fd, dw := s'.dw)
    ensures Uncounted(s', id)
  {
  }

  lemma SameHolder(n: Net, step: Step)
    requires SocketThread(step) && Enabled(n, step) && ReadsBounded(n)
    ensures ReadsBounded(Next(n, step))
  {
    hide Enabled, Next;
    SocketThreadKeepsSenders(n, step);
  }

  // ---------- sending on an id that is only reserved ----------

  /** The id is reserved, and its new_fd has not run. */
  predicate Reserving(n: Net, id: nat) {
    !n.crashed && LockHeld(n) && ReadsBounded(n) && n.force.NotClosing?
    && n.sock.typ == Reserved && n.sock.id == id && !n.sock.tcp
  }

  /** Sender k has a message for the id and will not write it directly. */
  predicate Waiting(n: Net, id: nat, k: nat) {
    k < |n.senders| &&
    var p := n.senders[k];
    (p.Ready? || p.Fallback? || p.Queue? || (p.Checking? && p.passed < READS)) && p.id == id
  }

  function Ahead(p: Phase): nat {
    match p
    case Checking(_, _, passed) => if passed < READS then 4 + READS - passed else 4
    case Ready(_, _) => 3
    case Fallback(_, _, _) => 2
    case Queue(_, _, _, _) => 1
    case _ => 0
  }

  function Onward(n: Net, k: nat): Step
    requires k < |n.senders|
  {
    match n.senders[k]
    case Ready(_, _) => GiveUp(k)
    case Fallback(_, _, _) => Count(k)
    case Queue(_, _, _, _) => PostSend(k)
    case _ => Check(k)
  }

  /** The sender's next step brings its message nearer to the pipe, and the slot stays reserved. */
  lemma GoesOn(n: Net, id: nat, k: nat)
    requires Reserving(n, id) && Waiting(n, id, k)
    ensures Enabled(n, Onward(n, k)) && Reserving(Next(n, Onward(n, k)), id)
    ensures var after := Next(n, Onward(n, k));
      Piped(after, id) || (Waiting(after, id, k) && Ahead(after.senders[k]) < Ahead(n.senders[k]))
  {
    LockKept(n, Onward(n, k));
    hide LockHeld;
    var p := n.senders[k];
    if p.Queue? {
      var after := Next(n, PostSend(k));
      assert after.pipe == n.pipe + [Send(p.id, p.m, p.low, p.counted)];
      assert IsSend(after.pipe[|n.pipe|], id);
      OtherHolder(n, after, k);
    } else if p.Checking? {
      CheckReserved(n, id, k);
    } else {
      OtherHolder(n, Next(n, Onward(n, k)), k);
    }
  }

  lemma CheckReserved(n: Net, id: nat, k: nat)
    requires k < |n.senders| && n.senders[k].Checking? && n.senders[k].passed < READS && n.senders[k].id == id
    requires n.sock.typ == Reserved && ReadsBounded(n)
    ensures var after := Checked(n, k);
      Waiting(after, id, k) && Ahead(after.senders[k]) < Ahead(n.senders[k]) && ReadsBounded(after)
      && after == n.(senders := after.senders, lock := after.lock)
  {
  }

  lemma OtherHolder(n: Net, after: Net, k: nat)
    requires ReadsBounded(n) && k < |n.senders| == |after.senders| && after.senders == n.senders[k := after.senders[k]]
    requires after.lock == n.lock && !after.senders[k].Checking?
    ensures ReadsBounded(after)
  {
  }

  /** Opening the id now leaves its message uncounted. */
  lemma OpenDoomed(n: Net, id: nat)
    requires Reserving(n, id) && Piped(n, id)
    ensures Enabled(n, OpenFd(Connected)) && Doomed(Next(n, OpenFd(Connected)), id) && ReadsBounded(Next(n, OpenFd(Connected)))
  {
    LockKept(n, OpenFd(Connected));
    hide LockHeld;
  }

  lemma {:induction false} ReservedCrashes(n: Net, id: nat, k: nat)
    requires Reserving(n, id) && (Piped(n, id) || Waiting(n, id, k))
    ensures CanCrash(n)
    decreases if Piped(n, id) || k >= |n.senders| then 0 else 1 + Ahead(n.senders[k])
  {
    hide Enabled, Next, CanCrash, Reserving, Onward, Ahead;
    if Piped(n, id) {
      OpenDoomed(n, id);
      DoomedCrashes(Next(n, OpenFd(Connected)), id);
      Back(n, OpenFd(Connected));
    } else {
      GoesOn(n, id, k);
      ReservedCrashes(Next(n, Onward(n, k)), id, k);
      Back(n, Onward(n, k));
    }
  }

  // ---------- the results ----------

  /**
   Care is exactly what the assert of dec_sending_ref needs, in every state the protocol can reach
   with the counter still exact: a careful step keeps the counter exact and the assert true, and
   every careless one can be followed by steps that end in the assert failing.
   */
  lemma AssertExactly(n: Net, step: Step)
    requires CountInv(n) && WriteInv(n) && ReadsBounded(n) && !n.crashed && Enabled(n, step)
    ensures Careful(n, step) ==> CountInv(Next(n, step)) && !Next(n, step).crashed
    ensures !Careful(n, step) ==> CanCrash(Next(n, step))
  {
    hide CountInv, WriteInv, Enabled, Next, CanCrash, Careful;
    if Careful(n, step) {
      CountKept(n, step);
    } else {
      CarelessCrashes(n, step);
    }
  }

  lemma CarelessCrashes(n: Net, step: Step)
    requires CountInv(n) && WriteInv(n) && ReadsBounded(n) && !n.crashed && Enabled(n, step) && !Careful(n, step)
    ensures CanCrash(Next(n, step))
  {
    hide CanCrash, Parse, HolderInv;
    LockKept(n, step);
    if step.ReserveId? {
      ReuseCrashes(n, step.id);
    } else {
      EarlyCrashes(n, step);
    }
  }

  /** Sending on an id that is only reserved. */
  lemma EarlyCrashes(n: Net, step: Step)
    requires CountInv(n) && LockHeld(n) && StreamInv(n) && ReadsBounded(n) && !n.crashed && Enabled(n, step) && EarlySend(n, step)
    ensures CanCrash(Next(n, step))
  {
    hide CanCrash, Parse;
    LockKept(n, step);
    hide LockHeld;
    OtherHolder(n, Next(n, step), step.k);
    ReservedCrashes(Next(n, step), step.id, step.k);
  }

  /** Reserving an id that some message is still under way to. */
  lemma ReuseCrashes(n: Net, id: nat)
    requires WriteInv(n) && ReadsBounded(n) && !n.crashed && Enabled(n, ReserveId(id)) && !NoneSending(n, id)
    ensures CanCrash(Next(n, ReserveId(id)))
  {
    hide CanCrash, Parse;
    var after := Next(n, ReserveId(id));
    assert Reserving(after, id);
    if Piped(n, id) {
      var j :| 0 <= j < |n.pipe| && IsSend(n.pipe[j], id);
      assert IsSend(after.pipe[j], id);
      ReservedCrashes(after, id, 0);
    } else {
      var k :| 0 <= k < |n.senders| && Carries(n.senders[k], id);
      assert Waiting(after, id, k);
      ReservedCrashes(after, id, k);
    }
  }

  lemma BoundKept(n: Net, step: Step)
    requires ReadsBounded(n) && LockHeld(n) && Enabled(n, step)
    ensures ReadsBounded(Next(n, step))
  {
    hide SenderNext, SocketNext;
    if SocketThread(step) {
      SameHolder(n, step);
    } else if SenderStep(step) {
      SenderBound(n, step);
    }
  }

  lemma SenderBound(n: Net, step: Step)
    requires ReadsBounded(n) && LockHeld(n) && SenderStep(step) && Phased(n, step)
    ensures ReadsBounded(SenderNext(n, step))
  {
    hide ReadHolds, Written, IncSending, LockHeld, DirectDone;
    LockOf(n, step.k);
    SenderMoves(n, step);
    if step.WriteDirect? {
      WriteLeaves(n, step.k, step.offered);
    } else if !step.Check? && !step.TryLock? {
      OtherHolder(n, SenderNext(n, step), step.k);
    }
  }

  lemma WriteLeaves(n: Net, k: nat, offered: nat)
    requires k < |n.senders| && n.senders[k].Checking?
    ensures DirectDone(n, k, offered).lock.None?
  {
    hide Written;
  }

  // ---------- reserving a slot that a sender is checking ----------

  /** The new connection has its first message: one that was sent on the old id. */
  predicate Misdelivered(n: Net, id: nat, m: Message, w: nat) {
    n.sock.id == id && n.sock.typ == Connected && n.sock.fd == Written(Buffer(m, 0), w) && n.sock.dw == Some(Buffer(m, w))
  }

  predicate Unused(n: Net, id: nat) {
    (forall k :: 0 <= k < |n.senders| ==> n.senders[k].Idle? || n.senders[k].id != id)
    && (forall j :: 0 <= j < |n.pipe| ==> n.pipe[j].id != id)
  }

  ghost predicate CanMisdeliver(n: Net, id: nat, m: Message, w: nat) {
    exists steps :: Run(n, steps) && Misdelivered(After(n, steps), id, m, w) && !Awake(After(n, steps))
  }

  lemma BackTo(n: Net, step: Step, id: nat, m: Message, w: nat)
    requires Enabled(n, step) && CanMisdeliver(Next(n, step), id, m, w)
    ensures CanMisdeliver(n, id, m, w)
  {
    var n' := Next(n, step);
    var steps :| Run(n', steps) && Misdelivered(After(n', steps), id, m, w) && !Awake(After(n', steps));
    hide Enabled, Next, Misdelivered, Awake;
    assert ([step] + steps)[1..] == steps;
    assert Run(n, [step] + steps) && After(n, [step] + steps) == After(n', steps);
  }

  /** The slot is open anew, and sender h goes on with the reads it began under the old id. */
  predicate Resuming(n: Net, id: nat, h: nat, m: Message) {
    !n.crashed && n.force.NotClosing? && n.sock.id == id && n.sock.typ == Connected && !n.sock.writing
    && Empty(n.sock) && n.sock.dw.None? && n.sock.count == 0 && n.sock.fd == []
    && h < |n.senders| && n.senders[h].Checking? && n.senders[h].m == m && 0 < n.senders[h].passed <= READS
    && Unused(n, id)
  }

  lemma ReadOn(n: Net, id: nat, h: nat, m: Message)
    requires Resuming(n, id, h, m) && n.senders[h].passed < READS
    ensures Enabled(n, Check(h)) && Resuming(Next(n, Check(h)), id, h, m)
    ensures Next(n, Check(h)).senders[h].passed == n.senders[h].passed + 1
  {
  }

  lemma WriteStale(n: Net, id: nat, h: nat, m: Message, w: nat)
    requires Resuming(n, id, h, m) && n.senders[h].passed == READS && w < |m.data|
    ensures Enabled(n, WriteDirect(h, w))
    ensures var after := Next(n, WriteDirect(h, w));
      Misdelivered(after, id, m, w) && !Awake(after)
  {
    hide Written;
    var after := Next(n, WriteDirect(h, w));
    assert [] + Written(Buffer(m, 0), w) == Written(Buffer(m, 0), w);
    assert after.senders == n.senders[h := Notify(n.senders[h].id)];
  }

  lemma {:induction false} ResumedWrites(n: Net, id: nat, h: nat, m: Message, w: nat)
    requires Resuming(n, id, h, m) && w < |m.data|
    ensures CanMisdeliver(n, id, m, w)
    decreases READS - n.senders[h].passed
  {
    hide Enabled, Next, Misdelivered, Awake;
    if n.senders[h].passed < READS {
      ReadOn(n, id, h, m);
      ResumedWrites(Next(n, Check(h)), id, h, m, w);
      BackTo(n, Check(h), id, m, w);
    } else {
      WriteStale(n, id, h, m, w);
      var after := Next(n, WriteDirect(h, w));
      assert Run(after, []) && After(after, []) == after;
      BackTo(n, WriteDirect(h, w), id, m, w);
    }
  }

  lemma ReservedAnew(n: Net, id: nat)
    requires WriteInv(n) && ReadsBounded(n) && !n.crashed && Enabled(n, ReserveId(id)) && MidCheck(n) && Unused(n, id)
    ensures var after := Next(n, ReserveId(id));
      n.senders[n.lock.value].Checking? && Enabled(after, OpenFd(Connected))
      && Resuming(Next(after, OpenFd(Connected)), id, n.lock.value, n.senders[n.lock.value].m)
  {
    hide Parse;
  }

  /**
   The lock clause of proper use is needed too, for wake-ups though not for the assert: from every
   reachable state, reserving a slot under a fresh id while a sender is between its reads can be
   followed by that sender writing its message, sent on the old id, to the new connection, and the
   rest of it waits there with no write event coming.
   */
  lemma MidCheckMisdelivers(n: Net, id: nat, w: nat)
    requires WriteInv(n) && ReadsBounded(n) && !n.crashed && Enabled(n, ReserveId(id)) && MidCheck(n) && Unused(n, id)
    requires w < |n.senders[n.lock.value].m.data|
    ensures CanMisdeliver(Next(n, ReserveId(id)), id, n.senders[n.lock.value].m, w)
  {
    hide Enabled, Next, WriteInv, CanMisdeliver;
    ReservedAnew(n, id);
    var m, after := n.senders[n.lock.value].m, Next(n, ReserveId(id));
    ResumedWrites(Next(after, OpenFd(Connected)), id, n.lock.value, m, w);
    BackTo(after, OpenFd(Connected), id, m, w);
  }
}
