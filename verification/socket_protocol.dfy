/**
 One slot of the socket server, the control pipe, and any number of sender threads, as
 interleaved atomic steps (fengnet-src/socket_server.cpp).
 */
module SocketProtocol {
  import opened Common
  import opened Wire
  import opened SocketSpec
  import opened SocketSlot

  /** Requests in the control pipe. `counted` says whether inc_sending_ref counted the message. */
  datatype Request =
    | Send(id: nat, m: Message, low: bool, counted: bool)  // 'D' and 'P'
    | Trigger(id: nat)                                     // 'W'
    | CloseIt(id: nat, shutdown: bool)                     // 'K'

  /** Where a sender thread is in socket_server_send. */
  datatype Phase =
    | Idle
    | Ready(id: nat, m: Message)                               // the socket looked open
    | Checking(id: nat, m: Message, passed: nat)               // holds the lock; reads of can_direct_write that held
    | Doubtful(id: nat, m: Message)                            // holds the lock; saw HALFCLOSE_WRITE instead
    | Notify(id: nat)                                          // must post 'W'
    | Fallback(id: nat, m: Message, low: bool)                 // will send through the pipe
    | Queue(id: nat, m: Message, low: bool, counted: bool)     // has counted, must post

  /** force_close between freeing the lists and taking the lock; `half` if a half-sent buffer was freed. */
  datatype Closing = NotClosing | Freed(half: bool)

  /**
   `closes` counts the SOCKET_CLOSE raised since the id was reserved, `refused` is set when the
   socket ended with SOCKET_ERR before it was connected, `crashed` when an assert failed; the
   multisets follow messages: submitted ones, ones the kernel took whole, and freed ones.
   */
  datatype Net = Net(
    sock: Sock, senders: seq<Phase>, lock: Option<nat>, pipe: seq<Request>, force: Closing,
    closes: nat, refused: bool, spoilt: bool, crashed: bool,
    submitted: multiset<Message>, finished: multiset<Message>, dropped: multiset<Message>)

  /** The six reads of can_direct_write, in its order. */
  const READS: nat := 6

  predicate ReadHolds(s: Sock, id: nat, k: nat) {
    if k == 0 then s.id == id
    else if k == 1 then s.high == []
    else if k == 2 then s.low == []
    else if k == 3 then s.dw.None?
    else if k == 4 then s.count == 0
    else s.typ == Connected
  }

  datatype Step =
    // any thread
    | ReserveId(id: nat)
    | PostClose(id: nat, shutdown: bool)
    // the socket thread
    | OpenFd(typ: Type)
    | OpenFailed
    | ConnectOk
    | ConnectFailed
    | Resume
    | ReadZero
    | WriteEvent(ws: seq<WriteResult>)
    | HangUp
    | FinishForce
    | Serve
    // sender k
    | Begin(k: nat, id: nat, m: Message)
    | BeginLow(k: nat, id: nat, m: Message)
    | TryLock(k: nat)
    | GiveUp(k: nat)
    | Check(k: nat)
    | WriteDirect(k: nat, offered: nat)
    | PostTrigger(k: nat)
    | Count(k: nat)
    | PostSend(k: nat)

  predicate SocketThread(step: Step) {
    step.OpenFd? || step.OpenFailed? || step.ConnectOk? || step.ConnectFailed? || step.Resume? || step.ReadZero?
    || step.WriteEvent? || step.HangUp? || step.FinishForce? || step.Serve?
  }

  predicate SenderStep(step: Step) { !SocketThread(step) && !step.ReserveId? && !step.PostClose? }

  predicate Phased(n: Net, step: Step)
    requires SenderStep(step)
  {
    step.k < |n.senders| &&
    var p := n.senders[step.k];
    match step
    case Begin(_, _, _) => p.Idle?
    case BeginLow(_, _, _) => p.Idle?
    case TryLock(_) => p.Ready? && n.lock.None?
    case GiveUp(_) => p.Ready?
    case Check(_) => p.Doubtful? || (p.Checking? && p.passed < READS)
    case WriteDirect(_, _) => p.Checking? && p.passed == READS
    case PostTrigger(_) => p.Notify?
    case Count(_) => p.Fallback?
    case PostSend(_) => p.Queue?
    case _ => false
  }

  predicate Opens(typ: Type) {
    typ == Connected || typ == Connecting || typ == PAccept || typ == PListen || typ == Bound
  }

  /** Requests for an id follow, in the pipe, the request that opens it. */
  predicate Served(n: Net) { |n.pipe| > 0 && !(n.sock.typ == Reserved && n.pipe[0].id == n.sock.id) }

  predicate Enabled(n: Net, step: Step) {
    !n.crashed &&
    if SenderStep(step) then Phased(n, step)
    else if step.ReserveId? then n.sock.typ == Invalid
    else if step.PostClose? then true
    else if step.FinishForce? then n.force.Freed? && n.lock.None?
    else n.force.NotClosing? && match step
      case OpenFd(typ) => n.sock.typ == Reserved && Opens(typ)
      case OpenFailed => n.sock.typ == Reserved
      case ConnectOk => n.sock.typ == Connecting
      case ConnectFailed => n.sock.typ == Connecting
      case Serve => Served(n)
      case WriteEvent(_) => Polled(n.sock.typ) && n.sock.writing && n.lock.None?
      case Resume => Polled(n.sock.typ) && n.sock.typ != HalfcloseRead
      case _ => Polled(n.sock.typ)
  }

  /** Types whose events take the default branch of the poll loop. */
  predicate Polled(typ: Type) { typ != Invalid && typ != Reserved && typ != Connecting && typ != Listening }

  /** force_close up to the wait for the lock. */
  function StartForce(n: Net): Net {
    n.(sock := FreeLists(n.sock), force := Freed(Uncomplete(n.sock.high)),
       dropped := n.dropped + multiset(Named(n.sock.high + n.sock.low)))
  }

  function Raise(n: Net, r: Raised): Net { if r.Close? then n.(closes := n.closes + 1) else n }

  function Forced(n: Net, s: Sock, force: bool, r: Raised): Net {
    var n1 := Raise(n.(sock := s), r);
    if force then StartForce(n1) else n1
  }

  function Since(before: seq<Message>, after: seq<Message>): seq<Message> {
    if |before| <= |after| then after[|before|..] else []
  }

  function WriteDone(n: Net, ws: seq<WriteResult>): Net {
    var (s, r) := SendBuffer(n.sock, ws);
    var done := Since(Whole(n.sock.fd), Whole(s.fd));
    var lost := if Live(s) then [] else Since(done, Named(Line(n.sock)));
    Raise(n.(sock := s, finished := n.finished + multiset(done), dropped := n.dropped + multiset(lost)), r)
  }

  function ServeOne(n: Net): Net
    requires |n.pipe| > 0
  {
    var n1 := n.(pipe := n.pipe[1..]);
    match n.pipe[0]
    case Send(id, m, low, _) =>
      var (s, kept) := SendSocket(n.sock, id, m, low);
      var n2 := n1.(sock := s, dropped := if kept then n.dropped else n.dropped + multiset{m});
      (match DecSending(s, id)
       case None => n2.(crashed := true)
       case Some(s') => n2.(sock := s'))
    case Trigger(id) =>
      if n.sock.typ == Invalid || n.sock.id != id then n1 else n1.(sock := n.sock.(writing := true))
    case CloseIt(id, shutdown) =>
      if n.sock.typ == Invalid || n.sock.id != id then n1
      else var (s, force, r) := CloseSocket(n.sock, shutdown); Forced(n1, s, force, r)
  }

  function SocketNext(n: Net, step: Step): Net
    requires SocketThread(step) && Enabled(n, step)
  {
    match step
    case OpenFd(typ) => n.(sock := NewFd(n.sock, typ), spoilt := false)
    case OpenFailed => n.(sock := n.sock.(typ := Invalid), refused := true)
    case ConnectOk => n.(sock := ConnectDone(n.sock))
    case ConnectFailed => StartForce(n).(refused := true)
    case Resume => n.(sock := Resumed(n.sock))
    case ReadZero => var (s, force, r) := ReadEnd(n.sock); Forced(n, s, force, r)
    case WriteEvent(ws) => WriteDone(n, ws)
    case HangUp => Forced(n, n.sock, true, if n.sock.typ == HalfcloseRead then Nothing else Close)
    case FinishForce =>
      n.(sock := Invalidate(n.sock), force := NotClosing, dropped := n.dropped + multiset(Named(Direct(n.sock))))
    case Serve => ServeOne(n)
    case _ => n
  }

  function With(n: Net, k: nat, p: Phase): Net
    requires k < |n.senders|
  {
    n.(senders := n.senders[k := p])
  }

  /** The direct write, what it leaves in the direct write buffer, and the unlock: all under the lock. */
  function DirectDone(n: Net, k: nat, offered: nat): Net
    requires k < |n.senders| && n.senders[k].Checking?
  {
    var m, b := n.senders[k].m, Buffer(n.senders[k].m, 0);
    var w := Min(offered, |m.data|);
    var fd := n.sock.fd + Written(b, w);
    var torn := n.force == Freed(true) && Written(b, w) != [];
    if w == |m.data| then
      With(n, k, Idle).(sock := n.sock.(fd := fd), lock := None, spoilt := n.spoilt || torn, finished := n.finished + multiset{m})
    else
      With(n, k, Notify(n.senders[k].id)).(sock := n.sock.(fd := fd, dw := Some(Buffer(m, w))), lock := None, spoilt := n.spoilt || torn)
  }

  function Checked(n: Net, k: nat): Net
    requires k < |n.senders| && (n.senders[k].Checking? || n.senders[k].Doubtful?)
  {
    var p := n.senders[k];
    if p.Doubtful? then
      if n.sock.typ == Connected then With(n, k, Checking(p.id, p.m, READS))
      else With(n, k, Fallback(p.id, p.m, false)).(lock := None)
    else if ReadHolds(n.sock, p.id, p.passed) then With(n, k, Checking(p.id, p.m, p.passed + 1))
    else if 0 < p.passed < 5 && n.sock.typ == HalfcloseWrite then With(n, k, Doubtful(p.id, p.m))
    else With(n, k, Fallback(p.id, p.m, false)).(lock := None)
  }

  function SenderNext(n: Net, step: Step): Net
    requires SenderStep(step) && Phased(n, step)
  {
    var p := n.senders[step.k];
    match step
    case Begin(k, id, m) =>
      if n.sock.id != id || n.sock.typ == Invalid || n.sock.closing
      then n.(submitted := n.submitted + multiset{m}, dropped := n.dropped + multiset{m})
      else With(n, k, Ready(id, m)).(submitted := n.submitted + multiset{m})
    case BeginLow(k, id, m) =>
      if n.sock.id != id || n.sock.typ == Invalid
      then n.(submitted := n.submitted + multiset{m}, dropped := n.dropped + multiset{m})
      else With(n, k, Fallback(id, m, true)).(submitted := n.submitted + multiset{m})
    case TryLock(k) => With(n, k, Checking(p.id, p.m, 0)).(lock := Some(k))
    case GiveUp(k) => With(n, k, Fallback(p.id, p.m, false))
    case Check(k) => Checked(n, k)
    case WriteDirect(k, offered) => DirectDone(n, k, offered)
    case PostTrigger(k) => With(n, k, Idle).(pipe := n.pipe + [Request.Trigger(p.id)])
    case Count(k) =>
      var (s, counted) := IncSending(n.sock, p.id);
      With(n, k, Queue(p.id, p.m, p.low, counted)).(sock := s)
    case PostSend(k) => With(n, k, Idle).(pipe := n.pipe + [Send(p.id, p.m, p.low, p.counted)])
    case _ => n
  }

  function Next(n: Net, step: Step): Net
    requires Enabled(n, step)
  {
    if SocketThread(step) then SocketNext(n, step)
    else if step.ReserveId? then n.(sock := Reserve(n.sock, step.id), closes := 0, refused := false)
    else if step.PostClose? then n.(pipe := n.pipe + [CloseIt(step.id, step.shutdown)])
    else SenderNext(n, step)
  }

  predicate Initial(n: Net) {
    n.sock == Sock(0, Invalid, false, false, false, [], [], 0, None, 0, 0, [])
    && (forall k :: 0 <= k < |n.senders| ==> n.senders[k].Idle?)
    && n.lock.None? && n.pipe == [] && n.force.NotClosing? && n.closes == 0 && n.refused && !n.spoilt && !n.crashed
    && n.submitted == n.finished == n.dropped == multiset{}
  }

  /** A run: each step is enabled where it is taken. */
  predicate Run(n: Net, steps: seq<Step>)
    decreases |steps|
  {
    |steps| > 0 ==> Enabled(n, steps[0]) && Run(Next(n, steps[0]), steps[1..])
  }

  function After(n: Net, steps: seq<Step>): Net
    requires Run(n, steps)
    decreases |steps|
  {
    if |steps| == 0 then n else After(Next(n, steps[0]), steps[1..])
  }
}
