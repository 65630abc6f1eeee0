/**
 Workers, senders, creators and retirement of services, as interleaved atomic steps
 (fengnet-src/fengnet_server.cpp and fengnet-src/fengnet_mq.cpp).
 */
module Scheduler {
  /** A service's context and mailbox queue; both go by its handle, which is never reused. */
  datatype Service = Service(
    registered: bool,       // in the handle table
    ref: nat,               // the context's reference count
    dying: bool,            // the count has reached zero, fengnet_mq_mark_release is still to come
    queue: seq<int>, inGlobal: bool, release: bool)

  /** What a thread is doing, and so which queues it holds and on which contexts it has a reference. */
  datatype Phase =
    | Off                                   // nothing in hand
    | Carry(h: nat)                         // a worker with a queue, between two dispatches
    | Run(h: nat)                           // dispatching: the queue, and a reference
    | Both(h: nat, next: nat)               // has popped the next queue, not yet pushed this one back
    | Leave(h: nat)                         // the queue was empty: only the reference is left to give back
    | LeaveWith(h: nat, next: nat)          // gives the reference back and goes on with a queue
    | Orphan(h: nat)                        // the queue of a service that is not registered
    | Dropping(h: nat)                      // drains a released queue
    | Holding(h: nat)                       // a reference, from a grab or from the handle table
    | Init(h: nat)                          // a creator running the init function: the queue, and a reference
    | Launch(h: nat)                        // init succeeded: about to push the new queue
    | Failed(h: nat)                        // init failed: about to retire the handle
    | FailedRef(h: nat)                     // the same, with the table's reference to give back

  /** `history` keeps, for every handle ever used, the messages pushed, delivered and dropped, in order. */
  datatype History = History(pushed: seq<int>, delivered: seq<int>, dropped: seq<int>, freed: nat)

  datatype System = System(services: map<nat, Service>, global: seq<nat>, agents: seq<Phase>, history: map<nat, History>)

  datatype Step =
    | Create(k: nat, h: nat)
    | InitOk(k: nat)
    | InitFail(k: nat)
    | PushNew(k: nat)
    | RetireFailed(k: nat)
    | PopGlobal(k: nat)
    | GrabOwn(k: nat)
    | Deliver(k: nat)
    | FindEmpty(k: nat)
    | NextQueue(k: nat)
    | PushBack(k: nat)
    | GiveBack(k: nat)
    | MqRelease(k: nat)
    | DropOne(k: nat)
    | FreeQueue(k: nat)
    | Grab(k: nat, h: nat)
    | Retire(k: nat, h: nat)
    | Push(k: nat, m: int)
    | MarkRelease(k: nat)

  /** Queues a thread holds, counted; references it has, counted. */
  function HoldsQueue(p: Phase, h: nat): nat {
    if p.Both? then (if p.h == h then 1 else 0) + (if p.next == h then 1 else 0)
    else if p.LeaveWith? then (if p.next == h then 1 else 0)
    else if (p.Carry? || p.Run? || p.Orphan? || p.Dropping? || p.Init? || p.Launch? || p.Failed? || p.FailedRef?) && p.h == h then 1
    else 0
  }

  function HoldsRef(p: Phase, h: nat): nat {
    if (p.Run? || p.Both? || p.Leave? || p.LeaveWith? || p.Holding? || p.Init? || p.FailedRef?) && p.h == h then 1 else 0
  }

  predicate Registered(s: System, h: nat) { h in s.services && s.services[h].registered }

  predicate Enabled(s: System, step: Step) {
    if step.MarkRelease? then step.k in s.services && s.services[step.k].dying
    else
      step.k < |s.agents| &&
      var p := s.agents[step.k];
      match step
      case Create(_, h) => p.Off? && h !in s.history
      case InitOk(_) => p.Init?
      case InitFail(_) => p.Init?
      case PushNew(_) => p.Launch?
      case RetireFailed(_) => p.Failed?
      case PopGlobal(_) => p.Off? && |s.global| > 0
      case GrabOwn(_) => p.Carry?
      case Deliver(_) => p.Run? && p.h in s.services && |s.services[p.h].queue| > 0
      case FindEmpty(_) => p.Run? && p.h in s.services && s.services[p.h].queue == []
      case NextQueue(_) => p.Run?
      case PushBack(_) => p.Both?
      case GiveBack(_) => (p.Leave? || p.LeaveWith? || p.Holding? || p.FailedRef?)
      case MqRelease(_) => p.Orphan?
      case DropOne(_) => p.Dropping? && p.h in s.services && |s.services[p.h].queue| > 0
      case FreeQueue(_) => p.Dropping? && p.h in s.services && s.services[p.h].queue == []
      case Grab(_, h) => p.Off? && Registered(s, h)
      case Retire(_, h) => p.Off? && Registered(s, h)
      case Push(_, _) => p.Run? || p.Init? || p.Holding?
      case MarkRelease(_) => false
  }

  function Move(s: System, k: nat, p: Phase): System
    requires k < |s.agents|
  {
    s.(agents := s.agents[k := p])
  }

  function SetService(s: System, h: nat, v: Service): System { s.(services := s.services[h := v]) }

  function Log(s: System, h: nat, v: History): System { s.(history := s.history[h := v]) }

  /** fengnet_context_release: the last reference leaves the context to be deleted. */
  function Released(v: Service): Service
    requires v.ref > 0
  {
    v.(ref := v.ref - 1, dying := v.ref == 1)
  }

  /** A reference is only ever given back by someone who has one; see Accounted below. */
  function GiveRef(s: System, h: nat): System {
    if h in s.services && s.services[h].ref > 0 then SetService(s, h, Released(s.services[h])) else s
  }

  function Listed(s: System, h: nat): System { s.(global := s.global + [h]) }

  function Next(s: System, step: Step): System
    requires Enabled(s, step)
  {
    if step.MarkRelease? then
      var v := s.services[step.k];
      var s1 := SetService(s, step.k, v.(dying := false, release := true));
      if v.inGlobal then s1 else Listed(s1, step.k)
    else AgentNext(s, step)
  }

  function AgentNext(s: System, step: Step): System
    requires !step.MarkRelease? && Enabled(s, step)
  {
    var k, p := step.k, s.agents[step.k];
    match step
    case Create(_, h) =>
      Log(SetService(Move(s, k, Init(h)), h, Service(true, 2, false, [], true, false)), h, History([], [], [], 0))
    case InitOk(_) => GiveRef(Move(s, k, Launch(p.h)), p.h)
    case InitFail(_) => GiveRef(Move(s, k, Failed(p.h)), p.h)
    case PushNew(_) => Listed(Move(s, k, Off), p.h)
    case RetireFailed(_) =>
      if Registered(s, p.h) then SetService(Move(s, k, FailedRef(p.h)), p.h, s.services[p.h].(registered := false))
      else Move(s, k, Orphan(p.h))
    case PopGlobal(_) => Move(s, k, Carry(s.global[0])).(global := s.global[1..])
    case GrabOwn(_) =>
      if Registered(s, p.h) then SetService(Move(s, k, Run(p.h)), p.h, s.services[p.h].(ref := s.services[p.h].ref + 1))
      else Move(s, k, Orphan(p.h))
    case Deliver(_) => Taken(s, p.h, true)
    case FindEmpty(_) => SetService(Move(s, k, Leave(p.h)), p.h, s.services[p.h].(inGlobal := false))
    case NextQueue(_) =>
      if s.global == [] then Move(s, k, LeaveWith(p.h, p.h))
      else Move(s, k, Both(p.h, s.global[0])).(global := s.global[1..])
    case PushBack(_) => Listed(Move(s, k, LeaveWith(p.h, p.next)), p.h)
    case GiveBack(_) =>
      GiveRef(Move(s, k, if p.LeaveWith? then Carry(p.next) else if p.FailedRef? then Orphan(p.h) else Off), p.h)
    case MqRelease(_) =>
      if p.h in s.services && s.services[p.h].release then Move(s, k, Dropping(p.h)) else Listed(Move(s, k, Off), p.h)
    case DropOne(_) => Taken(s, p.h, false)
    case FreeQueue(_) =>
      var s1 := Move(s, k, Off);
      Freed(s1.(services := s1.services - {p.h}), p.h)
    case Grab(_, h) => SetService(Move(s, k, Holding(h)), h, s.services[h].(ref := s.services[h].ref + 1))
    case Retire(_, h) => SetService(Move(s, k, Holding(h)), h, s.services[h].(registered := false))
    case Push(_, m) => Pushed(s, p.h, m)
  }

  /** The oldest message of a queue goes to the callback, or is dropped. */
  function Taken(s: System, h: nat, deliver: bool): System
    requires h in s.services && |s.services[h].queue| > 0
  {
    var v := s.services[h];
    var m := v.queue[0];
    var s1 := SetService(s, h, v.(queue := v.queue[1..]));
    if h !in s.history then s1
    else if deliver then Log(s1, h, s.history[h].(delivered := s.history[h].delivered + [m]))
    else Log(s1, h, s.history[h].(dropped := s.history[h].dropped + [m]))
  }

  function Freed(s: System, h: nat): System {
    if h in s.history then Log(s, h, s.history[h].(freed := s.history[h].freed + 1)) else s
  }

  /** fengnet_mq_push */
  function Pushed(s: System, h: nat, m: int): System {
    if h !in s.services then s
    else
      var v := s.services[h];
      var s1 := SetService(s, h, v.(queue := v.queue + [m], inGlobal := true));
      var s2 := if h in s.history then Log(s1, h, s.history[h].(pushed := s.history[h].pushed + [m])) else s1;
      if v.inGlobal then s2 else Listed(s2, h)
  }

  predicate Initial(s: System) {
    s.services == map[] && s.global == [] && s.history == map[] && forall k :: 0 <= k < |s.agents| ==> s.agents[k].Off?
  }

  predicate Reaches(s: System, steps: seq<Step>)
    decreases |steps|
  {
    |steps| > 0 ==> Enabled(s, steps[0]) && Reaches(Next(s, steps[0]), steps[1..])
  }

  function After(s: System, steps: seq<Step>): System
    requires Reaches(s, steps)
    decreases |steps|
  {
    if |steps| == 0 then s else After(Next(s, steps[0]), steps[1..])
  }

  // ---------- what a run does, read off its steps ----------

  /** The queue a thread works on. */
  function InHand(s: System, k: nat): nat {
    if k < |s.agents| && !s.agents[k].Off? then s.agents[k].h else 0
  }

  predicate SendsTo(s: System, step: Step, h: nat) { step.Push? && InHand(s, step.k) == h }

  /** The messages given to fengnet_mq_push for the queue of h, in the order of the calls. */
  function Sent(s: System, steps: seq<Step>, h: nat): seq<int>
    requires Reaches(s, steps)
    decreases |steps|
  {
    if |steps| == 0 then []
    else (if SendsTo(s, steps[0], h) then [steps[0].m] else []) + Sent(Next(s, steps[0]), steps[1..], h)
  }

  /** The message at the head of the queue of h in the state of a step that takes it there. */
  function Heads(s: System, h: nat): seq<int> {
    if h in s.services && |s.services[h].queue| > 0 then [s.services[h].queue[0]] else []
  }

  /** The messages handed to the callback of h. */
  function CalledWith(s: System, steps: seq<Step>, h: nat): seq<int>
    requires Reaches(s, steps)
    decreases |steps|
  {
    if |steps| == 0 then []
    else (if steps[0].Deliver? && InHand(s, steps[0].k) == h then Heads(s, h) else [])
         + CalledWith(Next(s, steps[0]), steps[1..], h)
  }

  /** The messages handed to the drop function of the queue of h. */
  function DroppedFrom(s: System, steps: seq<Step>, h: nat): seq<int>
    requires Reaches(s, steps)
    decreases |steps|
  {
    if |steps| == 0 then []
    else (if steps[0].DropOne? && InHand(s, steps[0].k) == h then Heads(s, h) else [])
         + DroppedFrom(Next(s, steps[0]), steps[1..], h)
  }
}

/** What every step of the scheduler keeps. */
module SchedulerSafety {
  import opened Scheduler

  function Queues(ps: seq<Phase>, h: nat): nat {
    if |ps| == 0 then 0 else HoldsQueue(ps[0], h) + Queues(ps[1..], h)
  }

  function Refs(ps: seq<Phase>, h: nat): nat {
    if |ps| == 0 then 0 else HoldsRef(ps[0], h) + Refs(ps[1..], h)
  }

  lemma {:induction false} SumsMove(ps: seq<Phase>, k: nat, p: Phase, h: nat)
    requires k < |ps|
    ensures Queues(ps[k := p], h) + HoldsQueue(ps[k], h) == Queues(ps, h) + HoldsQueue(p, h)
    ensures Refs(ps[k := p], h) + HoldsRef(ps[k], h) == Refs(ps, h) + HoldsRef(p, h)
    ensures HoldsQueue(ps[k], h) <= Queues(ps, h) && HoldsRef(ps[k], h) <= Refs(ps, h)
  {
    if k == 0 {
      assert ps[k := p][1..] == ps[1..];
    } else {
      assert ps[k := p][1..] == ps[1..][k - 1 := p];
      SumsMove(ps[1..], k - 1, p, h);
    }
  }

  function Listings(global: seq<nat>, h: nat): nat { multiset(global)[h] }

  /** Where a queue is: its places in the global list and the threads that hold it. */
  function Places(s: System, h: nat): nat { Listings(s.global, h) + Queues(s.agents, h) }

  /**
   A live queue is in one place when it is marked as tended or released, and in none otherwise;
   an untended one is empty; the reference count is exact; and the context is deleted once.
   */
  predicate ServiceOk(s: System, h: nat, v: Service) {
    Places(s, h) == (if v.inGlobal || v.release then 1 else 0)
    && v.ref == Refs(s.agents, h) + (if v.registered then 1 else 0)
    && (v.dying <==> v.ref == 0 && !v.release)
    && (v.release ==> v.ref == 0)
    && (!v.inGlobal ==> v.queue == [])
  }

  /** Messages leave a queue in the order they came: first to the callback, then, once released, to the drop function. */
  predicate HistoryOk(s: System, h: nat) {
    h in s.history &&
    var y := s.history[h];
    if h in s.services
    then y.pushed == y.delivered + y.dropped + s.services[h].queue && y.freed == 0 && (y.dropped != [] ==> s.services[h].release)
    else y.pushed == y.delivered + y.dropped && y.freed == 1
  }

  predicate Accounted(s: System, h: nat) {
    if h in s.services then ServiceOk(s, h, s.services[h]) else Places(s, h) == 0 && Refs(s.agents, h) == 0
  }

  /** A thread drains only a released queue. */
  predicate DropsReleased(s: System, k: nat) {
    k < |s.agents| && s.agents[k].Dropping? ==> s.agents[k].h in s.services && s.services[s.agents[k].h].release
  }

  ghost predicate Inv(s: System) {
    (forall h: nat :: Accounted(s, h))
    && (forall h: nat :: h in s.services || h in s.history ==> HistoryOk(s, h))
    && (forall k: nat :: DropsReleased(s, k))
  }

  lemma ListPush(global: seq<nat>, x: nat, h: nat)
    ensures Listings(global + [x], h) == Listings(global, h) + if x == h then 1 else 0
  {
  }

  lemma ListPop(global: seq<nat>, h: nat)
    requires |global| > 0
    ensures Listings(global[1..], h) == Listings(global, h) - if global[0] == h then 1 else 0
  {
    assert global == [global[0]] + global[1..];
  }

  /** One thread moves on, perhaps pushing to or popping from the global list. */
  lemma Moved(s: System, t: System, k: nat, h: nat)
    requires k < |s.agents| == |t.agents| && t.agents == s.agents[k := t.agents[k]]
    requires t.global == s.global || (|s.global| > 0 && t.global == s.global[1..])
      || (|t.global| == |s.global| + 1 && t.global == s.global + [t.global[|s.global|]])
    ensures Queues(t.agents, h) + HoldsQueue(s.agents[k], h) == Queues(s.agents, h) + HoldsQueue(t.agents[k], h)
    ensures Refs(t.agents, h) + HoldsRef(s.agents[k], h) == Refs(s.agents, h) + HoldsRef(t.agents[k], h)
    ensures HoldsQueue(s.agents[k], h) <= Queues(s.agents, h) && HoldsRef(s.agents[k], h) <= Refs(s.agents, h)
    ensures |t.global| > |s.global| ==> Listings(t.global, h) == Listings(s.global, h) + if t.global[|s.global|] == h then 1 else 0
    ensures |t.global| < |s.global| ==> Listings(t.global, h) == Listings(s.global, h) - if s.global[0] == h then 1 else 0
    ensures |t.global| == |s.global| ==> Listings(t.global, h) == Listings(s.global, h)
  {
    SumsMove(s.agents, k, t.agents[k], h);
    if |t.global| > |s.global| {
      ListPush(s.global, t.global[|s.global|], h);
    } else if |t.global| < |s.global| {
      ListPop(s.global, h);
    }
  }

  /** The shape of a step that only moves the thread and the global list. */
  lemma PlainKept(s: System, step: Step, h: nat)
    requires Accounted(s, h) && Enabled(s, step)
    requires step.PushNew? || step.PopGlobal? || step.NextQueue? || step.PushBack? || step.MqRelease?
    ensures Accounted(Next(s, step), h)
  {
    hide Queues, Refs, Listings;
    Moved(s, Next(s, step), step.k, h);
  }

  lemma CreateKept(s: System, step: Step, h: nat)
    requires Accounted(s, h) && Enabled(s, step) && step.Create? && (h in s.services ==> h in s.history)
    ensures Accounted(Next(s, step), h)
  {
    hide Queues, Refs, Listings;
    Moved(s, Next(s, step), step.k, h);
  }

  /** Taking a reference by the handle. */
  lemma TakeRefKept(s: System, step: Step, h: nat)
    requires Accounted(s, h) && Enabled(s, step) && (step.GrabOwn? || step.Grab? || step.Retire? || step.RetireFailed?)
    ensures Accounted(Next(s, step), h)
  {
    hide Queues, Refs, Listings;
    Moved(s, Next(s, step), step.k, h);
  }

  /** Giving a reference back; the last one leaves the context dying. */
  lemma GiveRefKept(s: System, step: Step, h: nat)
    requires Accounted(s, h) && Enabled(s, step) && (step.GiveBack? || step.InitOk? || step.InitFail?)
    ensures Accounted(Next(s, step), h)
  {
    hide Queues, Refs, Listings;
    Moved(s, Next(s, step), step.k, h);
  }

  lemma QueueKept(s: System, step: Step, h: nat)
    requires Accounted(s, h) && Enabled(s, step) && (step.Deliver? || step.DropOne? || step.FindEmpty? || step.Push?)
    requires step.DropOne? ==> s.services[s.agents[step.k].h].release
    ensures Accounted(Next(s, step), h)
  {
    hide Queues, Refs, Listings;
    if !step.FindEmpty? {
      assert s.agents[step.k := s.agents[step.k]] == s.agents;
    }
    Moved(s, Next(s, step), step.k, h);
  }

  lemma FreeKept(s: System, step: Step, h: nat)
    requires Accounted(s, h) && Enabled(s, step) && step.FreeQueue? && DropsReleased(s, step.k)
    ensures Accounted(Next(s, step), h)
  {
    hide Queues, Refs, Listings;
    Moved(s, Next(s, step), step.k, h);
  }

  lemma MarkKept(s: System, step: Step, h: nat)
    requires Accounted(s, h) && Enabled(s, step) && step.MarkRelease?
    ensures Accounted(Next(s, step), h)
  {
    hide Queues, Refs;
    ListPush(s.global, step.k, h);
  }

  lemma AccountedKept(s: System, step: Step, h: nat)
    requires Inv(s) && Enabled(s, step)
    ensures Accounted(Next(s, step), h)
  {
    hide Accounted, Next;
    assert Accounted(s, h) && DropsReleased(s, step.k);
    assert h in s.services ==> HistoryOk(s, h);
    match step
    case Create(_, _) => CreateKept(s, step, h);
    case InitOk(_) => GiveRefKept(s, step, h);
    case InitFail(_) => GiveRefKept(s, step, h);
    case GiveBack(_) => GiveRefKept(s, step, h);
    case RetireFailed(_) => TakeRefKept(s, step, h);
    case GrabOwn(_) => TakeRefKept(s, step, h);
    case Grab(_, _) => TakeRefKept(s, step, h);
    case Retire(_, _) => TakeRefKept(s, step, h);
    case Deliver(_) => QueueKept(s, step, h);
    case FindEmpty(_) => QueueKept(s, step, h);
    case DropOne(_) => QueueKept(s, step, h);
    case Push(_, _) => QueueKept(s, step, h);
    case FreeQueue(_) => FreeKept(s, step, h);
    case MarkRelease(_) => MarkKept(s, step, h);
    case PushNew(_) => PlainKept(s, step, h);
    case PopGlobal(_) => PlainKept(s, step, h);
    case NextQueue(_) => PlainKept(s, step, h);
    case PushBack(_) => PlainKept(s, step, h);
    case MqRelease(_) => PlainKept(s, step, h);
  }

  /** A thread that delivers from a queue has a reference, so its service is not released. */
  lemma RunsUnreleased(s: System, k: nat)
    requires k < |s.agents| && !s.agents[k].Off? && HoldsRef(s.agents[k], s.agents[k].h) == 1
    requires Accounted(s, s.agents[k].h)
    ensures s.agents[k].h in s.services && !s.services[s.agents[k].h].release
  {
    SumsMove(s.agents, k, Off, s.agents[k].h);
  }

  lemma HistoryKept(s: System, step: Step, h: nat)
    requires Inv(s) && Enabled(s, step) && (h in s.services || h in s.history || (step.Create? && step.h == h))
    ensures HistoryOk(Next(s, step), h)
  {
    hide Accounted, Next, Enabled;
    assert h in s.services || h in s.history ==> HistoryOk(s, h);
    assert DropsReleased(s, step.k);
    if step.Deliver? || step.Push? || step.DropOne? {
      assert Accounted(s, s.agents[step.k].h) by { TrafficAccounted(s, step); }
      TrafficKept(s, step, h);
    } else {
      QuietKept(s, step, h);
    }
  }

  lemma TrafficAccounted(s: System, step: Step)
    requires Inv(s) && Enabled(s, step) && (step.Deliver? || step.Push? || step.DropOne?)
    ensures step.k < |s.agents| && !s.agents[step.k].Off? && Accounted(s, s.agents[step.k].h)
  {
  }

  lemma TrafficKept(s: System, step: Step, h: nat)
    requires Enabled(s, step) && (step.Deliver? || step.Push? || step.DropOne?) && DropsReleased(s, step.k)
    requires h in s.services || h in s.history ==> HistoryOk(s, h)
    requires h in s.services || h in s.history
    requires Accounted(s, s.agents[step.k].h)
    ensures HistoryOk(Next(s, step), h)
  {
    hide Accounted;
    if !step.DropOne? { RunsUnreleased(s, step.k); }
  }

  lemma QuietKept(s: System, step: Step, h: nat)
    requires Enabled(s, step) && !step.Deliver? && !step.Push? && !step.DropOne? && DropsReleased(s, step.k)
    requires h in s.services || h in s.history ==> HistoryOk(s, h)
    requires h in s.services || h in s.history || (step.Create? && step.h == h)
    ensures HistoryOk(Next(s, step), h)
  {
  }

  lemma DropsKept(s: System, step: Step, k: nat)
    requires Inv(s) && Enabled(s, step)
    ensures DropsReleased(Next(s, step), k)
  {
    hide Accounted, HistoryOk, Enabled, Next;
    assert DropsReleased(s, k);
    var after := Next(s, step);
    if k < |after.agents| && after.agents[k].Dropping? {
      DroppingFrom(s, step, k);
      if !DropsReleased(after, k) {
        assert Accounted(s, s.agents[k].h) && HistoryOk(s, s.agents[k].h);
        Recorded(s, s.agents[k].h);
        SoleHolder(s, step, k);
        ReleaseStays(s, step, s.agents[k].h);
      }
    }
  }

  /** A drain goes on, or begins on a released queue. */
  lemma DroppingFrom(s: System, step: Step, k: nat)
    requires Enabled(s, step) && k < |Next(s, step).agents| && Next(s, step).agents[k].Dropping?
    ensures (k < |s.agents| && s.agents[k] == Next(s, step).agents[k] && !(step.FreeQueue? && step.k == k))
            || DropsReleased(Next(s, step), k)
  {
  }

  lemma Recorded(s: System, h: nat)
    requires HistoryOk(s, h)
    ensures h in s.history
  {
  }

  lemma ReleaseStays(s: System, step: Step, h: nat)
    requires Enabled(s, step) && h in s.services && h in s.history && s.services[h].release
    requires !(step.FreeQueue? && s.agents[step.k].h == h)
    ensures h in Next(s, step).services && Next(s, step).services[h].release
  {
  }

  /** While a thread holds a queue nobody else does, so only it can free it. */
  lemma SoleHolder(s: System, step: Step, k: nat)
    requires Enabled(s, step) && k < |s.agents| && s.agents[k].Dropping? && Accounted(s, s.agents[k].h)
    ensures step.FreeQueue? && step.k != k ==> s.agents[step.k].h != s.agents[k].h
  {
    if step.FreeQueue? && step.k != k { TwoHolders(s.agents, step.k, k, s.agents[k].h); }
  }

  lemma TwoHolders(ps: seq<Phase>, i: nat, j: nat, h: nat)
    requires i < |ps| && j < |ps| && i != j
    ensures HoldsQueue(ps[i], h) + HoldsQueue(ps[j], h) <= Queues(ps, h)
  {
    SumsMove(ps, i, Off, h);
    SumsMove(ps[i := Off], j, Off, h);
  }

  lemma InvKept(s: System, step: Step)
    requires Inv(s) && Enabled(s, step)
    ensures Inv(Next(s, step))
  {
    var t := Next(s, step);
    forall h: nat ensures Accounted(t, h) { AccountedKept(s, step, h); }
    forall k: nat ensures DropsReleased(t, k) { DropsKept(s, step, k); }
    forall h: nat | h in t.services || h in t.history
      ensures HistoryOk(t, h)
    {
      Known(s, step, h);
      HistoryKept(s, step, h);
    }
  }

  lemma Known(s: System, step: Step, h: nat)
    requires Enabled(s, step) && (h in Next(s, step).services || h in Next(s, step).history)
    ensures h in s.services || h in s.history || (step.Create? && step.h == h)
  {
  }

  lemma {:induction false} InvAlways(s: System, steps: seq<Step>)
    requires Inv(s) && Reaches(s, steps)
    ensures Inv(After(s, steps))
    decreases |steps|
  {
    hide Inv, Next, Enabled;
    if |steps| > 0 {
      InvKept(s, steps[0]);
      InvAlways(Next(s, steps[0]), steps[1..]);
    }
  }

  lemma InitialInv(s: System)
    requires Initial(s)
    ensures Inv(s)
  {
    forall h: nat ensures Accounted(s, h) { AllOff(s.agents, h); }
  }

  lemma {:induction false} AllOff(ps: seq<Phase>, h: nat)
    requires forall k :: 0 <= k < |ps| ==> ps[k].Off?
    ensures Queues(ps, h) == 0 && Refs(ps, h) == 0
  {
    if |ps| > 0 { AllOff(ps[1..], h); }
  }

  lemma Reached(s: System, steps: seq<Step>)
    requires Initial(s) && Reaches(s, steps)
    ensures Inv(After(s, steps))
  {
    hide Inv, Reaches, After;
    InitialInv(s);
    InvAlways(s, steps);
  }

  // ---------- the main results ----------

  predicate InList(s: System, h: nat) { Listings(s.global, h) == 1 && Queues(s.agents, h) == 0 }

  ghost predicate HeldOnce(s: System, h: nat) {
    Listings(s.global, h) == 0 && Queues(s.agents, h) == 1
    && exists k :: 0 <= k < |s.agents| && HoldsQueue(s.agents[k], h) == 1
  }

  predicate IdleEmpty(s: System, h: nat) {
    Listings(s.global, h) == 0 && Queues(s.agents, h) == 0
    && h in s.services && !s.services[h].inGlobal && !s.services[h].release && s.services[h].queue == []
  }

  lemma {:induction false} SomeHolder(ps: seq<Phase>, h: nat) returns (k: nat)
    requires Queues(ps, h) > 0
    ensures k < |ps| && HoldsQueue(ps[k], h) > 0
  {
    if HoldsQueue(ps[0], h) > 0 {
      k := 0;
    } else {
      k := SomeHolder(ps[1..], h);
      k := k + 1;
    }
  }

  /**
   In every run every live queue is in exactly one place: once in the global list, in the hands of
   one worker or creator, or idle, unreleased and empty. So no message waits in a queue that
   nobody will look at.
   */
  lemma QueueInOnePlace(s: System, steps: seq<Step>, h: nat)
    requires Initial(s) && Reaches(s, steps) && h in After(s, steps).services
    ensures var t := After(s, steps);
      InList(t, h) || HeldOnce(t, h) || IdleEmpty(t, h)
  {
    hide Inv, Reaches, After;
    Reached(s, steps);
    var t := After(s, steps);
    assert Accounted(t, h) by { InvAt(t, h); }
    if Queues(t.agents, h) > 0 {
      var k := SomeHolder(t.agents, h);
      SumsMove(t.agents, k, Off, h);
    }
  }

  lemma InvAt(s: System, h: nat)
    requires Inv(s)
    ensures Accounted(s, h)
    ensures h in s.services || h in s.history ==> HistoryOk(s, h)
  {
  }

  /** No two threads ever have the same queue, so no two workers dispatch one service at the same time. */
  lemma OneDispatcher(s: System, steps: seq<Step>, i: nat, j: nat, h: nat)
    requires Initial(s) && Reaches(s, steps) && i < |After(s, steps).agents| && j < |After(s, steps).agents| && i != j
    ensures var t := After(s, steps); HoldsQueue(t.agents[i], h) == 0 || HoldsQueue(t.agents[j], h) == 0
  {
    hide Inv, Reaches, After;
    Reached(s, steps);
    InvAt(After(s, steps), h);
    TwoHolders(After(s, steps).agents, i, j, h);
  }

  /** The messages on record for a handle; none before it is used. */
  function Record(s: System, h: nat): History { if h in s.history then s.history[h] else History([], [], [], 0) }

  /** One step: what is recorded is what the step says it does. */
  lemma RecordStep(s: System, step: Step, h: nat)
    requires Inv(s) && Enabled(s, step)
    ensures var y, z := Record(s, h), Record(Next(s, step), h);
      z.pushed == y.pushed + (if SendsTo(s, step, h) then [step.m] else [])
      && z.delivered == y.delivered + (if step.Deliver? && InHand(s, step.k) == h then Heads(s, h) else [])
      && z.dropped == y.dropped + (if step.DropOne? && InHand(s, step.k) == h then Heads(s, h) else [])
  {
    hide Inv, Accounted, HistoryOk;
    var y, z := Record(s, h), Record(Next(s, step), h);
    assert y.pushed + [] == y.pushed && y.delivered + [] == y.delivered && y.dropped + [] == y.dropped;
    if step.Push? || step.Deliver? || step.DropOne? {
      InvAt(s, InHand(s, step.k));
      WorksAlive(s, step);
    }
  }

  /** A queue that is pushed to, read or drained is alive and on record. */
  lemma WorksAlive(s: System, step: Step)
    requires Inv(s) && Enabled(s, step) && (step.Push? || step.Deliver? || step.DropOne?)
    ensures InHand(s, step.k) in s.services && InHand(s, step.k) in s.history
  {
    var h := InHand(s, step.k);
    InvAt(s, h);
    SumsMove(s.agents, step.k, Off, h);
  }

  lemma {:induction false} RecordsGrow(s: System, steps: seq<Step>, h: nat)
    requires Inv(s) && Reaches(s, steps)
    ensures var y, z := Record(s, h), Record(After(s, steps), h);
      z.pushed == y.pushed + Sent(s, steps, h) && z.delivered == y.delivered + CalledWith(s, steps, h)
      && z.dropped == y.dropped + DroppedFrom(s, steps, h)
    decreases |steps|
  {
    hide Inv, Next, Enabled, Heads, Record, InHand, SendsTo;
    if |steps| > 0 {
      RecordStep(s, steps[0], h);
      InvKept(s, steps[0]);
      var t := Next(s, steps[0]);
      RecordsGrow(t, steps[1..], h);
      var y, z := Record(s, h), Record(t, h);
      Joined(y.pushed, z.pushed, Sent(t, steps[1..], h));
      Joined(y.delivered, z.delivered, CalledWith(t, steps[1..], h));
      Joined(y.dropped, z.dropped, DroppedFrom(t, steps[1..], h));
    }
  }

  lemma Joined(a: seq<int>, ab: seq<int>, c: seq<int>)
    ensures forall b: seq<int> :: ab == a + b ==> ab + c == a + (b + c)
  {
    forall b: seq<int> | ab == a + b ensures ab + c == a + (b + c) {}
  }

  lemma RecordExact(s: System, steps: seq<Step>, h: nat)
    requires Initial(s) && Reaches(s, steps)
    ensures var z := Record(After(s, steps), h);
      z.pushed == Sent(s, steps, h) && z.delivered == CalledWith(s, steps, h) && z.dropped == DroppedFrom(s, steps, h)
  {
    assert Record(s, h) == History([], [], [], 0);
    InitialInv(s);
    hide Inv, Reaches, After, Sent, CalledWith, DroppedFrom, Record;
    RecordsGrow(s, steps, h);
  }

  /** The messages waiting in the queue of a service. */
  function Waiting(s: System, h: nat): seq<int> { if h in s.services then s.services[h].queue else [] }

  /**
   In every run the messages that threads pushed to a service, as the steps of the run name them,
   are in order those its callback was given, then those given to the drop function, then those
   still waiting; nothing is dropped before the release, and a queue is freed once, with nothing in it.
   */
  lemma MessagesInOrder(s: System, steps: seq<Step>, h: nat)
    requires Initial(s) && Reaches(s, steps)
    ensures Sent(s, steps, h) == CalledWith(s, steps, h) + DroppedFrom(s, steps, h) + Waiting(After(s, steps), h)
    ensures var t := After(s, steps);
      h in t.services && !t.services[h].release ==> DroppedFrom(s, steps, h) == []
    ensures var t := After(s, steps); h in t.history ==> HistoryOk(t, h)
  {
    hide Inv, Reaches, After, Sent, CalledWith, DroppedFrom;
    Reached(s, steps);
    InvAt(After(s, steps), h);
    RecordExact(s, steps, h);
  }

  /** Whatever a thread holds or the global list names is alive: nothing is used after it is freed. */
  lemma NothingDangles(s: System, steps: seq<Step>, k: nat, h: nat)
    requires Initial(s) && Reaches(s, steps) && k < |After(s, steps).agents|
    requires var t := After(s, steps);
      HoldsQueue(t.agents[k], h) > 0 || HoldsRef(t.agents[k], h) > 0 || h in t.global
    ensures h in After(s, steps).services
    ensures HoldsRef(After(s, steps).agents[k], h) > 0 ==> After(s, steps).services[h].ref > 0
  {
    hide Inv, Reaches, After;
    Reached(s, steps);
    var t := After(s, steps);
    InvAt(t, h);
    SumsMove(t.agents, k, Off, h);
  }

  /** The assert of fengnet_globalmq_push: a queue that is pushed is not in the list already. */
  lemma PushedOnce(s: System, steps: seq<Step>, step: Step, h: nat)
    requires Initial(s) && Reaches(s, steps) && Enabled(After(s, steps), step)
    requires Next(After(s, steps), step).global == After(s, steps).global + [h]
    ensures Listings(After(s, steps).global, h) == 0
  {
    hide Inv, Reaches, After, Next, Enabled;
    Reached(s, steps);
    InvKept(After(s, steps), step);
    InvAt(Next(After(s, steps), step), h);
    ListPush(After(s, steps).global, h, h);
  }

  /**
   When every thread is at rest and the global list is empty, every message that was pushed has been
   given to the callback, or to the drop function of a released queue.
   */
  lemma RestLosesNothing(s: System, steps: seq<Step>, h: nat)
    requires Initial(s) && Reaches(s, steps)
    requires After(s, steps).global == [] && forall k :: 0 <= k < |After(s, steps).agents| ==> After(s, steps).agents[k].Off?
    ensures Sent(s, steps, h) == CalledWith(s, steps, h) + DroppedFrom(s, steps, h)
  {
    hide Inv, Reaches, After, Sent, CalledWith, DroppedFrom;
    Reached(s, steps);
    var t := After(s, steps);
    InvAt(t, h);
    AllOff(t.agents, h);
    MessagesInOrder(s, steps, h);
  }
}
