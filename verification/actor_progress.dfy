/**
 What the scheduler makes possible: from every state it can reach, the messages waiting for a
 registered service can all be delivered and a released queue can be drained and freed; and when
 a handle is registered.
 */
module SchedulerProgress {
  import opened Scheduler
  import opened SchedulerSafety

  // ---------- registration ----------

  /** The step takes h out of the handle table, if it is there. */
  predicate Retires(s: System, step: Step, h: nat) {
    (step.Retire? && step.h == h) || (step.RetireFailed? && InHand(s, step.k) == h)
  }

  /** In this run h is created, and not retired after that. */
  predicate CreatedAndKept(s: System, steps: seq<Step>, h: nat, before: bool)
    requires Reaches(s, steps)
    decreases |steps|
  {
    if |steps| == 0 then before
    else CreatedAndKept(Next(s, steps[0]), steps[1..], h,
                        if steps[0].Create? && steps[0].h == h then true
                        else if Retires(s, steps[0], h) then false else before)
  }

  lemma RegisteredStep(s: System, step: Step, h: nat)
    requires Inv(s) && Enabled(s, step)
    ensures Registered(Next(s, step), h) <==>
            (step.Create? && step.h == h) || (Registered(s, h) && !Retires(s, step, h))
  {
    if step.FreeQueue? {
      FreedUnregistered(s, step.k);
    } else if step.Create? {
      InvAt(s, step.h);
    }
    hide Inv, Queues, Refs, Listings, Accounted, HistoryOk, DropsReleased;
    if step.Push? || step.Deliver? || step.DropOne? {
      SameRegistered(s, step, h);
    }
  }

  lemma SameRegistered(s: System, step: Step, h: nat)
    requires Enabled(s, step) && (step.Push? || step.Deliver? || step.DropOne?)
    ensures Registered(Next(s, step), h) <==> Registered(s, h)
  {
  }

  lemma FreedUnregistered(s: System, k: nat)
    requires Inv(s) && k < |s.agents| && s.agents[k].Dropping?
    ensures !Registered(s, s.agents[k].h)
  {
    InvAt(s, s.agents[k].h);
    assert DropsReleased(s, k);
  }

  lemma {:induction false} RegisteredAlways(s: System, steps: seq<Step>, h: nat)
    requires Inv(s) && Reaches(s, steps)
    ensures Registered(After(s, steps), h) <==> CreatedAndKept(s, steps, h, Registered(s, h))
    decreases |steps|
  {
    hide Inv, Next, Enabled, Registered, Retires;
    if |steps| > 0 {
      RegisteredStep(s, steps[0], h);
      InvKept(s, steps[0]);
      RegisteredAlways(Next(s, steps[0]), steps[1..], h);
    }
  }

  /** A handle is registered from its creation to its retirement, and at no other time. */
  lemma RegisteredExactly(s: System, steps: seq<Step>, h: nat)
    requires Initial(s) && Reaches(s, steps)
    ensures Registered(After(s, steps), h) <==> CreatedAndKept(s, steps, h, false)
  {
    InitialInv(s);
    assert !Registered(s, h);
    hide Inv, Reaches, After, Registered;
    RegisteredAlways(s, steps, h);
  }

  // ---------- bringing a queue to a worker ----------

  function Length(s: System, h: nat): nat { if h in s.services then |s.services[h].queue| else 0 }

  /** What a thread does next, when it takes no message and begins nothing new. */
  function Onward(s: System, k: nat): Step
    requires k < |s.agents|
  {
    match s.agents[k]
    case Off => PopGlobal(k)
    case Carry(_) => GrabOwn(k)
    case Run(_) => NextQueue(k)
    case Both(_, _) => PushBack(k)
    case Orphan(_) => MqRelease(k)
    case Dropping(h) => if Length(s, h) > 0 then DropOne(k) else FreeQueue(k)
    case Init(_) => InitOk(k)
    case Launch(_) => PushNew(k)
    case Failed(_) => RetireFailed(k)
    case _ => GiveBack(k)
  }

  /** How many of these steps it is from popping a queue. */
  function Rank(s: System, p: Phase): nat {
    match p
    case Off => 0
    case Run(_) => 0
    case Leave(_) => 1
    case Holding(_) => 1
    case Launch(_) => 1
    case Init(_) => 2
    case Dropping(h) => 1 + Length(s, h)
    case Orphan(h) => 2 + Length(s, h)
    case Carry(h) => 3 + Length(s, h)
    case FailedRef(h) => 3 + Length(s, h)
    case LeaveWith(_, next) => 4 + Length(s, next)
    case Failed(h) => 4 + Length(s, h)
    case Both(_, next) => 5 + Length(s, next)
  }

  function IndexOf(list: seq<nat>, h: nat): (i: nat)
    requires h in list
    ensures i < |list| && list[i] == h
  {
    if list[0] == h then 0 else 1 + IndexOf(list[1..], h)
  }

  lemma {:induction false} IndexPush(list: seq<nat>, x: nat, h: nat)
    requires h in list
    ensures h in list + [x] && IndexOf(list + [x], h) == IndexOf(list, h)
  {
    assert (list + [x])[0] == list[0];
    if list[0] != h {
      assert (list + [x])[1..] == list[1..] + [x];
      IndexPush(list[1..], x, h);
    }
  }

  lemma DrainsAlive(s: System, k: nat)
    requires Inv(s) && k < |s.agents| && s.agents[k].Dropping?
    ensures s.agents[k].h in s.services
  {
    assert DropsReleased(s, k);
  }

  lemma OnwardEnabled(s: System, k: nat)
    requires Inv(s) && k < |s.agents| && (s.agents[k].Off? ==> |s.global| > 0)
    ensures Enabled(s, Onward(s, k))
  {
    if s.agents[k].Dropping? {
      DrainsAlive(s, k);
    }
  }

  /** The record of a service as it matters here. */
  predicate SameService(s: System, t: System, h: nat) {
    h in s.services && h in t.services && t.services[h].queue == s.services[h].queue
    && t.services[h].registered == s.services[h].registered && t.services[h].release == s.services[h].release
  }

  /** A thread that does not have the queue in hand leaves the service alone and gets nearer to the list's head. */
  lemma ListedMoves(s: System, h: nat, k: nat)
    requires Inv(s) && k < |s.agents| && h in s.services && h in s.global && HoldsQueue(s.agents[k], h) == 0
    ensures Enabled(s, Onward(s, k))
    ensures var t := Next(s, Onward(s, k)); SameService(s, t, h) && |t.agents| == |s.agents|
    ensures var t := Next(s, Onward(s, k));
      if h in t.global then
        IndexOf(t.global, h) < IndexOf(s.global, h)
        || (IndexOf(t.global, h) == IndexOf(s.global, h) && Rank(t, t.agents[k]) < Rank(s, s.agents[k]))
      else HoldsQueue(t.agents[k], h) == 1 && (t.agents[k] == Carry(h) || (t.agents[k].Both? && t.agents[k].next == h))
  {
    OnwardEnabled(s, k);
    OtherService(s, h, k);
    InvAt(s, h);
    assert Listings(s.global, h) <= 1;
    hide Inv, Accounted, HistoryOk, Listings;
    var t := Next(s, Onward(s, k));
    ListShape(s, k);
    if s.agents[k].Off? || s.agents[k].Run? {
      Popped(s.global, h);
      if s.global[0] == h { PopShape(s, h, k); }
    } else {
      if t.global != s.global {
        IndexPush(s.global, t.global[|s.global|], h);
      }
      RankMoves(s, h, k);
    }
  }

  lemma Popped(list: seq<nat>, h: nat)
    requires h in list && Listings(list, h) <= 1
    ensures if list[0] == h then h !in list[1..] else h in list[1..] && IndexOf(list[1..], h) < IndexOf(list, h)
  {
    ListPop(list, h);
  }

  /** Only a thread that pops shortens the list; the others leave it or add to its end. */
  lemma ListShape(s: System, k: nat)
    requires k < |s.agents| && Enabled(s, Onward(s, k)) && |s.global| > 0
    ensures var t := Next(s, Onward(s, k));
      if s.agents[k].Off? || s.agents[k].Run? then t.global == s.global[1..]
      else t.global == s.global || (|t.global| == |s.global| + 1 && t.global == s.global + [t.global[|s.global|]])
  {
  }

  lemma PopShape(s: System, h: nat, k: nat)
    requires k < |s.agents| && Enabled(s, Onward(s, k)) && |s.global| > 0 && (s.agents[k].Off? || s.agents[k].Run?)
    requires HoldsQueue(s.agents[k], h) == 0 && s.global[0] == h
    ensures var p := Next(s, Onward(s, k)).agents[k];
      HoldsQueue(p, h) == 1 && (p == Carry(h) || (p.Both? && p.next == h))
  {
  }

  lemma OtherService(s: System, h: nat, k: nat)
    requires k < |s.agents| && Enabled(s, Onward(s, k)) && h in s.services && HoldsQueue(s.agents[k], h) == 0
    ensures var t := Next(s, Onward(s, k)); SameService(s, t, h) && |t.agents| == |s.agents|
  {
  }

  lemma TakenShortens(s: System, h: nat)
    requires Length(s, h) > 0
    ensures var t := Taken(s, h, false); t.agents == s.agents && Length(t, h) == Length(s, h) - 1
  {
  }

  lemma RankMoves(s: System, h: nat, k: nat)
    requires k < |s.agents| && Enabled(s, Onward(s, k)) && !s.agents[k].Off? && !s.agents[k].Run?
    ensures var t := Next(s, Onward(s, k)); Rank(t, t.agents[k]) < Rank(s, s.agents[k])
  {
    if s.agents[k].Dropping? && Length(s, s.agents[k].h) > 0 {
      TakenShortens(s, s.agents[k].h);
    }
    hide Taken, Freed, Log;
  }

  // ---------- delivering what waits ----------

  /** Some continuation gives the callback of h exactly what waits for it now. */
  ghost predicate Deliverable(s: System, h: nat) {
    exists more :: Reaches(s, more) && CalledWith(s, more, h) == Waiting(s, h)
  }

  lemma DeliverBack(s: System, step: Step, h: nat)
    requires Enabled(s, step) && Deliverable(Next(s, step), h)
    requires Waiting(s, h) ==
      (if step.Deliver? && InHand(s, step.k) == h then Heads(s, h) else []) + Waiting(Next(s, step), h)
    ensures Deliverable(s, h)
  {
    var t := Next(s, step);
    var more :| Reaches(t, more) && CalledWith(t, more, h) == Waiting(t, h);
    hide Enabled, Next, Waiting, Heads, InHand;
    assert ([step] + more)[1..] == more;
    assert Reaches(s, [step] + more) && CalledWith(s, [step] + more, h) == Waiting(s, h);
  }

  /** A thread that found the handle of its queue unregistered, or retired it, is right still. */
  predicate Unlisted(s: System, k: nat) {
    k < |s.agents| && (s.agents[k].Orphan? || s.agents[k].FailedRef? || s.agents[k].Dropping?) ==>
      !Registered(s, s.agents[k].h)
  }

  ghost predicate AllUnlisted(s: System) { forall k: nat :: Unlisted(s, k) }

  lemma UnlistedKept(s: System, step: Step, k: nat)
    requires Inv(s) && Enabled(s, step) && Unlisted(s, k)
    ensures Unlisted(Next(s, step), k)
  {
    var t := Next(s, step);
    if k < |t.agents| && (t.agents[k].Orphan? || t.agents[k].FailedRef? || t.agents[k].Dropping?) {
      var h := t.agents[k].h;
      InvKept(s, step);
      HeldAlive(t, k);
      RegisteredStep(s, step, h);
      if step.Create? && step.h == h {
        InvAt(s, h);
        HeldBefore(s, step, k);
        HeldAlive(s, k);
      } else {
        FoundUnlisted(s, step, k);
      }
    }
  }

  lemma HeldAlive(s: System, k: nat)
    requires Inv(s) && k < |s.agents| && !s.agents[k].Off? && HoldsQueue(s.agents[k], s.agents[k].h) > 0
    ensures s.agents[k].h in s.services && s.agents[k].h in s.history
  {
    InvAt(s, s.agents[k].h);
    SumsMove(s.agents, k, Off, s.agents[k].h);
  }

  lemma HeldBefore(s: System, step: Step, k: nat)
    requires Enabled(s, step) && step.Create? && k < |Next(s, step).agents| && !Next(s, step).agents[k].Init?
    ensures k < |s.agents| && s.agents[k] == Next(s, step).agents[k]
  {
  }

  lemma FoundUnlisted(s: System, step: Step, k: nat)
    requires Enabled(s, step) && k < |Next(s, step).agents| && Unlisted(s, k)
    requires var p := Next(s, step).agents[k]; (p.Orphan? || p.FailedRef? || p.Dropping?) && !(step.Create? && step.h == p.h)
    ensures var h := Next(s, step).agents[k].h; !Registered(s, h) || Retires(s, step, h)
  {
  }

  /** The initialisation of h has not failed. */
  ghost predicate NotFailed(s: System, h: nat) { forall k :: 0 <= k < |s.agents| ==> !(s.agents[k].Failed? && s.agents[k].h == h) }

  /** A service that is registered, or released, and whose queue holds messages or is released, is in one place. */
  lemma InOnePlace(s: System, h: nat)
    requires Inv(s) && h in s.services && (s.services[h].queue != [] || s.services[h].release)
    ensures h in s.global || exists k :: 0 <= k < |s.agents| && HoldsQueue(s.agents[k], h) == 1
    ensures h in s.global ==> forall k :: 0 <= k < |s.agents| ==> HoldsQueue(s.agents[k], h) == 0
  {
    InvAt(s, h);
    if Queues(s.agents, h) > 0 {
      var k := SomeHolder(s.agents, h);
      SumsMove(s.agents, k, Off, h);
    }
    forall k | 0 <= k < |s.agents| && h in s.global ensures HoldsQueue(s.agents[k], h) == 0 {
      SumsMove(s.agents, k, Off, h);
    }
  }

  /** Phases that still have to put the queue into the list. */
  function Stage(p: Phase, h: nat): nat { if (p.Init? || p.Launch? || p.Both?) && p.h == h then 2 else 0 }

  /** The thread that has the queue brings it nearer to its messages, or into the list. */
  lemma HeldMoves(s: System, h: nat, k: nat)
    requires Inv(s) && k < |s.agents| && h in s.services && HoldsQueue(s.agents[k], h) == 1
    requires !s.agents[k].Run? && !s.agents[k].Dropping? && (s.agents[k].Orphan? ==> s.services[h].release)
    requires s.agents[k].Failed? ==> !s.services[h].registered
    ensures Enabled(s, Onward(s, k))
    ensures var t := Next(s, Onward(s, k)); SameService(s, t, h) && |t.agents| == |s.agents|
    ensures var t := Next(s, Onward(s, k));
      (h in t.global && Stage(s.agents[k], h) == 2)
      || (HoldsQueue(t.agents[k], h) == 1 && Stage(t.agents[k], h) <= Stage(s.agents[k], h)
          && Rank(t, t.agents[k]) < Rank(s, s.agents[k]))
  {
    OnwardEnabled(s, k);
    hide Inv;
    HeldService(s, h, k);
    RankMoves(s, h, k);
    HeldPhase(s, h, k);
  }

  lemma HeldService(s: System, h: nat, k: nat)
    requires k < |s.agents| && h in s.services && HoldsQueue(s.agents[k], h) == 1 && Enabled(s, Onward(s, k))
    requires !s.agents[k].Run? && !s.agents[k].Dropping? && (s.agents[k].Failed? ==> !s.services[h].registered)
    ensures var t := Next(s, Onward(s, k)); SameService(s, t, h) && |t.agents| == |s.agents|
  {
  }

  lemma HeldPhase(s: System, h: nat, k: nat)
    requires k < |s.agents| && h in s.services && HoldsQueue(s.agents[k], h) == 1 && Enabled(s, Onward(s, k))
    requires !s.agents[k].Run? && !s.agents[k].Dropping? && (s.agents[k].Orphan? ==> s.services[h].release)
    ensures var t := Next(s, Onward(s, k));
      (h in t.global && Stage(s.agents[k], h) == 2)
      || (HoldsQueue(t.agents[k], h) == 1 && Stage(t.agents[k], h) <= Stage(s.agents[k], h))
  {
    var t := Next(s, Onward(s, k));
    if s.agents[k].Launch? || (s.agents[k].Both? && s.agents[k].h == h) {
      assert t.global[|s.global|] == h;
    }
  }

  /** What the proof needs of a state stays true. */
  lemma GoesOn(s: System, step: Step, h: nat)
    requires Inv(s) && AllUnlisted(s) && NotFailed(s, h) && Registered(s, h) && Enabled(s, step)
    requires !step.InitFail? && !Retires(s, step, h)
    ensures var t := Next(s, step); Inv(t) && AllUnlisted(t) && NotFailed(t, h) && Registered(t, h)
  {
    InvKept(s, step);
    RegisteredStep(s, step, h);
    forall k: nat ensures Unlisted(Next(s, step), k) { UnlistedKept(s, step, k); }
    NoneFails(s, step, h);
  }

  lemma NoneFails(s: System, step: Step, h: nat)
    requires NotFailed(s, h) && Enabled(s, step) && !step.InitFail?
    ensures NotFailed(Next(s, step), h)
  {
  }

  /** Onward steps neither fail an initialisation nor, where none has failed, retire h. */
  lemma OnwardKeeps(s: System, h: nat, k: nat)
    requires k < |s.agents| && NotFailed(s, h)
    ensures !Onward(s, k).InitFail? && !Retires(s, Onward(s, k), h) && !Onward(s, k).Deliver?
  {
  }

  lemma DeliverMoves(s: System, h: nat, k: nat)
    requires k < |s.agents| && s.agents[k] == Run(h) && h in s.services && Length(s, h) > 0
    ensures var step := Deliver(k);
      Enabled(s, step) && !Retires(s, step, h) && InHand(s, k) == h &&
      var t := Next(s, step);
      t.agents == s.agents && Length(t, h) < Length(s, h) && Waiting(s, h) == Heads(s, h) + Waiting(t, h)
  {
  }

  lemma SameWaiting(s: System, t: System, h: nat)
    requires SameService(s, t, h)
    ensures Waiting(t, h) == Waiting(s, h) && Length(t, h) == Length(s, h) && [] + Waiting(t, h) == Waiting(s, h)
  {
  }

  /** Where the holder of a registered service can be. */
  lemma HolderPhase(s: System, h: nat, k: nat)
    requires Inv(s) && AllUnlisted(s) && NotFailed(s, h) && Registered(s, h)
    requires k < |s.agents| && HoldsQueue(s.agents[k], h) == 1
    ensures h in s.services && !s.agents[k].Dropping? && !s.agents[k].Orphan? && !s.agents[k].Failed?
    ensures s.agents[k].Run? ==> s.agents[k] == Run(h)
  {
    assert Unlisted(s, k);
  }

  lemma NothingWaits(s: System, h: nat)
    requires Length(s, h) == 0
    ensures Deliverable(s, h)
  {
    assert Reaches(s, []) && CalledWith(s, [], h) == Waiting(s, h);
  }

  /** While a thread has the queue in hand. */
  lemma {:induction false} DeliversHeld(s: System, h: nat, k: nat)
    requires Inv(s) && AllUnlisted(s) && NotFailed(s, h) && Registered(s, h)
    requires k < |s.agents| && HoldsQueue(s.agents[k], h) == 1
    ensures Deliverable(s, h)
    decreases Length(s, h), Stage(s.agents[k], h), 0, Rank(s, s.agents[k])
  {
    hide Inv, AllUnlisted, NotFailed, Registered, Next, Enabled, Deliverable, Waiting, Heads, Rank, Length, Onward, Retires;
    HolderPhase(s, h, k);
    if Length(s, h) == 0 {
      NothingWaits(s, h);
    } else if s.agents[k].Run? {
      DeliverMoves(s, h, k);
      GoesOn(s, Deliver(k), h);
      DeliversHeld(Next(s, Deliver(k)), h, k);
      DeliverBack(s, Deliver(k), h);
    } else {
      var step := Onward(s, k);
      HeldMoves(s, h, k);
      OnwardKeeps(s, h, k);
      GoesOn(s, step, h);
      var t := Next(s, step);
      SameWaiting(s, t, h);
      if h in t.global && Stage(s.agents[k], h) == 2 {
        DeliversListed(t, h);
      } else {
        DeliversHeld(t, h, k);
      }
      DeliverBack(s, step, h);
    }
  }

  /** While the queue is in the list, the first thread goes on until it pops it. */
  lemma {:induction false} DeliversListed(s: System, h: nat)
    requires Inv(s) && AllUnlisted(s) && NotFailed(s, h) && Registered(s, h)
    requires |s.agents| > 0 && h in s.global
    ensures Deliverable(s, h)
    decreases Length(s, h), 1, IndexOf(s.global, h), Rank(s, s.agents[0])
  {
    ListedAlive(s, h);
    hide Inv, AllUnlisted, NotFailed, Registered, Next, Enabled, Deliverable, Waiting, Heads, Rank, Length, Onward, Retires, IndexOf;
    if Length(s, h) == 0 {
      NothingWaits(s, h);
    } else {
      ListedMoves(s, h, 0);
      OnwardKeeps(s, h, 0);
      var step := Onward(s, 0);
      GoesOn(s, step, h);
      var t := Next(s, step);
      SameWaiting(s, t, h);
      if h in t.global {
        DeliversListed(t, h);
      } else {
        DeliversHeld(t, h, 0);
      }
      DeliverBack(s, step, h);
    }
  }

  lemma ListedAlive(s: System, h: nat)
    requires Inv(s) && h in s.global
    ensures h in s.services && forall k :: 0 <= k < |s.agents| ==> HoldsQueue(s.agents[k], h) == 0
  {
    InvAt(s, h);
    forall k | 0 <= k < |s.agents| ensures HoldsQueue(s.agents[k], h) == 0 {
      SumsMove(s.agents, k, Off, h);
    }
  }

  // ---------- draining what is released ----------

  /** Some continuation drops exactly what waits in the queue of h, and frees it. */
  ghost predicate Freeable(s: System, h: nat) {
    exists more :: Reaches(s, more) && h !in After(s, more).services && DroppedFrom(s, more, h) == Waiting(s, h)
  }

  lemma FreeBack(s: System, step: Step, h: nat)
    requires Enabled(s, step) && Freeable(Next(s, step), h)
    requires Waiting(s, h) ==
      (if step.DropOne? && InHand(s, step.k) == h then Heads(s, h) else []) + Waiting(Next(s, step), h)
    ensures Freeable(s, h)
  {
    var t := Next(s, step);
    var more :| Reaches(t, more) && h !in After(t, more).services && DroppedFrom(t, more, h) == Waiting(t, h);
    hide Enabled, Next, Waiting, Heads, InHand;
    assert ([step] + more)[1..] == more;
    assert Reaches(s, [step] + more) && After(s, [step] + more) == After(t, more);
    assert DroppedFrom(s, [step] + more, h) == Waiting(s, h);
  }

  /** Released, and not freed yet. */
  predicate ToFree(s: System, h: nat) { h in s.services && s.services[h].release }

  /** Where the holder of a released queue can be. */
  lemma ReleasedHolder(s: System, h: nat, k: nat)
    requires Inv(s) && ToFree(s, h) && k < |s.agents| && HoldsQueue(s.agents[k], h) == 1
    ensures !s.agents[k].Run? && !s.services[h].registered
    ensures s.agents[k].Dropping? ==> s.agents[k] == Dropping(h)
  {
    InvAt(s, h);
    SumsMove(s.agents, k, Off, h);
  }

  lemma DrainMoves(s: System, h: nat, k: nat)
    requires k < |s.agents| && s.agents[k] == Dropping(h) && ToFree(s, h)
    ensures Length(s, h) > 0 ==> Enabled(s, DropOne(k)) && InHand(s, k) == h && ToFree(Next(s, DropOne(k)), h)
    ensures Length(s, h) > 0 ==> Next(s, DropOne(k)).agents == s.agents && Length(Next(s, DropOne(k)), h) < Length(s, h)
    ensures Length(s, h) > 0 ==> Waiting(s, h) == Heads(s, h) + Waiting(Next(s, DropOne(k)), h)
    ensures Length(s, h) == 0 ==> Freeable(s, h)
  {
    if Length(s, h) == 0 {
      var t := Next(s, FreeQueue(k));
      assert Reaches(t, []) && After(t, []) == t && h !in t.services && DroppedFrom(t, [], h) == [] == Waiting(t, h);
      FreeBack(s, FreeQueue(k), h);
    }
  }

  lemma {:induction false} FreesHeld(s: System, h: nat, k: nat)
    requires Inv(s) && ToFree(s, h) && k < |s.agents| && HoldsQueue(s.agents[k], h) == 1
    ensures Freeable(s, h)
    decreases Length(s, h), Stage(s.agents[k], h), 0, Rank(s, s.agents[k])
  {
    ReleasedHolder(s, h, k);
    hide Inv, Next, Enabled, Freeable, Waiting, Heads, Rank, Length, Onward;
    if s.agents[k].Dropping? {
      DrainMoves(s, h, k);
      if Length(s, h) > 0 {
        InvKept(s, DropOne(k));
        FreesHeld(Next(s, DropOne(k)), h, k);
        FreeBack(s, DropOne(k), h);
      }
    } else {
      var step := Onward(s, k);
      HeldMoves(s, h, k);
      InvKept(s, step);
      var t := Next(s, step);
      SameWaiting(s, t, h);
      OnwardDropsOther(s, h, k);
      if h in t.global && Stage(s.agents[k], h) == 2 {
        FreesListed(t, h);
      } else {
        FreesHeld(t, h, k);
      }
      FreeBack(s, step, h);
    }
  }

  lemma OnwardDropsOther(s: System, h: nat, k: nat)
    requires k < |s.agents| && !(s.agents[k].Dropping? && s.agents[k].h == h)
    ensures !(Onward(s, k).DropOne? && InHand(s, Onward(s, k).k) == h)
  {
  }

  lemma {:induction false} FreesListed(s: System, h: nat)
    requires Inv(s) && ToFree(s, h) && |s.agents| > 0 && h in s.global
    ensures Freeable(s, h)
    decreases Length(s, h), 1, IndexOf(s.global, h), Rank(s, s.agents[0])
  {
    ListedAlive(s, h);
    hide Inv, Next, Enabled, Freeable, Waiting, Heads, Rank, Length, Onward, IndexOf;
    ListedMoves(s, h, 0);
    var step := Onward(s, 0);
    InvKept(s, step);
    var t := Next(s, step);
    SameWaiting(s, t, h);
    OnwardDropsOther(s, h, 0);
    if h in t.global {
      FreesListed(t, h);
    } else {
      FreesHeld(t, h, 0);
    }
    FreeBack(s, step, h);
  }

  /** The step that pushes does to its queue and to the global list what MqPush promises, and nothing else. */
  lemma PushEffect(s: System, k: nat, m: int)
    requires Inv(s) && Enabled(s, Push(k, m))
    ensures var h, t := InHand(s, k), Next(s, Push(k, m));
      h in s.services && h in t.services && t.agents == s.agents
      && t.services == s.services[h := s.services[h].(queue := Waiting(s, h) + [m], inGlobal := true)]
      && t.global == s.global + if s.services[h].inGlobal then [] else [h]
  {
    WorksAlive(s, Push(k, m));
  }

  // ---------- the results ----------

  lemma {:induction false} UnlistedAlways(s: System, steps: seq<Step>)
    requires Inv(s) && AllUnlisted(s) && Reaches(s, steps)
    ensures AllUnlisted(After(s, steps))
    decreases |steps|
  {
    hide Inv, Next, Enabled, Unlisted;
    if |steps| > 0 {
      InvKept(s, steps[0]);
      forall k: nat ensures Unlisted(Next(s, steps[0]), k) { UnlistedKept(s, steps[0], k); }
      UnlistedAlways(Next(s, steps[0]), steps[1..]);
    }
  }

  /**
   No message is stranded: from every state the scheduler can reach, some continuation gives the
   callback of a registered service, unless its initialisation has failed, exactly the messages
   that wait for it now, in their order.
   */
  lemma NothingStranded(s: System, steps: seq<Step>, h: nat)
    requires Initial(s) && Reaches(s, steps) && |s.agents| > 0
    requires Registered(After(s, steps), h) && NotFailed(After(s, steps), h)
    ensures Deliverable(After(s, steps), h)
  {
    var t := After(s, steps);
    InitialInv(s);
    assert AllUnlisted(s);
    ThreadsStay(s, steps);
    hide Inv, AllUnlisted, Reaches, After, Initial, Deliverable, NotFailed;
    UnlistedAlways(s, steps);
    InvAlways(s, steps);
    if Length(t, h) == 0 {
      NothingWaits(t, h);
    } else {
      InOnePlace(t, h);
      if h in t.global {
        DeliversListed(t, h);
      } else {
        var k :| 0 <= k < |t.agents| && HoldsQueue(t.agents[k], h) == 1;
        DeliversHeld(t, h, k);
      }
    }
  }

  lemma {:induction false} ThreadsStay(s: System, steps: seq<Step>)
    requires Reaches(s, steps)
    ensures |After(s, steps).agents| == |s.agents|
    decreases |steps|
  {
    if |steps| > 0 {
      ThreadsStay(Next(s, steps[0]), steps[1..]);
    }
  }

  /** No released queue leaks: from every state, some continuation drops what waits in it, in order, and frees it. */
  lemma NothingLeaks(s: System, steps: seq<Step>, h: nat)
    requires Initial(s) && Reaches(s, steps) && |s.agents| > 0
    requires h in After(s, steps).services && After(s, steps).services[h].release
    ensures Freeable(After(s, steps), h)
  {
    var t := After(s, steps);
    InitialInv(s);
    ThreadsStay(s, steps);
    hide Inv, Reaches, After, Initial, Freeable;
    InvAlways(s, steps);
    InOnePlace(t, h);
    if h in t.global {
      FreesListed(t, h);
    } else {
      var k :| 0 <= k < |t.agents| && HoldsQueue(t.agents[k], h) == 1;
      FreesHeld(t, h, k);
    }
  }

  // ---------- turns ----------

  /** A thread asks for the next queue while one is listed: to begin, or because its turn with another queue is over. */
  predicate AsksForTurn(s: System, step: Step) { (step.PopGlobal? || step.NextQueue?) && s.global != [] }

  function TurnsAsked(s: System, steps: seq<Step>): nat
    requires Reaches(s, steps)
    decreases |steps|
  {
    if |steps| == 0 then 0 else (if AsksForTurn(s, steps[0]) then 1 else 0) + TurnsAsked(Next(s, steps[0]), steps[1..])
  }

  /** The step moves the queue of h from the head of the global list into the hands of its thread. */
  predicate TurnOf(s: System, step: Step, h: nat)
    requires Enabled(s, step)
  {
    AsksForTurn(s, step) && s.global[0] == h && step.k < |s.agents|
    && Next(s, step).global == s.global[1..] && HoldsQueue(Next(s, step).agents[step.k], h) > HoldsQueue(s.agents[step.k], h)
  }

  predicate TurnCame(s: System, steps: seq<Step>, h: nat)
    requires Reaches(s, steps)
    decreases |steps|
  {
    |steps| > 0 && (TurnOf(s, steps[0], h) || TurnCame(Next(s, steps[0]), steps[1..], h))
  }

  lemma TurnTaken(s: System, step: Step)
    requires Enabled(s, step) && AsksForTurn(s, step)
    ensures TurnOf(s, step, s.global[0])
  {
  }

  lemma OthersBehind(s: System, step: Step)
    requires Enabled(s, step) && !AsksForTurn(s, step)
    ensures s.global <= Next(s, step).global
  {
  }

  /**
   The global list is fair: a queue with i others in front of it is taken at the latest when threads
   have asked for a turn i + 1 times, whoever else is pushed, listed or retired meanwhile.
   */
  lemma {:induction false} TurnComes(s: System, steps: seq<Step>, h: nat, i: nat)
    requires Reaches(s, steps) && i < |s.global| && s.global[i] == h && TurnsAsked(s, steps) > i
    ensures TurnCame(s, steps, h)
    decreases |steps|
  {
    hide Next, Enabled, TurnOf, AsksForTurn;
    var t := Next(s, steps[0]);
    if AsksForTurn(s, steps[0]) {
      TurnTaken(s, steps[0]);
      if i > 0 {
        TurnLeaves(s, steps[0]);
        TurnComes(t, steps[1..], h, i - 1);
      }
    } else {
      OthersBehind(s, steps[0]);
      TurnComes(t, steps[1..], h, i);
    }
  }

  lemma TurnLeaves(s: System, step: Step)
    requires Enabled(s, step) && s.global != [] && TurnOf(s, step, s.global[0])
    ensures Next(s, step).global == s.global[1..]
  {
  }
}
