/**
 The timing wheel (fengnet-src/fengnet_timer.cpp): 256 near slots and four levels of 64
 slots, a 32-bit clock that wraps, and cascades that move nodes down as their time comes.
 */
module TimerSpec {
  const WRAP: int := 0x1_0000_0000
  const LONGEST: int := 0x8000_0000

  type Tick = x: int | 0 <= x < WRAP

  /** A pending timer: the 32-bit tick it expires at, and the event it sends. */
  datatype Node = Node(expire: Tick, handle: nat, session: int)

  /** The wheel as its users see it: unbounded time, and for each tick the nodes due then, in order. */
  datatype Schedule = Schedule(now: nat, due: map<nat, seq<Node>>)

  function Due(s: Schedule, tick: nat): seq<Node> { if tick in s.due then s.due[tick] else [] }

  function AddedTo(s: Schedule, delay: nat, n: Node): Schedule {
    s.(due := s.due[s.now + delay := Due(s, s.now + delay) + [n]])
  }

  /** One update: time moves on, and what is due at the new tick is dispatched. */
  function Updated(s: Schedule): Schedule { Schedule(s.now + 1, s.due - {s.now + 1}) }

  datatype Op = Add(delay: nat, handle: nat, session: int) | Update

  /** timer_add's node; the delay is a positive C int. */
  function NodeFor(now: nat, op: Op): Node
    requires op.Add?
  {
    Node((now + op.delay) % WRAP, op.handle, op.session)
  }

  predicate Allowed(op: Op) { op.Add? ==> 0 < op.delay < LONGEST }

  function Apply(s: Schedule, op: Op): Schedule {
    if op.Add? then AddedTo(s, op.delay, NodeFor(s.now, op)) else Updated(s)
  }

  /** What the updates of a run dispatch, one list per update. */
  function Dispatched(s: Schedule, ops: seq<Op>): seq<seq<Node>>
    decreases |ops|
  {
    if |ops| == 0 then []
    else (if ops[0].Update? then [Due(s, s.now + 1)] else []) + Dispatched(Apply(s, ops[0]), ops[1..])
  }

  /** The nodes a run starting at tick now adds for a given tick, in the order of their insertion. */
  function AddedFor(now: nat, ops: seq<Op>, tick: nat): seq<Node>
    decreases |ops|
  {
    if |ops| == 0 then []
    else if ops[0].Update? then AddedFor(now + 1, ops[1..], tick)
    else (if now + ops[0].delay == tick then [NodeFor(now, ops[0])] else []) + AddedFor(now, ops[1..], tick)
  }

  predicate AllAllowed(ops: seq<Op>) { forall k :: 0 <= k < |ops| ==> Allowed(ops[k]) }

  /**
   Timers fire exactly on time: the k-th update of any run dispatches the nodes that were due
   then, followed by those the run itself adds for that tick, and nothing else. A node added
   with delay d is therefore dispatched by the d-th later update and by no other, and nodes
   due at the same tick are dispatched in insertion order.
   */
  lemma {:induction false} OnTime(s: Schedule, ops: seq<Op>, k: nat)
    requires AllAllowed(ops) && k < |Dispatched(s, ops)|
    ensures Dispatched(s, ops)[k] == Due(s, s.now + 1 + k) + AddedFor(s.now, ops, s.now + 1 + k)
    decreases |ops|
  {
    assert |ops| > 0;
    hide Dispatched, AddedFor, Due, Apply;
    var next, rest := Apply(s, ops[0]), ops[1..];
    var tick := s.now + 1 + k;
    AllowedTail(ops);
    FirstOp(s, ops, tick);
    if ops[0].Update? && k == 0 {
      NothingLate(s.now + 1, rest, s.now + 1);
      assert Due(s, tick) + [] == Due(s, tick);
    } else {
      OnTime(next, rest, if ops[0].Update? then k - 1 else k);
    }
  }

  /** What the first operation of a run does to the updates, the additions and the schedule. */
  lemma FirstOp(s: Schedule, ops: seq<Op>, tick: nat)
    requires |ops| > 0 && AllAllowed(ops)
    ensures Apply(s, ops[0]).now == if ops[0].Update? then s.now + 1 else s.now
    ensures Dispatched(s, ops) == (if ops[0].Update? then [Due(s, s.now + 1)] else []) + Dispatched(Apply(s, ops[0]), ops[1..])
    ensures tick > s.now ==>
      var next := Apply(s, ops[0]);
      var known := if ops[0].Update? && tick == s.now + 1 then Due(s, tick) else Due(next, tick);
      Due(s, tick) + AddedFor(s.now, ops, tick) == known + AddedFor(next.now, ops[1..], tick)
  {
    assert Allowed(ops[0]);
    if ops[0].Add? && s.now + ops[0].delay == tick {
      var n, more := NodeFor(s.now, ops[0]), AddedFor(s.now, ops[1..], tick);
      assert Due(s, tick) + ([n] + more) == (Due(s, tick) + [n]) + more;
    }
  }

  lemma AllowedTail(ops: seq<Op>)
    requires AllAllowed(ops) && |ops| > 0
    ensures AllAllowed(ops[1..])
  {
  }

  /** With positive delays nothing is ever added for a tick that has come. */
  lemma {:induction false} NothingLate(now: nat, ops: seq<Op>, tick: nat)
    requires AllAllowed(ops) && tick <= now
    ensures AddedFor(now, ops, tick) == []
    decreases |ops|
  {
    if |ops| > 0 {
      assert Allowed(ops[0]);
      AllowedTail(ops);
      NothingLate(if ops[0].Update? then now + 1 else now, ops[1..], tick);
    }
  }
}

/** Where a node lies, and why cascading at the right ticks keeps every node in its place. */
module Wheel {
  import opened TimerSpec

  datatype Place = Near(slot: nat) | Level(level: nat, index: nat)

  /** Ticks covered by one slot of a level: 2^8, 2^14, 2^20, 2^26. */
  function SlotWidth(level: nat): nat {
    if level == 0 then 256 else if level == 1 then 0x4000 else if level == 2 then 0x10_0000 else 0x400_0000
  }

  /** The list add_node chooses: the lowest level at which expiry and clock agree on all higher bits. */
  function PlaceFor(expire: Tick, time: Tick): Place {
    if expire / 256 == time / 256 then Near(expire % 256)
    else if expire / 0x4000 == time / 0x4000 then Level(0, (expire / 256) % 64)
    else if expire / 0x10_0000 == time / 0x10_0000 then Level(1, (expire / 0x4000) % 64)
    else if expire / 0x400_0000 == time / 0x400_0000 then Level(2, (expire / 0x10_0000) % 64)
    else Level(3, (expire / 0x400_0000) % 64)
  }

  /** The first tick, at or after now, at which a node of this expiry is due. */
  function At(now: nat, expire: Tick): nat { now + (expire - now) % WRAP }

  /** The list timer_shift moves when the clock becomes time; none when only a near slot begins. */
  function Cascaded(time: Tick): seq<Place> {
    if time == 0 then [Level(3, 0)]
    else if time % 256 != 0 then []
    else if (time / 256) % 64 != 0 then [Level(0, (time / 256) % 64)]
    else if (time / 0x4000) % 64 != 0 then [Level(1, (time / 0x4000) % 64)]
    else if (time / 0x10_0000) % 64 != 0 then [Level(2, (time / 0x10_0000) % 64)]
    else [Level(3, (time / 0x400_0000) % 64)]
  }

  /**
   As the clock moves one tick, the chosen list of a node changes only if the node lies in the
   list that is moved at that tick; the range is what a positive C int can reach.
   */
  lemma PlaceStable(now: nat, e: Tick)
    requires now < At(now, e) <= now + LONGEST
    ensures var c, next := now % WRAP, (now + 1) % WRAP;
      PlaceFor(e, next) == PlaceFor(e, c) || Cascaded(next) == [PlaceFor(e, c)]
  {
    var c, next := now % WRAP, (now + 1) % WRAP;
    var d := (e - now) % WRAP;
    if next == 0 {
      assert c == WRAP - 1 && e == d - 1;
      Disagree(c, e);
    } else {
      assert next == c + 1 && (e == c + d || e == c + d - WRAP);
      Cross(c, e);
      PlaceStableWithin(c, e);
    }
  }

  lemma Disagree(c: Tick, e: Tick)
    requires c == WRAP - 1 && e < LONGEST
    ensures PlaceFor(e, c) == Level(3, (e / 0x400_0000) % 64)
    ensures e >= 0x400_0000 ==> PlaceFor(e, 0) == PlaceFor(e, c)
    ensures e < 0x400_0000 ==> PlaceFor(e, c) == Level(3, 0)
  {
  }

  /** From c to c + 1 a block number changes only at a multiple of its width, and a later expiry is not in the old block. */
  ghost predicate Crosses(c: Tick, e: Tick, width: nat)
    requires width > 0
  {
    if (c + 1) % width != 0 then (c + 1) / width == c / width else e / width != c / width
  }

  lemma Cross(c: Tick, e: Tick)
    requires c + 1 < WRAP && (c < e || e <= c + LONGEST - WRAP)
    ensures Crosses(c, e, 256) && Crosses(c, e, 0x4000) && Crosses(c, e, 0x10_0000) && Crosses(c, e, 0x400_0000)
  {
  }

  lemma PlaceStableWithin(c: Tick, e: Tick)
    requires c + 1 < WRAP
    requires Crosses(c, e, 256) && Crosses(c, e, 0x4000) && Crosses(c, e, 0x10_0000) && Crosses(c, e, 0x400_0000)
    ensures PlaceFor(e, c + 1) == PlaceFor(e, c) || Cascaded(c + 1) == [PlaceFor(e, c)]
  {
    var t := c + 1;
    assert t / 0x4000 == (t / 256) / 64 && t / 0x10_0000 == (t / 0x4000) / 64 && t / 0x400_0000 == (t / 0x10_0000) / 64;
    assert e / 0x4000 == (e / 256) / 64 && e / 0x10_0000 == (e / 0x4000) / 64 && e / 0x400_0000 == (e / 0x10_0000) / 64;
    Multiples(t);
  }

  lemma Multiples(t: nat)
    ensures t % 0x4000 == 0 <==> t % 256 == 0 && (t / 256) % 64 == 0
    ensures t % 0x10_0000 == 0 <==> t % 0x4000 == 0 && (t / 0x4000) % 64 == 0
    ensures t % 0x400_0000 == 0 <==> t % 0x10_0000 == 0 && (t / 0x10_0000) % 64 == 0
  {
    var a, b, c := t / 0x4000, t / 0x10_0000, t / 0x400_0000;
    assert t == 256 * (t / 256) + t % 256;
    assert t / 256 == 64 * a + (t / 256) % 64;
    assert a == 64 * b + a % 64;
    assert b == 64 * c + b % 64;
  }

  /** The nodes of a list with a given expiry, in list order. */
  function Only(xs: seq<Node>, e: Tick): seq<Node> {
    if |xs| == 0 then [] else Only(xs[..|xs| - 1], e) + (if xs[|xs| - 1].expire == e then [xs[|xs| - 1]] else [])
  }

  lemma OnlyPush(xs: seq<Node>, n: Node, e: Tick)
    ensures Only(xs + [n], e) == Only(xs, e) + (if n.expire == e then [n] else [])
  {
    assert (xs + [n])[..|xs|] == xs;
  }

  lemma {:induction false} OnlyAppend(xs: seq<Node>, ys: seq<Node>, e: Tick)
    ensures Only(xs + ys, e) == Only(xs, e) + Only(ys, e)
  {
    if |ys| == 0 {
      assert xs + ys == xs;
    } else {
      assert xs + ys == (xs + ys[..|ys| - 1]) + [ys[|ys| - 1]];
      OnlyPush(xs + ys[..|ys| - 1], ys[|ys| - 1], e);
      OnlyAppend(xs, ys[..|ys| - 1], e);
    }
  }

  /** A list none of whose sublists of another expiry has a node holds one expiry only. */
  lemma {:induction false} OnlyWhole(xs: seq<Node>, e: Tick)
    requires forall f: Tick :: f != e ==> Only(xs, f) == []
    ensures Only(xs, e) == xs
  {
    if |xs| > 0 {
      var last := xs[|xs| - 1];
      assert |Only(xs, last.expire)| > 0;
      var front := xs[..|xs| - 1];
      assert forall f: Tick {:trigger Only(front, f)} :: f != e ==> Only(xs, f) == Only(front, f);
      OnlyWhole(front, e);
    }
  }

  predicate InWheel(p: Place) { match p case Near(k) => k < 256 case Level(i, k) => i < 4 && k < 64 }

  /** The content of all 512 lists. */
  type Lists = L: imap<Place, seq<Node>> | forall p :: p in L <==> InWheel(p) ghost witness imap p | InWheel(p) :: []

  ghost function Link(L: Lists, n: Node, time: Tick): Lists {
    L[PlaceFor(n.expire, time) := L[PlaceFor(n.expire, time)] + [n]]
  }

  ghost function LinkAll(L: Lists, ns: seq<Node>, time: Tick): Lists
    decreases |ns|
  {
    if |ns| == 0 then L else LinkAll(Link(L, ns[0], time), ns[1..], time)
  }

  /** Emptying a list and adding its nodes again under the current clock. */
  ghost function Moved(L: Lists, p: Place, time: Tick): Lists
    requires InWheel(p)
  {
    LinkAll(L[p := []], L[p], time)
  }

  ghost function Shifted(L: Lists, time: Tick): Lists {
    if Cascaded(time) == [] then L else Moved(L, Cascaded(time)[0], time)
  }

  /** Every pending node lies in the list add_node would choose for it now, in insertion order, and only there. */
  ghost predicate Canonical(L: Lists, s: Schedule) {
    forall p: Place, e: Tick :: InWheel(p) ==> Only(L[p], e) == Want(p, e, s)
  }

  function Want(p: Place, e: Tick, s: Schedule): seq<Node> {
    if p == PlaceFor(e, s.now % WRAP) then Due(s, At(s.now, e)) else []
  }

  /** Nothing is due before the given tick, or 2^31 ticks from now or later. */
  ghost predicate DueWithin(s: Schedule, first: nat) {
    forall k :: k in s.due ==> first <= k < s.now + LONGEST
  }

  lemma LinkCell(L: Lists, n: Node, time: Tick, p: Place, e: Tick)
    requires InWheel(p)
    ensures Only(Link(L, n, time)[p], e)
         == Only(L[p], e) + (if p == PlaceFor(e, time) && n.expire == e then [n] else [])
  {
    OnlyPush(L[p], n, e);
  }

  lemma {:induction false} LinkAllCell(L: Lists, ns: seq<Node>, time: Tick, p: Place, e: Tick)
    requires InWheel(p)
    ensures Only(LinkAll(L, ns, time)[p], e) == Only(L[p], e) + (if p == PlaceFor(e, time) then Only(ns, e) else [])
    decreases |ns|
  {
    if |ns| > 0 {
      hide PlaceFor;
      LinkCell(L, ns[0], time, p, e);
      LinkAllCell(Link(L, ns[0], time), ns[1..], time, p, e);
      OnlyAppend([ns[0]], ns[1..], e);
      assert [ns[0]] + ns[1..] == ns;
    }
  }

  lemma AddCanonical(L: Lists, s: Schedule, op: Op)
    requires op.Add? && Allowed(op) && Canonical(L, s) && DueWithin(s, s.now + 1)
    ensures Canonical(Link(L, NodeFor(s.now, op), s.now % WRAP), Apply(s, op)) && DueWithin(Apply(s, op), s.now + 1)
  {
    var n, next := NodeFor(s.now, op), Apply(s, op);
    forall p: Place, e: Tick | InWheel(p)
      ensures Only(Link(L, n, s.now % WRAP)[p], e) == Want(p, e, next)
    {
      hide PlaceFor;
      LinkCell(L, n, s.now % WRAP, p, e);
      assert Only(L[p], e) == Want(p, e, s);
      AtDelay(s.now, op.delay, e);
    }
  }

  lemma AtDelay(now: nat, delay: int, e: Tick)
    requires 0 < delay < LONGEST
    ensures At(now, e) == now + delay <==> e == (now + delay) % WRAP
  {
  }

  /** What has come due lies, all of it, in the near slot of the current tick. */
  lemma NearIsDue(L: Lists, s: Schedule)
    requires Canonical(L, s)
    ensures L[Near(s.now % WRAP % 256)] == Due(s, s.now)
  {
    var c := s.now % WRAP;
    var p := Near(c % 256);
    forall e: Tick | e != c
      ensures Only(L[p], e) == []
    {
      assert Only(L[p], e) == Want(p, e, s);
    }
    OnlyWhole(L[p], c);
    assert Only(L[p], c) == Want(p, c, s);
  }

  /** The cascade at a tick puts every node where it now belongs. */
  lemma ShiftCanonical(L: Lists, s: Schedule)
    requires Canonical(L, s) && DueWithin(s, s.now + 1)
    ensures Canonical(Shifted(L, (s.now + 1) % WRAP), s.(now := s.now + 1))
  {
    var next := s.(now := s.now + 1);
    var ct := next.now % WRAP;
    forall p: Place, e: Tick | InWheel(p)
      ensures Only(Shifted(L, ct)[p], e) == Want(p, e, next)
    {
      ShiftCell(L, s, p, e);
    }
  }

  lemma ShiftCell(L: Lists, s: Schedule, p: Place, e: Tick)
    requires Canonical(L, s) && DueWithin(s, s.now + 1) && InWheel(p)
    ensures Only(Shifted(L, (s.now + 1) % WRAP)[p], e) == Want(p, e, s.(now := s.now + 1))
  {
    hide PlaceFor, Cascaded, LinkAll, At, Due, Canonical, DueWithin, Only;
    var ct := (s.now + 1) % WRAP;
    CascadedInWheel(ct);
    CellBefore(L, s, p, e);
    WantMoves(s, p, e);
    if Cascaded(ct) != [] {
      var q := Cascaded(ct)[0];
      CellBefore(L, s, q, e);
      WantMoves(s, q, e);
      LinkAllCell(L[q := []], L[q], ct, p, e);
      OnlyNothing(e);
    }
  }

  lemma OnlyNothing(e: Tick)
    ensures Only([], e) == []
  {
  }

  lemma CellBefore(L: Lists, s: Schedule, p: Place, e: Tick)
    requires Canonical(L, s) && InWheel(p)
    ensures Only(L[p], e) == Want(p, e, s)
  {
  }

  /** How what a list should hold changes with the tick: only the nodes of the list that is moved change their place. */
  lemma WantMoves(s: Schedule, p: Place, e: Tick)
    requires DueWithin(s, s.now + 1)
    ensures var c, ct, due := s.now % WRAP, (s.now + 1) % WRAP, Due(s, At(s.now, e));
      Want(p, e, s) == (if p == PlaceFor(e, c) then due else [])
      && Want(p, e, s.(now := s.now + 1)) == (if p == PlaceFor(e, ct) then due else [])
      && (due != [] ==> PlaceFor(e, ct) == PlaceFor(e, c) || Cascaded(ct) == [PlaceFor(e, c)])
  {
    hide PlaceFor, Cascaded, At;
    AtNext(s.now, e);
    assert Due(s, s.now + WRAP) == [] && Due(s, s.now) == [];
    if Due(s, At(s.now, e)) != [] {
      PlaceStable(s.now, e);
    }
  }

  lemma CascadedInWheel(time: Tick)
    ensures Cascaded(time) != [] ==> Cascaded(time) == [Cascaded(time)[0]] && InWheel(Cascaded(time)[0])
  {
  }

  lemma Clock(now: nat, d: nat)
    ensures (d + now % WRAP) % WRAP == (now + d) % WRAP
  {
  }

  lemma NodeOnClock(now: nat, delay: nat, handle: nat, session: int)
    ensures Node((delay + now % WRAP) % WRAP, handle, session) == NodeFor(now, Add(delay, handle, session))
  {
    Clock(now, delay);
  }

  lemma ApplyAddNow(s: Schedule, delay: nat, handle: nat, session: int)
    ensures Apply(s, Add(delay, handle, session)).now == s.now
  {
  }

  lemma AtNext(now: nat, e: Tick)
    ensures At(now + 1, e) == if e == now % WRAP then now + WRAP else At(now, e)
    ensures now <= At(now, e) < now + WRAP
    ensures At(now, e) == now <==> e == now % WRAP
  {
  }

  /** Taking away the list of the current near slot takes away what is due now. */
  lemma FireCanonical(L: Lists, s: Schedule)
    requires Canonical(L, s) && DueWithin(s, s.now)
    ensures Canonical(L[Near(s.now % WRAP % 256) := []], s.(due := s.due - {s.now}))
  {
    var c := s.now % WRAP;
    var slot, next := Near(c % 256), s.(due := s.due - {s.now});
    NearIsDue(L, s);
    forall p: Place, e: Tick | InWheel(p)
      ensures Only(L[slot := []][p], e) == Want(p, e, next)
    {
      assert Only(L[p], e) == Want(p, e, s);
      AtNext(s.now, e);
      assert PlaceFor(e, c) == slot ==> e == c;
    }
  }
}

module TimingWheel {
  import opened TimerSpec
  import opened Wheel

  /** The wheel, with the schedule it stands for as a ghost. */
  class Timer {
    const near: array<seq<Node>>
    const t: array2<seq<Node>>
    var time: Tick
    ghost var schedule: Schedule

    ghost predicate Shaped() { near.Length == 256 && t.Length0 == 4 && t.Length1 == 64 }

    ghost function Contents(): (L: Lists)
      requires Shaped()
      reads near, t
    {
      imap p: Place | InWheel(p) :: match p case Near(k) => near[k] case Level(i, k) => t[i, k]
    }

    ghost predicate Valid()
      reads this, near, t
    {
      Shaped() && time == schedule.now % WRAP && Canonical(Contents(), schedule)
      && DueWithin(schedule, schedule.now + 1)
    }

    constructor ()
      ensures Valid() && fresh(near) && fresh(t) && schedule == Schedule(0, map[])
    {
      near := new seq<Node>[256](_ => []);
      t := new seq<Node>[4, 64]((_, _) => []);
      time := 0;
      schedule := Schedule(0, map[]);
    }

    method AddNode(node: Node)
      requires Shaped()
      modifies near, t
      ensures Contents() == Link(old(Contents()), node, time)
    {
      var e := node.expire;
      if e / 256 == time / 256 {
        near[e % 256] := near[e % 256] + [node];
      } else {
        var i, mask := FirstAgreeing(e);
        var index := (e / SlotWidth(i)) % 64;
        t[i, index] := t[i, index] + [node];
      }
    }

    /** timer_add: the expiry is the clock plus the delay, on 32 bits. */
    method TimerAdd(delay: int, handle: nat, session: int)
      requires Valid() && 0 < delay < LONGEST
      modifies this`schedule, near, t
      ensures Valid() && schedule == Apply(old(schedule), Add(delay, handle, session))
    {
      hide Canonical, Link, PlaceFor, Due, Apply, DueWithin, NodeFor, Only;
      var node := Node((delay + time) % WRAP, handle, session);
      NodeOnClock(schedule.now, delay, handle, session);
      AddNode(node);
      AddCanonical(old(Contents()), schedule, Add(delay, handle, session));
      ApplyAddNow(schedule, delay, handle, session);
      schedule := Apply(schedule, Add(delay, handle, session));
    }

    method MoveList(level: nat, index: nat)
      requires Shaped() && level < 4 && index < 64
      modifies near, t
      ensures Contents() == Moved(old(Contents()), Level(level, index), time)
    {
      hide PlaceFor, Link;
      var current := t[level, index];
      t[level, index] := [];
      assert Contents() == old(Contents())[Level(level, index) := []];
      while |current| > 0
        invariant LinkAll(Contents(), current, time) == Moved(old(Contents()), Level(level, index), time)
        decreases |current|
      {
        AddNode(current[0]);
        current := current[1..];
      }
    }

    /** One tick of the clock and the cascade that comes with it. */
    method Shift()
      requires Shaped()
      modifies this`time, near, t
      ensures time == (old(time) + 1) % WRAP
      ensures Contents() == Shifted(old(Contents()), time)
    {
      hide Moved;
      time := (time + 1) % WRAP;
      var ct := time;
      if ct == 0 {
        MoveList(3, 0);
      } else {
        Multiples(ct);
        var mask, higher, i := 256, ct / 256, 0;
        while ct % mask == 0
          invariant 0 <= i <= 3 && mask == SlotWidth(i) && higher == ct / mask
          invariant Contents() == old(Contents())
          invariant i > 0 ==> ct % 0x4000 == 0
          invariant i > 1 ==> ct % 0x10_0000 == 0
          invariant i > 2 ==> ct % 0x400_0000 == 0
          decreases 3 - i
        {
          var index := higher % 64;
          if index != 0 {
            MoveList(i, index);
            return;
          }
          mask := mask * 64;
          higher := higher / 64;
          i := i + 1;
        }
      }
    }

    /** Takes what the current near slot holds; dispatching it happens outside the lock. */
    method Execute() returns (fired: seq<Node>)
      requires Shaped()
      modifies near
      ensures fired == old(Contents())[Near(time % 256)]
      ensures Contents() == old(Contents())[Near(time % 256) := []]
    {
      var idx := time % 256;
      fired := [];
      while |near[idx]| > 0
        invariant fired + near[idx] == old(near[idx])
        invariant forall k :: 0 <= k < 256 && k != idx ==> near[k] == old(near[k])
        decreases |near[idx]|
      {
        fired := fired + near[idx];
        near[idx] := [];
      }
    }

    /** timer_update: what it dispatches is what the schedule has for the new tick, in insertion order. */
    method Update() returns (fired: seq<Node>)
      requires Valid()
      modifies this, near, t
      ensures Valid() && schedule == Apply(old(schedule), Op.Update)
      ensures fired == Due(old(schedule), old(schedule).now + 1)
    {
      hide Canonical, Shifted, PlaceFor;
      NearIsDue(Contents(), schedule);
      var early := Execute();
      assert Contents() == old(Contents());
      ShiftCanonical(Contents(), schedule);
      Clock(schedule.now, 1);
      Shift();
      ghost var shifted := schedule.(now := schedule.now + 1);
      NearIsDue(Contents(), shifted);
      FireCanonical(Contents(), shifted);
      var late := Execute();
      fired := early + late;
      schedule := Updated(schedule);
    }

    /** add_node's search for the level: the lowest one, below the last, whose next block the clock shares. */
    method FirstAgreeing(e: Tick) returns (i: nat, mask: int)
      requires Shaped() && e / 256 != time / 256
      ensures i < 4 && PlaceFor(e, time) == Level(i, (e / SlotWidth(i)) % 64)
    {
      i, mask := 0, 256 * 64;
      while i < 3 && e / mask != time / mask
        invariant i <= 3 && mask == 64 * SlotWidth(i)
        invariant i > 0 ==> e / 0x4000 != time / 0x4000
        invariant i > 1 ==> e / 0x10_0000 != time / 0x10_0000
        invariant i > 2 ==> e / 0x400_0000 != time / 0x400_0000
      {
        mask := mask * 64;
        i := i + 1;
      }
    }
  }
}
