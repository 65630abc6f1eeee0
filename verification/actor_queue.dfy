/** Mailbox queues and the global list of queues with work (fengnet-src/fengnet_mq.cpp). */
module Mailbox {
  import opened Common

  datatype Message = Message(source: nat, session: int, data: int)

  const DEFAULT_QUEUE_SIZE: nat := 64
  const MQ_OVERLOAD: nat := 1024

  /** The list of queues waiting for a worker. */
  class GlobalQueue {
    var waiting: seq<MessageQueue>

    method Push(q: MessageQueue)
      modifies this
      ensures waiting == old(waiting) + [q]
    {
      waiting := waiting + [q];
    }

    method Pop() returns (q: MessageQueue?)
      modifies this
      ensures old(waiting) == [] ==> q == null && waiting == []
      ensures old(waiting) != [] ==> q == old(waiting)[0] && waiting == old(waiting)[1..]
    {
      if |waiting| == 0 { return null; }
      q := waiting[0];
      waiting := waiting[1..];
    }
  }

  class MessageQueue {
    const handle: nat
    var cap: nat
    var head: nat
    var tail: nat
    var inGlobal: bool
    var release: bool
    var overload: nat
    var threshold: nat
    var queue: array<Message>
    ghost var Contents: seq<Message>

    /** The ring holds exactly Contents, and is never full. */
    ghost predicate Valid()
      reads this, queue
    {
      queue.Length == cap && head < cap && tail < cap && |Contents| < cap
      && tail == RingIndex(head, |Contents|, cap)
      && (forall i :: 0 <= i < |Contents| ==> queue[RingIndex(head, i, cap)] == Contents[i])
      && threshold >= MQ_OVERLOAD
    }

    constructor (handle: nat)
      ensures Valid() && fresh(queue) && Contents == [] && inGlobal && !release && this.handle == handle
    {
      this.handle := handle;
      cap, head, tail := DEFAULT_QUEUE_SIZE, 0, 0;
      inGlobal, release := true, false;
      overload, threshold := 0, MQ_OVERLOAD;
      queue := new Message[DEFAULT_QUEUE_SIZE](_ => Message(0, 0, 0));
      Contents := [];
    }

    /** A ring that has just been filled becomes one of twice the capacity, in the same order. */
    method Expand(ghost full: seq<Message>)
      requires queue.Length == cap && cap > 0 && head < cap && |full| == cap
      requires forall i :: 0 <= i < cap ==> queue[RingIndex(head, i, cap)] == full[i]
      modifies this
      ensures cap == 2 * old(cap) && head == 0 && tail == old(cap) && fresh(queue) && queue.Length == cap
      ensures forall i :: 0 <= i < old(cap) ==> queue[i] == full[i]
      ensures Contents == old(Contents) && inGlobal == old(inGlobal) && release == old(release)
      ensures overload == old(overload) && threshold == old(threshold)
    {
      var bigger := new Message[cap * 2](_ => Message(0, 0, 0));
      var i := 0;
      while i < cap
        invariant 0 <= i <= cap && unchanged(this)
        invariant forall j :: 0 <= j < i ==> bigger[j] == full[j]
      {
        Wrap(head, i, cap);
        bigger[i] := queue[(head + i) % cap];
        i := i + 1;
      }
      head := 0;
      tail := cap;
      cap := cap * 2;
      queue := bigger;
    }

    /** fengnet_mq_push: the message joins the end, and a queue nobody tends joins the global list. */
    method MqPush(m: Message, global: GlobalQueue)
      requires Valid()
      modifies this, queue, global
      ensures Valid() && (queue == old(queue) || fresh(queue))
      ensures Contents == old(Contents) + [m] && inGlobal && release == old(release)
      ensures global.waiting == old(global.waiting) + if old(inGlobal) then [] else [this]
    {
      ghost var longer := Contents + [m];
      queue[tail] := m;
      tail := tail + 1;
      if tail >= cap { tail := 0; }
      assert forall i :: 0 <= i < |longer| ==> queue[RingIndex(head, i, cap)] == longer[i];
      if head == tail {
        Expand(longer);
      }
      Contents := longer;
      if !inGlobal {
        inGlobal := true;
        global.Push(this);
      }
    }

    /** fengnet_mq_pop: the oldest message; an empty queue is no longer tended. */
    method MqPop() returns (m: Message, empty: bool)
      requires Valid()
      modifies this
      ensures Valid() && queue == old(queue) && release == old(release)
      ensures empty <==> old(Contents) == []
      ensures empty ==> Contents == [] && !inGlobal && threshold == MQ_OVERLOAD
      ensures !empty ==> m == old(Contents)[0] && Contents == old(Contents)[1..] && inGlobal == old(inGlobal)
      ensures !empty ==> |Contents| <= threshold && (threshold != old(threshold) ==> overload == |Contents|)
    {
      if head != tail {
        m := queue[head];
        ghost var old_head := head;
        head := head + 1;
        if head >= cap { head := 0; }
        Contents := Contents[1..];
        assert forall i :: 0 <= i < |Contents| ==> RingIndex(head, i, cap) == RingIndex(old_head, i + 1, cap);
        var length: int := tail - head;
        if length < 0 { length := length + cap; }
        assert length == |Contents|;
        label ring:
        while length > threshold
          invariant threshold >= MQ_OVERLOAD && (threshold != old(threshold) ==> overload == length)
          invariant unchanged@ring(this`cap, this`head, this`tail, this`inGlobal, this`release, this`queue, this`Contents)
          decreases length - threshold
        {
          overload := length;
          threshold := threshold * 2;
        }
        empty := false;
      } else {
        m := Message(0, 0, 0);
        threshold := MQ_OVERLOAD;
        inGlobal := false;
        empty := true;
      }
    }

    method MqLength() returns (length: int)
      requires Valid()
      ensures length == |Contents|
    {
      if head <= tail { return tail - head; }
      return tail + cap - head;
    }

    /** fengnet_mq_mark_release, with its assert as a precondition. */
    method MarkRelease(global: GlobalQueue)
      requires Valid() && !release
      modifies this`release, global
      ensures Valid() && release
      ensures global.waiting == old(global.waiting) + if inGlobal then [] else [this]
    {
      release := true;
      if !inGlobal { global.Push(this); }
    }

    /** fengnet_mq_release: every message is dropped once, in order, or the queue goes back to the global list. */
    method MqRelease(global: GlobalQueue) returns (dropped: seq<Message>, freed: bool)
      requires Valid()
      modifies this, global
      ensures Valid() && freed == old(release)
      ensures freed ==> dropped == old(Contents) && Contents == [] && global.waiting == old(global.waiting)
      ensures !freed ==> dropped == [] && Contents == old(Contents) && global.waiting == old(global.waiting) + [this]
    {
      dropped := [];
      if !release {
        global.Push(this);
        return dropped, false;
      }
      var m, empty := MqPop();
      while !empty
        invariant Valid() && queue == old(queue) && global.waiting == old(global.waiting)
        invariant if empty then dropped == old(Contents) && Contents == [] else dropped + [m] + Contents == old(Contents)
        decreases |Contents|, !empty
      {
        dropped := dropped + [m];
        m, empty := MqPop();
      }
      freed := true;
    }
  }
}
