/**
 How a gate service drives netpack (lualib/snax/gateserver.lua): each chunk a socket receives goes
 through filter; a package that comes back is dispatched, and on "more" the queue is emptied.
 */
module GateServer {
  import opened Common
  import opened Framing
  import opened Netpack

  /** The data of the packages dispatched for one socket. */
  function OfSocket(out: seq<Pack>, fd: int): seq<seq<Byte>> {
    if |out| == 0 then [] else (if out[0].id == fd then [out[0].data] else []) + OfSocket(out[1..], fd)
  }

  lemma {:induction false} OfSocketAppend(a: seq<Pack>, b: seq<Pack>, fd: int)
    ensures OfSocket(a + b, fd) == OfSocket(a, fd) + OfSocket(b, fd)
  {
    if |a| == 0 {
      assert a + b == b;
    } else {
      assert (a + b)[1..] == a[1..] + b && (a + b)[0] == a[0];
      OfSocketAppend(a[1..], b, fd);
      var first := if a[0].id == fd then [a[0].data] else [];
      assert OfSocket(a + b, fd) == first + OfSocket(a[1..] + b, fd);
    }
  }

  lemma {:induction false} OfSocketPacks(id: int, ps: seq<seq<Byte>>, fd: int)
    ensures OfSocket(Packs(id, ps), fd) == if id == fd then ps else []
  {
    if |ps| > 0 {
      assert Packs(id, ps)[1..] == Packs(id, ps[1..]);
      OfSocketPacks(id, ps[1..], fd);
    }
  }

  /** dispatch_queue: pop until nothing is left. */
  method DispatchQueue(q: Queue) returns (out: seq<Pack>)
    requires q.Valid()
    modifies q
    ensures q.Valid() && q.ring == old(q.ring) && q.Contents == [] && out == old(q.Contents)
    ensures forall f :: q.Pending(f) == old(q.Pending(f))
  {
    out := [];
    var empty, p := q.Pop();
    while !empty
      invariant q.Valid() && q.ring == old(q.ring) && (empty ==> q.Contents == [])
      invariant out + (if empty then [] else [p]) + q.Contents == old(q.Contents)
      invariant forall f :: q.Pending(f) == old(q.Pending(f))
      decreases |q.Contents|, if empty then 0 else 1
    {
      out := out + [p];
      empty, p := q.Pop();
    }
  }

  /** One chunk: filter it, and dispatch what it makes whole. */
  method ServeChunk(q: Queue, fd: int, chunk: seq<Byte>) returns (out: seq<Pack>)
    requires q.Valid() && q.Contents == [] && |chunk| > 0
    modifies q, q.ring, q.hash
    ensures q.Valid() && q.Contents == [] && (q.ring == old(q.ring) || fresh(q.ring))
    ensures out == Packs(fd, Packages(old(q.Pending(fd)) + chunk))
    ensures forall f :: q.Pending(f) == if f == fd then Tail(old(q.Pending(fd)) + chunk) else old(q.Pending(f))
  {
    hide ChainOk, Lookup, HashFd, Packages, Packs, Tail;
    out := [];
    ghost var whole := Packs(fd, Packages(q.Pending(fd) + chunk));
    assert [] + whole == whole;
    var answer := q.FilterData(fd, chunk);
    match answer
    case Nothing =>
    case Data(id, data) => out := [Pack(id, data)];
    case More => out := DispatchQueue(q);
  }

  /** One more chunk on what was dispatched so far. */
  lemma OneMore(out: seq<Pack>, more: seq<Pack>, chunks: seq<Chunk>, k: nat, fd: int)
    requires k < |chunks| && OfSocket(out, fd) == Delivered(chunks[..k], fd)
    requires more == Packs(chunks[k].fd, Packages(LeftOver(chunks[..k], chunks[k].fd) + chunks[k].data))
    ensures OfSocket(out + more, fd) == Delivered(chunks[..k + 1], fd)
  {
    hide Packages, Packs;
    var c := chunks[k];
    assert chunks[..k + 1][..k] == chunks[..k];
    OfSocketAppend(out, more, fd);
    OfSocketPacks(c.fd, Packages(LeftOver(chunks[..k], c.fd) + c.data), fd);
  }

  lemma LeftOneMore(chunks: seq<Chunk>, k: nat, fd: int)
    requires k < |chunks|
    ensures var before, c := LeftOver(chunks[..k], fd), chunks[k];
      LeftOver(chunks[..k + 1], fd) == if c.fd == fd then Tail(before + c.data) else before
  {
    assert chunks[..k + 1][..k] == chunks[..k];
  }

  /**
   The whole service: however the streams of many sockets are cut into chunks and mixed, what is
   dispatched for each socket are the packages of its own stream in order, and what stays pending
   is the incomplete rest of that stream.
   */
  method ServeChunks(q: Queue, chunks: seq<Chunk>) returns (out: seq<Pack>)
    requires q.Valid() && q.Contents == [] && forall fd :: q.Pending(fd) == []
    requires forall k :: 0 <= k < |chunks| ==> |chunks[k].data| > 0
    modifies q, q.ring, q.hash
    ensures q.Valid() && q.Contents == []
    ensures forall fd :: OfSocket(out, fd) == Packages(StreamOf(chunks, fd))
    ensures forall fd :: q.Pending(fd) == Tail(StreamOf(chunks, fd))
  {
    hide ChainOk, Lookup, HashFd, Packages, Packs, Tail;
    out := [];
    for k := 0 to |chunks|
      invariant q.Valid() && q.Contents == [] && (q.ring == old(q.ring) || fresh(q.ring))
      invariant forall fd :: OfSocket(out, fd) == Delivered(chunks[..k], fd)
      invariant forall fd :: q.Pending(fd) == LeftOver(chunks[..k], fd)
    {
      hide Delivered, LeftOver, OfSocket;
      var more := ServeChunk(q, chunks[k].fd, chunks[k].data);
      forall fd ensures OfSocket(out + more, fd) == Delivered(chunks[..k + 1], fd) {
        OneMore(out, more, chunks, k, fd);
      }
      forall fd ensures q.Pending(fd) == LeftOver(chunks[..k + 1], fd) {
        LeftOneMore(chunks, k, fd);
      }
      out := out + more;
    }
    assert chunks[..|chunks|] == chunks;
    forall fd ensures Delivered(chunks, fd) == Packages(StreamOf(chunks, fd)) && LeftOver(chunks, fd) == Tail(StreamOf(chunks, fd)) {
      ChunksDoNotMatter(chunks, fd);
    }
  }
}
