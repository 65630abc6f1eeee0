/**
 Length-prefixed packages in byte streams (lualib-src/lua-netpack.cpp): two bytes of size,
 high byte first, and that many bytes of data.
 */
module Framing {
  import opened Common

  function SizeOf(s: seq<Byte>): nat
    requires |s| >= 2
  {
    var high: int, low: int := s[0], s[1];
    256 * high + low
  }

  /** The whole packages at the start of a stream, and what is left behind them. */
  function Packages(s: seq<Byte>): seq<seq<Byte>>
    decreases |s|
  {
    if |s| < 2 || |s| < 2 + SizeOf(s) then [] else [s[2..2 + SizeOf(s)]] + Packages(s[2 + SizeOf(s)..])
  }

  function Tail(s: seq<Byte>): seq<Byte>
    decreases |s|
  {
    if |s| < 2 || |s| < 2 + SizeOf(s) then s else Tail(s[2 + SizeOf(s)..])
  }

  function Frame(p: seq<Byte>): seq<Byte>
    requires |p| < 0x1_0000
  {
    [|p| / 256, |p| % 256] + p
  }

  function Join(ps: seq<seq<Byte>>): seq<Byte>
    requires forall k :: 0 <= k < |ps| ==> |ps[k]| < 0x1_0000
  {
    if |ps| == 0 then [] else Frame(ps[0]) + Join(ps[1..])
  }

  lemma {:induction false} PackagesFit(s: seq<Byte>)
    ensures forall k :: 0 <= k < |Packages(s)| ==> |Packages(s)[k]| < 0x1_0000
    decreases |s|
  {
    if |s| >= 2 && |s| >= 2 + SizeOf(s) { PackagesFit(s[2 + SizeOf(s)..]); }
  }

  /** Nothing of the stream is lost: it is the framed packages and the tail, and the tail holds no whole package. */
  lemma {:induction false} ParseIsExact(s: seq<Byte>)
    ensures forall k :: 0 <= k < |Packages(s)| ==> |Packages(s)[k]| < 0x1_0000
    ensures s == Join(Packages(s)) + Tail(s) && Packages(Tail(s)) == []
    decreases |s|
  {
    PackagesFit(s);
    if |s| >= 2 && |s| >= 2 + SizeOf(s) {
      var n := SizeOf(s);
      var p, rest := s[2..2 + n], s[2 + n..];
      ParseIsExact(rest);
      FrameOf(s);
      assert Packages(s) == [p] + Packages(rest) && Tail(s) == Tail(rest);
      JoinOne(p, Packages(rest), Tail(rest));
    } else {
      assert Join([]) + s == s;
    }
  }

  lemma FrameOf(s: seq<Byte>)
    requires |s| >= 2 && |s| >= 2 + SizeOf(s)
    ensures |s[2..2 + SizeOf(s)]| < 0x1_0000 && s == Frame(s[2..2 + SizeOf(s)]) + s[2 + SizeOf(s)..]
  {
    assert SizeOf(s) / 256 == s[0] && SizeOf(s) % 256 == s[1];
  }

  lemma JoinOne(p: seq<Byte>, ps: seq<seq<Byte>>, tail: seq<Byte>)
    requires |p| < 0x1_0000 && forall k :: 0 <= k < |ps| ==> |ps[k]| < 0x1_0000
    ensures Join([p] + ps) + tail == Frame(p) + (Join(ps) + tail)
  {
    hide Frame;
    assert ([p] + ps)[1..] == ps;
  }

  /** Parsing can stop anywhere and go on with what was left. */
  lemma {:induction false} ParseSplit(a: seq<Byte>, b: seq<Byte>)
    ensures Packages(a + b) == Packages(a) + Packages(Tail(a) + b)
    ensures Tail(a + b) == Tail(Tail(a) + b)
    decreases |a|
  {
    if |a| >= 2 && |a| >= 2 + SizeOf(a) {
      var n := SizeOf(a);
      assert SizeOf(a + b) == n && (a + b)[2..2 + n] == a[2..2 + n];
      assert (a + b)[2 + n..] == a[2 + n..] + b;
      ParseSplit(a[2 + n..], b);
    } else {
      assert [] + Packages(a + b) == Packages(a + b);
    }
  }

  /** A package in front of a stream. */
  lemma OnePackage(p: seq<Byte>, rest: seq<Byte>)
    requires |p| < 0x1_0000
    ensures Packages(Frame(p) + rest) == [p] + Packages(rest) && Tail(Frame(p) + rest) == Tail(rest)
  {
    var s := Frame(p) + rest;
    assert SizeOf(s) == |p| && s[2..2 + |p|] == p && s[2 + |p|..] == rest;
  }

  // ---------- many sockets, any chunks ----------

  datatype Chunk = Chunk(fd: int, data: seq<Byte>)

  function StreamOf(chunks: seq<Chunk>, fd: int): seq<Byte> {
    if |chunks| == 0 then []
    else StreamOf(chunks[..|chunks| - 1], fd) + if chunks[|chunks| - 1].fd == fd then chunks[|chunks| - 1].data else []
  }

  /** What one chunk delivers and leaves, given what its socket had left before. */
  function Delivered(chunks: seq<Chunk>, fd: int): seq<seq<Byte>> {
    if |chunks| == 0 then []
    else
      var c := chunks[|chunks| - 1];
      Delivered(chunks[..|chunks| - 1], fd)
      + if c.fd == fd then Packages(LeftOver(chunks[..|chunks| - 1], fd) + c.data) else []
  }

  function LeftOver(chunks: seq<Chunk>, fd: int): seq<Byte> {
    if |chunks| == 0 then []
    else
      var c := chunks[|chunks| - 1];
      var before := LeftOver(chunks[..|chunks| - 1], fd);
      if c.fd == fd then Tail(before + c.data) else before
  }

  /** However the streams of many sockets are cut and mixed, each socket is delivered the packages of its own stream. */
  lemma {:induction false} ChunksDoNotMatter(chunks: seq<Chunk>, fd: int)
    ensures Delivered(chunks, fd) == Packages(StreamOf(chunks, fd))
    ensures LeftOver(chunks, fd) == Tail(StreamOf(chunks, fd))
  {
    if |chunks| > 0 {
      var c, before := chunks[|chunks| - 1], chunks[..|chunks| - 1];
      ChunksDoNotMatter(before, fd);
      if c.fd == fd {
        ParseSplit(StreamOf(before, fd), c.data);
      } else {
        assert StreamOf(before, fd) + [] == StreamOf(before, fd);
        assert Delivered(before, fd) + [] == Delivered(before, fd);
      }
    }
  }
}

/** The queue of packages and the table of incomplete records, with the source's circular buffer and hash chains. */
module Netpack {
  import opened Common
  import opened Framing

  const QUEUESIZE: nat := 1024
  const HASHSIZE: nat := 4096

  /** A whole package of a socket. */
  datatype Pack = Pack(id: int, data: seq<Byte>)

  /** An incomplete record: only the first byte of its size (read == -1), or the size and the data read so far. */
  datatype Uncomplete = Uncomplete(id: int, size: nat, data: seq<Byte>, read: int, header: Byte)

  predicate Proper(uc: Uncomplete) {
    uc.read == -1 || (uc.read == |uc.data| && uc.read < uc.size < 0x1_0000)
  }

  /** The bytes of the stream a record stands for. */
  function BytesOf(uc: Uncomplete): seq<Byte>
    requires Proper(uc)
  {
    if uc.read == -1 then [uc.header] else [uc.size / 256, uc.size % 256] + uc.data
  }

  function HashFd(fd: int): (h: nat)
    ensures h < HASHSIZE
  {
    (fd / 0x100_0000 + fd / 0x1000 + fd) % HASHSIZE
  }

  function Lookup(chain: seq<Uncomplete>, fd: int): seq<Byte>
    requires forall k :: 0 <= k < |chain| ==> Proper(chain[k])
  {
    if |chain| == 0 then [] else if chain[0].id == fd then BytesOf(chain[0]) else Lookup(chain[1..], fd)
  }

  predicate ChainOk(chain: seq<Uncomplete>, h: nat) {
    (forall k :: 0 <= k < |chain| ==> Proper(chain[k]) && HashFd(chain[k].id) == h)
    && (forall j, k :: 0 <= j < k < |chain| ==> chain[j].id != chain[k].id)
  }

  lemma {:induction false} LookupAt(chain: seq<Uncomplete>, h: nat, k: nat)
    requires ChainOk(chain, h) && k < |chain|
    ensures Lookup(chain, chain[k].id) == BytesOf(chain[k])
  {
    if k > 0 { LookupAt(chain[1..], h, k - 1); }
  }

  lemma {:induction false} LookupNone(chain: seq<Uncomplete>, h: nat, fd: int)
    requires ChainOk(chain, h) && forall k :: 0 <= k < |chain| ==> chain[k].id != fd
    ensures Lookup(chain, fd) == []
  {
    if |chain| > 0 { LookupNone(chain[1..], h, fd); }
  }

  /** Unlinking a record leaves the others, and nothing for its own socket. */
  lemma {:induction false} LookupWithout(chain: seq<Uncomplete>, h: nat, k: nat, fd: int)
    requires ChainOk(chain, h) && k < |chain|
    ensures var less := chain[..k] + chain[k + 1..];
      ChainOk(less, h) && Lookup(less, fd) == if fd == chain[k].id then [] else Lookup(chain, fd)
  {
    var less := chain[..k] + chain[k + 1..];
    assert ChainOk(less, h);
    if k == 0 {
      assert less == chain[1..];
      if fd == chain[0].id { LookupNone(less, h, fd); }
    } else {
      LookupWithout(chain[1..], h, k - 1, fd);
      assert less[1..] == chain[1..][..k - 1] + chain[1..][k..];
    }
  }

  /** What filter_data_ hands to its caller: nothing, one package directly, or the word that packages are queued. */
  datatype Answer = Nothing | Data(id: int, data: seq<Byte>) | More

  class Queue {
    var cap: nat
    var head: nat
    var tail: nat
    var ring: array<Pack>
    const hash: array<seq<Uncomplete>>
    ghost var Contents: seq<Pack>

    ghost predicate RingOk()
      reads this, ring
    {
      ring.Length == cap && head < cap && tail < cap && |Contents| < cap
      && tail == RingIndex(head, |Contents|, cap)
      && forall i :: 0 <= i < |Contents| ==> ring[RingIndex(head, i, cap)] == Contents[i]
    }

    ghost predicate TableOk()
      reads hash
    {
      hash.Length == HASHSIZE && forall h :: 0 <= h < HASHSIZE ==> ChainOk(hash[h], h)
    }

    ghost predicate Valid()
      reads this, ring, hash
    {
      RingOk() && TableOk()
    }

    /** The bytes a socket has sent since its last whole package. */
    ghost function Pending(fd: int): seq<Byte>
      requires TableOk()
      reads hash
    {
      Lookup(hash[HashFd(fd)], fd)
    }

    constructor ()
      ensures Valid() && fresh(ring) && fresh(hash) && Contents == [] && forall fd :: Pending(fd) == []
    {
      cap, head, tail := QUEUESIZE, 0, 0;
      ring := new Pack[QUEUESIZE](_ => Pack(0, []));
      hash := new seq<Uncomplete>[HASHSIZE](_ => []);
      Contents := [];
    }

    /** Finds the record of a socket and takes it out of its chain. */
    method FindUncomplete(fd: int) returns (found: bool, uc: Uncomplete)
      requires TableOk()
      modifies hash
      ensures TableOk() && forall f :: Pending(f) == if f == fd then [] else old(Pending(f))
      ensures found ==> Proper(uc) && uc.id == fd && BytesOf(uc) == old(Pending(fd))
      ensures !found ==> old(Pending(fd)) == []
    {
      var h, k := HashFd(fd), 0;
      ghost var chain := hash[h];
      while k < |hash[h]|
        invariant 0 <= k <= |chain| && hash[h] == chain && unchanged(hash)
        invariant forall j :: 0 <= j < k ==> chain[j].id != fd
      {
        if hash[h][k].id == fd {
          uc := hash[h][k];
          LookupAt(chain, h, k);
          forall f ensures ChainOk(chain[..k] + chain[k + 1..], h) && Lookup(chain[..k] + chain[k + 1..], f)
            == if f == fd then [] else Lookup(chain, f)
          {
            LookupWithout(chain, h, k, f);
          }
          hash[h] := hash[h][..k] + hash[h][k + 1..];
          return true, uc;
        }
        k := k + 1;
      }
      LookupNone(chain, h, fd);
      uc := Uncomplete(fd, 0, [], -1, 0);
      found := false;
    }

    /** Links a record at the head of its chain; its socket has no other. */
    method SaveUncomplete(uc: Uncomplete)
      requires TableOk() && Proper(uc) && Pending(uc.id) == []
      modifies hash
      ensures TableOk() && forall f :: Pending(f) == if f == uc.id then BytesOf(uc) else old(Pending(f))
    {
      var h := HashFd(uc.id);
      ghost var chain := hash[h];
      forall k | 0 <= k < |chain| ensures chain[k].id != uc.id { LookupAt(chain, h, k); }
      hash[h] := [uc] + hash[h];
      assert hash[h][1..] == chain;
    }

    method ExpandQueue(ghost full: seq<Pack>)
      requires ring.Length == cap && cap > 0 && head < cap && |full| == cap
      requires forall i :: 0 <= i < cap ==> ring[RingIndex(head, i, cap)] == full[i]
      modifies this
      ensures cap == old(cap) + QUEUESIZE && head == 0 && tail == old(cap) && fresh(ring) && ring.Length == cap
      ensures forall i :: 0 <= i < old(cap) ==> ring[i] == full[i]
      ensures Contents == old(Contents)
    {
      var bigger := new Pack[cap + QUEUESIZE](_ => Pack(0, []));
      var i := 0;
      while i < cap
        invariant 0 <= i <= cap && unchanged(this)
        invariant forall j :: 0 <= j < i ==> bigger[j] == full[j]
      {
        Wrap(head, i, cap);
        bigger[i] := ring[(head + i) % cap];
        i := i + 1;
      }
      head := 0;
      tail := cap;
      cap := cap + QUEUESIZE;
      ring := bigger;
    }

    /** push_data: the package joins the end of the queue, which grows when it is full. */
    method PushData(fd: int, data: seq<Byte>)
      requires RingOk()
      modifies this, ring
      ensures RingOk() && (ring == old(ring) || fresh(ring)) && Contents == old(Contents) + [Pack(fd, data)]
    {
      ghost var longer := Contents + [Pack(fd, data)];
      ring[tail] := Pack(fd, data);
      tail := tail + 1;
      if tail >= cap { tail := tail - cap; }
      assert forall i :: 0 <= i < |longer| ==> ring[RingIndex(head, i, cap)] == longer[i];
      if head == tail {
        ExpandQueue(longer);
      }
      Contents := longer;
    }

    /** lpop */
    method Pop() returns (empty: bool, p: Pack)
      requires RingOk()
      modifies this
      ensures RingOk() && ring == old(ring) && (empty <==> old(Contents) == [])
      ensures empty ==> Contents == []
      ensures !empty ==> p == old(Contents)[0] && Contents == old(Contents)[1..]
    {
      p := Pack(0, []);
      if head == tail { return true, p; }
      p := ring[head];
      ghost var first := head;
      head := head + 1;
      if head >= cap { head := 0; }
      Contents := Contents[1..];
      assert forall i :: 0 <= i < |Contents| ==> RingIndex(head, i, cap) == RingIndex(first, i + 1, cap);
      empty := false;
    }

    /** push_more: all whole packages of the rest of a chunk, and a record for what is left of it. */
    method PushMore(fd: int, buffer: seq<Byte>)
      requires Valid() && |buffer| > 0 && Pending(fd) == []
      modifies this, ring, hash
      ensures Valid() && (ring == old(ring) || fresh(ring))
      ensures Contents == old(Contents) + Packs(fd, Packages(buffer))
      ensures forall f :: Pending(f) == if f == fd then Tail(buffer) else old(Pending(f))
      decreases |buffer|
    {
      if |buffer| == 1 {
        SaveUncomplete(Uncomplete(fd, 0, [], -1, buffer[0]));
        return;
      }
      var packSize, rest := SizeOf(buffer), buffer[2..];
      if |rest| < packSize {
        SaveUncomplete(Uncomplete(fd, packSize, rest, |rest|, 0));
        PartBytes(buffer);
        return;
      }
      PushData(fd, rest[..packSize]);
      assert rest[packSize..] == buffer[2 + packSize..] && rest[..packSize] == buffer[2..2 + packSize];
      PacksMore(fd, rest[..packSize], Packages(rest[packSize..]));
      rest := rest[packSize..];
      if |rest| > 0 {
        PushMore(fd, rest);
      }
    }

    /** close_uncomplete */
    method CloseUncomplete(fd: int)
      requires Valid()
      modifies hash
      ensures Valid() && forall f :: Pending(f) == if f == fd then [] else old(Pending(f))
    {
      var found, uc := FindUncomplete(fd);
    }

    /** filter_data_ for a socket with nothing pending. */
    method FilterFresh(fd: int, buffer: seq<Byte>) returns (answer: Answer)
      requires Valid() && |buffer| > 0 && Pending(fd) == []
      modifies this, ring, hash
      ensures Valid() && (ring == old(ring) || fresh(ring))
      ensures forall f :: Pending(f) == if f == fd then Tail(buffer) else old(Pending(f))
      ensures Contents + Handed(answer) == old(Contents) + Packs(fd, Packages(buffer))
      ensures if answer.More? then |Contents| > |old(Contents)| else Contents == old(Contents)
    {
      hide ChainOk, Lookup, RingOk, TableOk, Pending, HashFd;
      if |buffer| == 1 {
        SaveUncomplete(Uncomplete(fd, 0, [], -1, buffer[0]));
        return Nothing;
      }
      var packSize, rest := SizeOf(buffer), buffer[2..];
      if |rest| < packSize {
        SaveUncomplete(Uncomplete(fd, packSize, rest, |rest|, 0));
        PartBytes(buffer);
        return Nothing;
      }
      assert rest[packSize..] == buffer[2 + packSize..] && rest[..packSize] == buffer[2..2 + packSize];
      PacksMore(fd, rest[..packSize], Packages(rest[packSize..]));
      if |rest| == packSize {
        assert rest[..packSize] == rest;
        return Data(fd, rest);
      }
      PushData(fd, rest[..packSize]);
      PushMore(fd, rest[packSize..]);
      return More;
    }

    /** filter_data_ for a socket whose record has been taken from the table. */
    method FilterFill(record: Uncomplete, chunk: seq<Byte>) returns (answer: Answer)
      requires Valid() && |chunk| > 0 && Proper(record) && Pending(record.id) == []
      modifies this, ring, hash
      ensures Valid() && (ring == old(ring) || fresh(ring))
      ensures forall f :: Pending(f) == if f == record.id then Tail(BytesOf(record) + chunk) else old(Pending(f))
      ensures Contents + Handed(answer) == old(Contents) + Packs(record.id, Packages(BytesOf(record) + chunk))
      ensures if answer.More? then |Contents| > |old(Contents)| else Contents == old(Contents)
    {
      hide ChainOk, Lookup, RingOk, TableOk, Pending, HashFd, Packages, Tail, BytesOf, Packs;
      var uc, buffer := record, chunk;
      if uc.read < 0 {
        uc := uc.(size := SizeOf([uc.header, buffer[0]]), data := [], read := 0);
        buffer := buffer[1..];
      }
      FilledBytes(record, chunk, uc, buffer);
      var need := uc.size - uc.read;
      if |buffer| < need {
        uc := uc.(data := uc.data + buffer, read := uc.read + |buffer|);
        StillShort(BytesOf(record) + chunk, uc);
        SaveUncomplete(uc);
        return Nothing;
      }
      var whole := uc.data + buffer[..need];
      Completed(BytesOf(record) + chunk, uc, buffer);
      PacksMore(uc.id, whole, Packages(buffer[need..]));
      if |buffer| == need {
        NothingBehind(uc.id);
        assert buffer[need..] == [];
        return Data(uc.id, whole);
      }
      PushData(uc.id, whole);
      PushMore(uc.id, buffer[need..]);
      return More;
    }

    /**
     filter_data_: the packages that the pending bytes of the socket and the new chunk make up are
     handed over, in order, directly or in the queue, and the rest is kept; no other socket is touched.
     */
    method FilterData(fd: int, chunk: seq<Byte>) returns (answer: Answer)
      requires Valid() && |chunk| > 0
      modifies this, ring, hash
      ensures Valid() && (ring == old(ring) || fresh(ring))
      ensures forall f :: Pending(f) == if f == fd then Tail(old(Pending(fd)) + chunk) else old(Pending(f))
      ensures Contents + Handed(answer) == old(Contents) + Packs(fd, Packages(old(Pending(fd)) + chunk))
      ensures if answer.More? then |Contents| > |old(Contents)| else Contents == old(Contents)
    {
      hide ChainOk, Lookup, RingOk, TableOk, Pending, HashFd;
      var found, uc := FindUncomplete(fd);
      if found {
        answer := FilterFill(uc, chunk);
      } else {
        assert [] + chunk == chunk;
        answer := FilterFresh(fd, chunk);
      }
    }
  }

  /** The record with its size read, as the bytes of the stream. */
  lemma FilledBytes(record: Uncomplete, chunk: seq<Byte>, uc: Uncomplete, buffer: seq<Byte>)
    requires Proper(record) && |chunk| > 0
    requires if record.read >= 0 then uc == record && buffer == chunk
      else uc == record.(size := SizeOf([record.header, chunk[0]]), data := [], read := 0) && buffer == chunk[1..]
    ensures 0 <= uc.read == |uc.data| <= uc.size < 0x1_0000
    ensures BytesOf(record) + chunk == [uc.size / 256, uc.size % 256] + uc.data + buffer
  {
  }

  lemma NothingBehind(fd: int)
    ensures Packages([]) == [] && Tail([]) == [] && Packs(fd, []) == []
  {
  }

  lemma StillShort(stream: seq<Byte>, uc: Uncomplete)
    requires 0 <= uc.read == |uc.data| < uc.size < 0x1_0000 && stream == [uc.size / 256, uc.size % 256] + uc.data
    ensures Packs(uc.id, Packages(stream)) == [] && Tail(stream) == BytesOf(uc)
  {
  }

  lemma Completed(stream: seq<Byte>, uc: Uncomplete, buffer: seq<Byte>)
    requires 0 <= uc.read == |uc.data| <= uc.size < 0x1_0000 && uc.size - uc.read <= |buffer|
    requires stream == [uc.size / 256, uc.size % 256] + uc.data + buffer
    ensures var need := uc.size - uc.read;
      Packages(stream) == [uc.data + buffer[..need]] + Packages(buffer[need..]) && Tail(stream) == Tail(buffer[need..])
  {
    var need := uc.size - uc.read;
    assert stream == Frame(uc.data + buffer[..need]) + buffer[need..];
    OnePackage(uc.data + buffer[..need], buffer[need..]);
  }

  function Packs(fd: int, ps: seq<seq<Byte>>): seq<Pack> {
    if |ps| == 0 then [] else [Pack(fd, ps[0])] + Packs(fd, ps[1..])
  }

  function Handed(answer: Answer): seq<Pack> { if answer.Data? then [Pack(answer.id, answer.data)] else [] }

  lemma PacksMore(fd: int, p: seq<Byte>, ps: seq<seq<Byte>>)
    ensures Packs(fd, [p] + ps) == [Pack(fd, p)] + Packs(fd, ps)
  {
    assert ([p] + ps)[1..] == ps;
  }

  /** A chunk that ends inside its first package is its size and the data so far. */
  lemma PartBytes(buffer: seq<Byte>)
    requires |buffer| >= 2
    ensures [SizeOf(buffer) / 256, SizeOf(buffer) % 256] + buffer[2..] == buffer
  {
  }
}
