/**
 What a connected socket's file descriptor has accepted, as the writes that were made on it,
 and when those writes are whole messages followed by a prefix of one more.
 */
module Wire {
  import opened Common

  /** One message given to socket_server_send; the serial number tells equal contents apart. */
  datatype Message = Message(serial: nat, data: seq<bv8>)

  /** A message of which the first `sent` bytes have been accepted: a write_buffer, or the direct write buffer. */
  datatype Buffer = Buffer(m: Message, sent: nat)

  /** One successful write: bytes from..to of a message. */
  datatype Chunk = Chunk(m: Message, from: nat, to: nat)

  /** Messages written whole, and the one that is half sent. */
  datatype Parsed = Parsed(whole: seq<Message>, open: Option<Buffer>)

  function Reached(whole: seq<Message>, m: Message, to: nat): Parsed {
    if to == |m.data| then Parsed(whole + [m], None) else Parsed(whole, Some(Buffer(m, to)))
  }

  /** Some exactly when every write continues the message that is half sent, or starts a new one when none is. */
  function Parse(fd: seq<Chunk>): Option<Parsed> {
    if |fd| == 0 then Some(Parsed([], None))
    else
      var c := fd[|fd| - 1];
      match Parse(fd[..|fd| - 1])
      case None => None
      case Some(p) =>
        if c.from <= c.to <= |c.m.data| && (c.from < c.to || |c.m.data| == 0)
           && (if p.open.None? then c.from == 0 else p.open.value == Buffer(c.m, c.from))
        then Some(Reached(p.whole, c.m, c.to))
        else None
  }

  /** The messages a stream contains whole. */
  function Whole(fd: seq<Chunk>): seq<Message> { if Parse(fd).Some? then Parse(fd).value.whole else [] }

  function BytesOf(c: Chunk): seq<bv8> {
    if c.from <= c.to <= |c.m.data| then c.m.data[c.from..c.to] else []
  }

  /** The byte stream the file descriptor accepted. */
  function Stream(fd: seq<Chunk>): seq<bv8> {
    if |fd| == 0 then [] else Stream(fd[..|fd| - 1]) + BytesOf(fd[|fd| - 1])
  }

  function Concat(ms: seq<Message>): seq<bv8> {
    if |ms| == 0 then [] else Concat(ms[..|ms| - 1]) + ms[|ms| - 1].data
  }

  function Prefix(open: Option<Buffer>): seq<bv8> {
    if open.Some? && open.value.sent <= |open.value.m.data| then open.value.m.data[..open.value.sent] else []
  }

  /** A stream that parses is its whole messages followed by a proper prefix of one more. */
  lemma {:induction false} StreamIsMessages(fd: seq<Chunk>)
    requires Parse(fd).Some?
    ensures var p := Parse(fd).value;
      Stream(fd) == Concat(p.whole) + Prefix(p.open)
      && (p.open.Some? ==> 0 < p.open.value.sent < |p.open.value.m.data|)
  {
    if |fd| > 0 {
      var c := fd[|fd| - 1];
      StreamIsMessages(fd[..|fd| - 1]);
      ChunkExtends(Parse(fd[..|fd| - 1]).value, c, Stream(fd[..|fd| - 1]));
    }
  }

  lemma ChunkExtends(before: Parsed, c: Chunk, stream: seq<bv8>)
    requires c.from <= c.to <= |c.m.data|
    requires if before.open.None? then c.from == 0 else before.open.value == Buffer(c.m, c.from)
    requires stream == Concat(before.whole) + Prefix(before.open)
    ensures var p := Reached(before.whole, c.m, c.to); stream + BytesOf(c) == Concat(p.whole) + Prefix(p.open)
  {
    assert Prefix(before.open) == c.m.data[..c.from];
    assert c.m.data[..c.from] + c.m.data[c.from..c.to] == c.m.data[..c.to];
    assert BytesOf(c) == c.m.data[c.from..c.to];
    assert stream + BytesOf(c) == Concat(before.whole) + c.m.data[..c.to];
    hide Prefix, BytesOf;
    if c.to == |c.m.data| {
      assert (before.whole + [c.m])[..|before.whole|] == before.whole;
      assert c.m.data[..c.to] == c.m.data;
    }
  }

  lemma ParseAppend(fd: seq<Chunk>, c: Chunk)
    ensures (fd + [c])[..|fd|] == fd && (fd + [c])[|fd|] == c
  {
  }

  /** The half-sent message a line of buffers starts with. */
  function OpenOf(line: seq<Buffer>): Option<Buffer> {
    if |line| > 0 && line[0].sent > 0 then Some(line[0]) else None
  }

  predicate Unsent(line: seq<Buffer>) { forall k :: 0 <= k < |line| ==> line[k].sent == 0 }

  /**
   The buffers waiting on a socket, in the order they will be written, fit the stream so far: the
   half-sent message, if there is one, is the first of them, and of no other has a byte been sent.
   */
  predicate Aligned(fd: seq<Chunk>, line: seq<Buffer>) {
    Parse(fd).Some? && Parse(fd).value.open == OpenOf(line)
    && (|line| > 0 ==> Unsent(line[1..]))
  }

  /** Bytes not yet sent. */
  function Left(line: seq<Buffer>): int {
    if |line| == 0 then 0 else |line[0].m.data| - line[0].sent + Left(line[1..])
  }

  function Messages(line: seq<Buffer>): multiset<Message> {
    if |line| == 0 then multiset{} else multiset{line[0].m} + Messages(line[1..])
  }

  lemma {:induction false} LineAppend(a: seq<Buffer>, b: seq<Buffer>)
    ensures Left(a + b) == Left(a) + Left(b)
    ensures Messages(a + b) == Messages(a) + Messages(b)
  {
    if |a| == 0 {
      assert a + b == b;
    } else {
      assert (a + b)[1..] == a[1..] + b;
      LineAppend(a[1..], b);
    }
  }
}

/** The socket thread's operations on one slot (fengnet-src/socket_server.cpp), as functions on its fields. */
module SocketSpec {
  import opened Common
  import opened Wire

  datatype Type =
    Invalid | Reserved | PListen | Listening | Connecting | Connected | HalfcloseRead | HalfcloseWrite | PAccept | Bound

  /**
   The fields of struct socket that the write path uses. `tcp` is protocol == PROTOCOL_TCP (it is
   unknown while an id is only reserved), `tag` the id part of `sending`, `count` its low half, and
   `fd` what the current file descriptor has accepted.
   */
  datatype Sock = Sock(
    id: nat, typ: Type, tcp: bool, closing: bool, writing: bool,
    high: seq<Buffer>, low: seq<Buffer>, wb: int, dw: Option<Buffer>,
    tag: nat, count: nat, fd: seq<Chunk>)

  /** What one call of write returns; a count is cut to what was offered. */
  datatype WriteResult = Accepted(n: nat) | Interrupted | WouldBlock | Broken

  /** What an operation raises to the service that owns the socket. */
  datatype Raised = Nothing | Close | Error

  datatype Sent = Sent(fd: seq<Chunk>, list: seq<Buffer>, wb: int, rest: seq<WriteResult>, ok: bool)

  function Min(a: nat, b: nat): nat { if a <= b then a else b }

  function Remaining(b: Buffer): nat { if b.sent <= |b.m.data| then |b.m.data| - b.sent else 0 }

  /** The chunk a write of n bytes adds; a write that accepts nothing of a non-empty rest adds none. */
  function Written(b: Buffer, n: nat): seq<Chunk> {
    if n == 0 && Remaining(b) > 0 then [] else [Chunk(b.m, b.sent, b.sent + n)]
  }

  /** send_list_tcp: write from the head of a list until it is empty, the kernel takes less than offered, or an error. */
  function SendList(fd: seq<Chunk>, list: seq<Buffer>, wb: int, ws: seq<WriteResult>): Sent
    decreases |ws|
  {
    if |list| == 0 || |ws| == 0 then Sent(fd, list, wb, ws, true)
    else
      match ws[0]
      case Interrupted => SendList(fd, list, wb, ws[1..])
      case WouldBlock => Sent(fd, list, wb, ws[1..], true)
      case Broken => Sent(fd, list, wb, ws[1..], false)
      case Accepted(offered) =>
        var b := list[0];
        var n := Min(offered, Remaining(b));
        var fd' := fd + Written(b, n);
        if n == Remaining(b) then SendList(fd', list[1..], wb - n, ws[1..])
        else Sent(fd', [Buffer(b.m, b.sent + n)] + list[1..], wb - n, ws[1..], true)
  }

  predicate Empty(s: Sock) { s.high == [] && s.low == [] }

  predicate NoMoreSending(s: Sock) {
    (Empty(s) && s.dw.None? && s.count == 0) || s.typ == HalfcloseWrite
  }

  /** list_uncomplete */
  predicate Uncomplete(list: seq<Buffer>) { |list| > 0 && list[0].sent > 0 }

  /** The first part of force_close, before it waits for the lock. */
  function FreeLists(s: Sock): Sock { s.(high := [], low := []) }

  /** The second part, under the lock. */
  function Invalidate(s: Sock): Sock { s.(typ := Invalid, dw := None) }

  function CloseRead(s: Sock): Sock { s.(typ := HalfcloseRead) }

  /** close_write, called under the lock after a write error. */
  function CloseWrite(s: Sock): (Sock, Raised) {
    if s.closing || s.typ == HalfcloseRead then (Invalidate(FreeLists(s)), Nothing)
    else if s.typ == HalfcloseWrite then (s, Nothing)
    else (s.(typ := HalfcloseWrite, writing := false), Error)
  }

  function RaiseUncomplete(s: Sock): Sock
    requires |s.low| > 0
  {
    s.(high := [s.low[0]], low := s.low[1..])
  }

  /** send_buffer_ */
  function SendLists(s: Sock, ws: seq<WriteResult>): (Sock, Raised) {
    var first := SendList(s.fd, s.high, s.wb, ws);
    var s1 := s.(fd := first.fd, high := first.list, wb := first.wb);
    if !first.ok then CloseWrite(s1)
    else if s1.high != [] then (s1, Nothing)
    else
      var second := SendList(s1.fd, s1.low, s1.wb, first.rest);
      var s2 := s1.(fd := second.fd, low := second.list, wb := second.wb);
      if !second.ok then CloseWrite(s2)
      else if Uncomplete(s2.low) then (RaiseUncomplete(s2), Nothing)
      else if s2.low != [] then (s2, Nothing)
      else if s2.closing then (Invalidate(FreeLists(s2)), Nothing)
      else (s2.(writing := false), Nothing)
  }

  /** The direct write buffer goes before the head of the high list. */
  function TakeDirect(s: Sock): Sock {
    if s.dw.None? then s else s.(high := [s.dw.value] + s.high, wb := s.wb + Remaining(s.dw.value), dw := None)
  }

  /** send_buffer, once it has the lock. */
  function SendBuffer(s: Sock, ws: seq<WriteResult>): (Sock, Raised) { SendLists(TakeDirect(s), ws) }

  /** send_socket: a message from the pipe joins a list, or is dropped (false). */
  function SendSocket(s: Sock, id: nat, m: Message, low: bool): (Sock, bool) {
    if s.typ == Invalid || s.id != id || s.typ == HalfcloseWrite || s.typ == PAccept || s.closing
       || s.typ == PListen || s.typ == Listening then (s, false)
    else if Empty(s) then (s.(high := [Buffer(m, 0)], wb := s.wb + |m.data|, writing := true), true)
    else if low then (s.(low := s.low + [Buffer(m, 0)], wb := s.wb + |m.data|), true)
    else (s.(high := s.high + [Buffer(m, 0)], wb := s.wb + |m.data|), true)
  }

  /** inc_sending_ref, at the moment its exchange succeeds or it gives up. */
  function IncSending(s: Sock, id: nat): (Sock, bool) {
    if s.tcp && s.tag == id then (s.(count := s.count + 1), true) else (s, false)
  }

  /** dec_sending_ref; None when its assert fails. */
  function DecSending(s: Sock, id: nat): Option<Sock> {
    if s.id == id && s.tcp then (if s.count == 0 then None else Some(s.(count := s.count - 1)))
    else Some(s)
  }

  /** reserve_id, when the exchange succeeds. */
  function Reserve(s: Sock, id: nat): Sock { s.(id := id, typ := Reserved, tcp := false) }

  /** new_fd for a TCP file descriptor, and the type its caller then stores. */
  function NewFd(s: Sock, typ: Type): Sock {
    s.(typ := typ, tcp := true, closing := false, writing := typ == Connecting, wb := 0, dw := None,
       tag := s.id, count := 0, fd := [])
  }

  /** What close_socket decides: the socket, whether it starts force_close, and what it raises. */
  function CloseSocket(s: Sock, shutdown: bool): (Sock, bool, Raised) {
    if shutdown || NoMoreSending(s) then (s, true, if s.typ == HalfcloseRead then Nothing else Close)
    else
      var s' := s.(closing := true);
      if s.typ != HalfcloseRead then (CloseRead(s'), false, Close) else (s', false, Nothing)
  }

  /** What forward_message_tcp does when read returns 0. */
  function ReadEnd(s: Sock): (Sock, bool, Raised) {
    if s.closing then (s, NoMoreSending(s), Nothing)
    else if s.typ == HalfcloseRead then (s, false, Nothing)
    else if s.typ == HalfcloseWrite then (s, true, Close)
    else (CloseRead(s), false, Close)
  }

  /** report_connect without an error. */
  function ConnectDone(s: Sock): Sock {
    var s' := s.(typ := Connected);
    if NoMoreSending(s') then s'.(writing := false) else s'
  }

  /** Resuming a paused accept or listen. */
  function Resumed(s: Sock): Sock {
    if s.typ == PAccept then s.(typ := Connected) else if s.typ == PListen then s.(typ := Listening) else s
  }
}
