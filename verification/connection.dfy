/** The sequential core of `Connection`: the socket-present/absent lifecycle,
    the send queue and its batching rule, the 8-byte frame header, the header
    parse on the receiving side, and the connect retry loop. Threads, the
    selector, locks and the socket calls themselves are abstracted: a socket is
    an opaque handle, and what `connect` and `recv` return are inputs. */
module Connection {
  import opened Common
  import opened Octets
  import opened Struct
  import Codec

  const HEADER_VERSION: nat := 1
  const HEADER_SIZE: nat := 8
  const CONNECT_ATTEMPTS: nat := 3

  type Bytes = seq<byte>

  /** An opened socket, known only by identity. */
  type SocketId = nat

  /** Either no socket is set (the initial, offline and closed state), or a
      socket is set together with its lock and its FIFO send queue; the lock
      exists exactly when the socket does, so it is folded into `Socket`. */
  datatype Conn = NoSocket | Socket(sock: SocketId, queue: seq<Bytes>)

  /** What `close` does to the outside world. */
  datatype CloseEffect = CloseSocket(sock: SocketId) | PutSentinel

  datatype Closing = Closing(after: Conn, effects: seq<CloseEffect>)

  /** `b''.join(items)`. */
  function Flatten(items: seq<Bytes>): (r: Bytes)
  {
    if |items| == 0 then [] else items[0] + Flatten(items[1..])
  }

  lemma {:induction false} FlattenAppend(a: seq<Bytes>, b: seq<Bytes>)
    ensures Flatten(a + b) == Flatten(a) + Flatten(b)
  {
    if |a| > 0 {
      assert (a + b)[0] == a[0];
      assert (a + b)[1..] == a[1..] + b;
      FlattenAppend(a[1..], b);
    } else {
      assert a + b == b;
    }
  }

  /** `_set_socket`: a fresh lock and an empty queue come with the socket. */
  function SetSocket(sock: SocketId): (r: Conn)
    ensures r.Socket? && r.queue == []
  {
    Socket(sock, [])
  }

  /** `add_to_send_queue`: appends when a socket is set, otherwise does nothing. */
  function AddToSendQueue(c: Conn, data: Bytes): (r: Conn)
    ensures c.NoSocket? ==> r == c
    ensures c.Socket? ==> (&& r.Socket? && r.sock == c.sock
                           && |r.queue| == |c.queue| + 1
                           && r.queue[..|c.queue|] == c.queue
                           && r.queue[|c.queue|] == data)
  {
    match c
    case NoSocket => c
    case Socket(s, q) => Socket(s, q + [data])
  }

  /** `close`: the first call closes the socket, drops socket, lock and queue
      and pushes one `None` onto the old queue to wake the sender. */
  function Close(c: Conn): (r: Closing)
    ensures r.after.NoSocket?
    ensures c.NoSocket? ==> r.effects == []
    ensures c.Socket? ==> r.effects == [CloseSocket(c.sock), PutSentinel]
  {
    match c
    case NoSocket => Closing(c, [])
    case Socket(s, _) => Closing(NoSocket, [CloseSocket(s), PutSentinel])
  }

  /** Closing twice is the same as closing once: the second call changes nothing. */
  lemma CloseIdempotent(c: Conn)
    ensures Close(Close(c).after) == Closing(Close(c).after, [])
    ensures |set i | 0 <= i < |Close(c).effects| && Close(c).effects[i] == PutSentinel| <= 1
  {
    if c.Socket? {
      assert (set i | 0 <= i < 2 && [CloseSocket(c.sock), PutSentinel][i] == PutSentinel) == {1};
    }
  }

  /** `_create_data_header`: version and body length, or `None` where the
      length does not fit and `pack` raises. */
  function CreateDataHeader(data: Bytes): (r: Option<Bytes>)
    ensures r.Some? <==> IsUInt32(|data|)
    ensures r.Some? ==> |r.value| == HEADER_SIZE
  {
    if IsUInt32(|data|) then Some(PackPair(HEADER_VERSION, |data|)) else None
  }

  /** `_read_data`'s header parse: the body length to read next, or `None`
      where `unpack` raises because the header is not exactly 8 bytes. The
      version field is read and discarded. */
  function ReadLength(header: Bytes): (r: Option<nat>)
    ensures r.Some? <==> |header| == HEADER_SIZE
    ensures r.Some? ==> IsUInt32(r.value)
  {
    if |header| == HEADER_SIZE then Some(UnpackPair(header).1) else None
  }

  /** Whatever version a header carries, the parse yields its length field. */
  lemma ReadLengthIgnoresVersion(version: int, n: int)
    requires IsUInt32(version) && IsUInt32(n)
    ensures ReadLength(PackPair(version, n)) == Some(n)
  {
    PairRoundTrip(version, n);
  }

  /** The sender's data header is the codec's message header. */
  lemma DataHeaderIsMessageHeader(data: Bytes)
    requires IsUInt32(|data|)
    ensures CreateDataHeader(data) == Some(Codec.CreateHeader(data))
    ensures HEADER_VERSION == Codec.HEADER_VERSION && HEADER_SIZE == Codec.HEADER_SIZE
  {
  }

  /** The bytes one iteration of the sender puts on the socket: `header + data`. */
  function Frame(data: Bytes): (r: Option<Bytes>)
    ensures r.Some? <==> IsUInt32(|data|)
  {
    match CreateDataHeader(data)
    case None => None
    case Some(h) => Some(h + data)
  }

  /** A frame is the header (version 1, body length) then the body unchanged,
      and the receiver's header parse recovers the body length. */
  lemma FrameLayout(data: Bytes)
    requires IsUInt32(|data|)
    ensures Frame(data).Some?
    ensures |Frame(data).value| == HEADER_SIZE + |data|
    ensures Frame(data).value[..HEADER_SIZE] == PackPair(HEADER_VERSION, |data|)
    ensures Frame(data).value[HEADER_SIZE..] == data
    ensures ReadLength(Frame(data).value[..HEADER_SIZE]) == Some(|data|)
  {
    ReadLengthIgnoresVersion(HEADER_VERSION, |data|);
  }

  /** What `_get_data_from_send_queue` removes: the data handed to the sender
      and the items left behind. */
  datatype Batch = Blocked | Took(data: Bytes, rest: seq<Bytes>)

  /** `_get_data_from_send_queue` given the size `qsize()` reported. Items may
      arrive after that reading but none leave, so size is at most the queue's
      length when the items are taken. With more than one item reported, that
      many are taken and joined in order; otherwise one is taken, and an
      empty queue blocks. */
  function TakeBatch(q: seq<Bytes>, size: nat): (r: Batch)
    requires size <= |q|
    ensures r.Blocked? <==> |q| == 0
    ensures r.Took? ==> r.data + Flatten(r.rest) == Flatten(q)
    ensures r.Took? && size > 1 ==> r.rest == q[size..]
    ensures r.Took? && size <= 1 ==> r.rest == q[1..] && r.data == q[0]
  {
    if size > 1 then
      assert q == q[..size] + q[size..];
      FlattenAppend(q[..size], q[size..]);
      Took(Flatten(q[..size]), q[size..])
    else if |q| == 0 then Blocked
    else
      assert q == [q[0]] + q[1..];
      Took(q[0], q[1..])
  }

  /** One pass of the `_send` loop with `qsize()` reading the whole queue:
      the queue after the pass and the body sent, if any. A body too long for
      the header raises; the loop catches it and the batch is lost. */
  datatype SendPass = SendPass(after: Conn, sent: Option<Bytes>)

  function SendOnce(c: Conn): (r: SendPass)
    ensures c.NoSocket? ==> r == SendPass(c, None)
    ensures c.Socket? ==> r.after.Socket? && r.after.sock == c.sock
  {
    match c
    case NoSocket => SendPass(c, None)
    case Socket(s, q) =>
      match TakeBatch(q, |q|)
      case Blocked => SendPass(c, None)
      case Took(data, rest) =>
        SendPass(Socket(s, rest), if Frame(data).Some? then Some(data) else None)
  }

  /** The body a pass sent, as a list of zero or one items. */
  function SentItems(p: SendPass): (r: seq<Bytes>)
    ensures |r| <= 1
  {
    if p.sent.Some? then [p.sent.value] else []
  }

  /** One pass loses nothing when the queue's bytes fit the header: the body
      it sent, then what it left queued, is the old queue in order. */
  lemma SendOnceKeepsOrder(c: Conn)
    requires c.Socket? && IsUInt32(|Flatten(c.queue)|)
    ensures Flatten(SentItems(SendOnce(c))) + Flatten(SendOnce(c).after.queue) == Flatten(c.queue)
  {
    var p := SendOnce(c);
    if |c.queue| > 0 {
      var b := TakeBatch(c.queue, |c.queue|);
      assert |b.data| <= |Flatten(c.queue)|;
      assert p.sent == Some(b.data);
      assert Flatten(SentItems(p)) == b.data;
    } else {
      assert SentItems(p) == [] && p.after.queue == c.queue;
    }
  }

  /** A producer/consumer schedule: an `add_to_send_queue` or one sender pass. */
  datatype Step = Put(data: Bytes) | Pump

  function PutData(steps: seq<Step>): (r: seq<Bytes>)
  {
    if |steps| == 0 then []
    else (if steps[0].Put? then [steps[0].data] else []) + PutData(steps[1..])
  }

  /** Runs a schedule, returning the final connection and the bodies sent. */
  function Run(c: Conn, steps: seq<Step>): (r: (Conn, seq<Bytes>))
    decreases |steps|
  {
    if |steps| == 0 then (c, [])
    else
      match steps[0]
      case Put(d) => Run(AddToSendQueue(c, d), steps[1..])
      case Pump =>
        var p := SendOnce(c);
        var (c', sent) := Run(p.after, steps[1..]);
        (c', SentItems(p) + sent)
  }

  /** Queue order is kept across batches: what has been sent followed by what
      is still queued is exactly what was put, in order, provided no batch is
      too long for its header. */
  lemma {:induction false} RunKeepsOrder(c: Conn, steps: seq<Step>)
    requires c.Socket?
    requires IsUInt32(|Flatten(c.queue + PutData(steps))|)
    ensures Run(c, steps).0.Socket?
    ensures Flatten(Run(c, steps).1) + Flatten(Run(c, steps).0.queue)
            == Flatten(c.queue + PutData(steps))
    decreases |steps|
  {
    if |steps| > 0 {
      var rest := steps[1..];
      match steps[0]
      case Put(d) =>
        var c1 := AddToSendQueue(c, d);
        assert PutData(steps) == [d] + PutData(rest);
        assert c.queue + PutData(steps) == c1.queue + PutData(rest);
        RunKeepsOrder(c1, rest);
      case Pump =>
        var p := SendOnce(c);
        assert PutData(steps) == PutData(rest);
        FlattenAppend(c.queue, PutData(rest));
        FlattenAppend(p.after.queue, PutData(rest));
        SendOnceKeepsOrder(c);
        RunKeepsOrder(p.after, rest);
        var (c', sent) := Run(p.after, rest);
        FlattenAppend(SentItems(p), sent);
    } else {
      assert c.queue + PutData(steps) == c.queue;
    }
  }

  /** What one pass of `_receive` does with the bytes `recv(HEADER_SIZE)`
      returned: an empty read means the peer closed and the connection is
      closed; a well-formed header names the body length to read and hand to
      the callback; a short header raises and is logged. */
  datatype Inbound = Stopped | PeerClosed(closing: Closing) | ReadBody(length: nat) | BadHeader

  function OnHeader(c: Conn, header: Bytes): (r: Inbound)
    ensures c.NoSocket? <==> r.Stopped?
    ensures c.Socket? && |header| == 0 ==> r.PeerClosed? && r.closing.after.NoSocket?
                                           && r.closing.effects == [CloseSocket(c.sock), PutSentinel]
    ensures c.Socket? && |header| > 0 ==> (r.ReadBody? <==> |header| == HEADER_SIZE)
  {
    if c.NoSocket? then Stopped
    else if |header| == 0 then PeerClosed(Close(c))
    else match ReadLength(header)
      case Some(n) => ReadBody(n)
      case None => BadHeader
  }

  /** The receiver, handed the header of a frame the sender built, reads
      exactly that frame's body. */
  lemma ReceiverReadsFrameBody(c: Conn, data: Bytes)
    requires c.Socket? && IsUInt32(|data|)
    ensures OnHeader(c, Frame(data).value[..HEADER_SIZE]) == ReadBody(|data|)
  {
    FrameLayout(data);
  }

  /** `_connect_to_peer`'s retry loop, given the outcome of each `connect`
      attempt (true for success): whether it connected, how many attempts it
      made, and the seconds it slept, in order. */
  method ConnectToPeer(outcomes: seq<bool>) returns (connected: bool, attempts: nat, sleeps: seq<nat>)
    requires |outcomes| >= CONNECT_ATTEMPTS
    ensures 1 <= attempts <= CONNECT_ATTEMPTS
    ensures connected <==> exists i :: 0 <= i < CONNECT_ATTEMPTS && outcomes[i]
    ensures forall i :: 0 <= i < attempts - 1 ==> !outcomes[i]
    ensures connected ==> outcomes[attempts - 1]
    ensures !connected ==> attempts == CONNECT_ATTEMPTS
    ensures |sleeps| == (if connected then attempts - 1 else attempts)
    ensures forall j :: 0 <= j < |sleeps| ==> sleeps[j] == j + 1
  {
    connected := false;
    attempts := 0;
    sleeps := [];
    var i := 0;
    while i < CONNECT_ATTEMPTS
      invariant 0 <= i <= CONNECT_ATTEMPTS
      invariant !connected && attempts == i
      invariant forall k :: 0 <= k < i ==> !outcomes[k]
      invariant |sleeps| == i
      invariant forall j :: 0 <= j < |sleeps| ==> sleeps[j] == j + 1
    {
      attempts := i + 1;
      if outcomes[i] {
        connected := true;
        break;
      }
      if i < CONNECT_ATTEMPTS {
        sleeps := sleeps + [i + 1];
      }
      i := i + 1;
    }
  }

  /** When every attempt fails the loop still sleeps after the last one,
      since its guard `i < CONNECT_ATTEMPTS` always holds: 1 + 2 + 3 seconds. */
  method AllAttemptsFail() returns (sleeps: seq<nat>)
    ensures sleeps == [1, 2, 3]
  {
    var connected, attempts;
    connected, attempts, sleeps := ConnectToPeer([false, false, false]);
  }

  /** The retry loop as evidently intended: the guard on the sleep skips the
      pause after the final attempt, so the loop sleeps only between attempts. */
  method ConnectToPeerIntended(outcomes: seq<bool>) returns (connected: bool, attempts: nat, sleeps: seq<nat>)
    requires |outcomes| >= CONNECT_ATTEMPTS
    ensures 1 <= attempts <= CONNECT_ATTEMPTS
    ensures connected <==> exists i :: 0 <= i < CONNECT_ATTEMPTS && outcomes[i]
    ensures forall i :: 0 <= i < attempts - 1 ==> !outcomes[i]
    ensures connected ==> outcomes[attempts - 1]
    ensures !connected ==> attempts == CONNECT_ATTEMPTS
    ensures |sleeps| == attempts - 1
    ensures forall j :: 0 <= j < |sleeps| ==> sleeps[j] == j + 1
  {
    connected := false;
    attempts := 0;
    sleeps := [];
    var i := 0;
    while i < CONNECT_ATTEMPTS
      invariant 0 <= i <= CONNECT_ATTEMPTS
      invariant !connected && attempts == i
      invariant forall k :: 0 <= k < i ==> !outcomes[k]
      invariant |sleeps| == (if i < CONNECT_ATTEMPTS then i else CONNECT_ATTEMPTS - 1)
      invariant forall j :: 0 <= j < |sleeps| ==> sleeps[j] == j + 1
    {
      attempts := i + 1;
      if outcomes[i] {
        connected := true;
        break;
      }
      if i < CONNECT_ATTEMPTS - 1 {
        sleeps := sleeps + [i + 1];
      }
      i := i + 1;
    }
  }

  /** With the intended guard, three failures cost 1 + 2 seconds of sleep. */
  method AllAttemptsFailIntended() returns (sleeps: seq<nat>)
    ensures sleeps == [1, 2]
  {
    var connected, attempts;
    connected, attempts, sleeps := ConnectToPeerIntended([false, false, false]);
  }

  /** `startup`'s choice of thread target. */
  datatype Target = Listen | Dial

  /** `startup`: with a socket already set it does nothing; otherwise it waits
      for a peer (the accepted socket is an input) or dials with the retry loop
      as written, sleeping after every failed attempt, and stays offline when
      every attempt fails. */
  method Startup(c: Conn, target: Target, accepted: SocketId, dialed: SocketId, outcomes: seq<bool>)
    returns (r: Conn, sleeps: seq<nat>)
    requires |outcomes| >= CONNECT_ATTEMPTS
    ensures c.Socket? ==> r == c && sleeps == []
    ensures c.NoSocket? && target == Listen ==> r == SetSocket(accepted) && sleeps == []
    ensures c.NoSocket? && target == Dial ==>
      (r.Socket? <==> exists i :: 0 <= i < CONNECT_ATTEMPTS && outcomes[i])
    ensures r.Socket? ==> r == c || r.queue == []
    ensures |sleeps| <= CONNECT_ATTEMPTS
    ensures forall j :: 0 <= j < |sleeps| ==> sleeps[j] == j + 1
    ensures c.NoSocket? && target == Dial && r.NoSocket? ==> sleeps == [1, 2, 3]
    ensures c.NoSocket? && target == Dial && r.Socket? ==>
      && r == SetSocket(dialed) && |sleeps| < CONNECT_ATTEMPTS
      && outcomes[|sleeps|] && forall j :: 0 <= j < |sleeps| ==> !outcomes[j]
  {
    if c.Socket? {
      return c, [];
    }
    match target {
      case Listen =>
        r, sleeps := SetSocket(accepted), [];
      case Dial =>
        var connected, attempts;
        connected, attempts, sleeps := ConnectToPeer(outcomes);
        r := if connected then SetSocket(dialed) else c;
    }
  }

  /** `startup` with the corrected retry loop: the same outcome as `Startup`,
      but a dial that fails throughout sleeps only between its attempts. */
  method StartupIntended(c: Conn, target: Target, accepted: SocketId, dialed: SocketId, outcomes: seq<bool>)
    returns (r: Conn, sleeps: seq<nat>)
    requires |outcomes| >= CONNECT_ATTEMPTS
    ensures c.Socket? ==> r == c && sleeps == []
    ensures c.NoSocket? && target == Listen ==> r == SetSocket(accepted) && sleeps == []
    ensures c.NoSocket? && target == Dial ==>
      (r.Socket? <==> exists i :: 0 <= i < CONNECT_ATTEMPTS && outcomes[i])
    ensures r.Socket? ==> r == c || r.queue == []
    ensures |sleeps| < CONNECT_ATTEMPTS
    ensures forall j :: 0 <= j < |sleeps| ==> sleeps[j] == j + 1
    ensures c.NoSocket? && target == Dial && r.NoSocket? ==> sleeps == [1, 2]
    ensures c.NoSocket? && target == Dial && r.Socket? ==>
      && r == SetSocket(dialed) && |sleeps| < CONNECT_ATTEMPTS
      && outcomes[|sleeps|] && forall j :: 0 <= j < |sleeps| ==> !outcomes[j]
  {
    if c.Socket? {
      return c, [];
    }
    match target {
      case Listen =>
        r, sleeps := SetSocket(accepted), [];
      case Dial =>
        var connected, attempts;
        connected, attempts, sleeps := ConnectToPeerIntended(outcomes);
        r := if connected then SetSocket(dialed) else c;
    }
  }
}
