/** Datagrams over whole runs: where a send goes, and what the receives of one object return. */
module Messages {
  import opened Basics
  import SocketAddresses
  import opened SocketPaths
  import opened Hosts
  import opened Lifecycle
  import opened Programs
  import opened Descriptors
  import opened Outcomes
  import opened Routing

  /** A datagram from a Unix socket without a name. */
  function Unnamed(message: Bytes): Packet {
    Packet(SocketAddresses.ZERO_ADDRESS, message)
  }

  /**
   * A send to a path reaches an open descriptor exactly when the path's name leads to it, and then
   * adds one datagram to that inbox and nothing to any other. Paths that agree after truncation and
   * the cut at NUL, such as a bound path and the one bind() returned for it, are interchangeable.
   */
  lemma {:induction false} SendReachesExactly(k: Host, path: Bytes, other: Bytes, message: Bytes,
                                              socketOk: bool, ok: bool, h: int)
    requires Sound(k) && h in k.open
    ensures var (k1, result) := DatagramSend(k, path, message, socketOk, ok);
      var reaches := socketOk && ok && Leads(k, Name(path), h);
      && k1.open == k.open
      && (reaches ==> result == |message|)
      && Inbox(k1, h) == (if reaches then Inbox(k, h) + [Unnamed(message)] else Inbox(k, h))
      && (socketOk && Route(k, SunPath(path)) == None ==> result == -1)
    ensures Name(other) == Name(path) ==>
      DatagramSend(k, other, message, socketOk, ok) == DatagramSend(k, path, message, socketOk, ok)
    ensures DatagramSend(k, Truncate(path), message, socketOk, ok) == DatagramSend(k, path, message, socketOk, ok)
    ensures DatagramSend(k, path, message, false, ok) == (k, -2)
  {
    DatagramSendExactly(k, path, message, socketOk, ok);
    AddressOfTruncated(path);
    AddressOfTruncated(other);
    KernelSeesName(path);
    SamePathSameAddress(path, other);
  }

  /** What a receive of `length` bytes makes of a datagram: its first bytes and its sender; the rest is lost. */
  function FirstPart(packet: Packet, length: nat): Receipt {
    var m := Min(length, |packet.data|);
    Receipt(if m == 0 then None else Some(packet.data[..m]), m, packet.from)
  }

  lemma CutIsFirstPart(message: Bytes, length: nat)
    requires length > 0
    ensures var m := Min(length, |message|);
      var buffer := message[..m] + SocketAddresses.ZeroBytes(length - m);
      CutToReceived(buffer, m, length) == if m == 0 then None else Some(message[..m])
  {
    var m := Min(length, |message|);
    assert (message[..m] + SocketAddresses.ZeroBytes(length - m))[..m] == message[..m];
    if m == length {
      assert message[..m] + SocketAddresses.ZeroBytes(0) == message[..m];
    }
  }

  /** A receive that takes no datagram: -1 with the untouched buffer, a string of NULs as long as the request. */
  function NothingReceived(length: nat): Receipt {
    Receipt(if length == 0 then None else Some(SocketAddresses.ZeroBytes(length)), -1, SocketAddresses.ZERO_ADDRESS)
  }

  /**
   * One string receive, exactly. It takes a datagram when the object is bound, asks for at least one
   * byte, the kernel is willing and a datagram waits, and returns the first part of that datagram
   * and its sender. Otherwise it takes and returns nothing but NULs.
   */
  lemma ReceiveExactly(k: Host, fd: int, bound: bool, length: int, ok: bool)
    ensures var (k1, r) := ReceiveString(k, fd, bound, length, ok);
      if length < 0 then r == Failure(LengthError) && k1 == k
      else if bound && length > 0 && ok && fd in k.open && Inbox(k, fd) != []
      then r == Success(FirstPart(Inbox(k, fd)[0], length)) && k1 == k.(inbox := k.inbox[fd := Inbox(k, fd)[1..]])
      else r == Success(NothingReceived(length)) && k1 == k
  {
    if bound && length > 0 && ok && fd in k.open && Inbox(k, fd) != [] {
      CutIsFirstPart(Inbox(k, fd)[0].data, length);
    }
    if length >= 0 {
      assert [] + SocketAddresses.ZeroBytes(length) == SocketAddresses.ZeroBytes(length);
    }
  }

  /**
   * The same for a datagram IPC socket, exactly: it takes and loses what ReceiveExactly says, and names
   * its own path when it is bound and asked for at least one byte, and no path otherwise.
   */
  lemma DatagramReceiveExactly(k: Host, s: DatagramState, length: int, ok: bool)
    ensures var (k1, r) := DatagramReceive(k, s, length, ok);
      var takes := s.bound && length > 0 && ok && s.fd in k.open && Inbox(k, s.fd) != [];
      && k1 == (if takes then k.(inbox := k.inbox[s.fd := Inbox(k, s.fd)[1..]]) else k)
      && (length < 0 ==> r == Failure(LengthError))
      && (length == 0 || (length > 0 && !s.bound) ==> r == Success(NothingReceived(length).(from := [])))
      && (length > 0 && s.bound ==>
            match s.socketPath
            case None => r == Failure(BadOptionalAccess)
            case Some(path) =>
              r == Success((if takes then FirstPart(Inbox(k, s.fd)[0], length)
                            else NothingReceived(length)).(from := path)))
  {
    ReceiveExactly(k, s.fd, s.bound, length, ok);
  }

  // ---- Whole runs ---------------------------------------------------------------------------

  /** The datagrams one operation adds to the inbox of h. */
  function DeliveredBy(w: World, op: Op, h: int): seq<Packet> {
    match op
    case Arrive(h1, packet) => if h1 == h && h in w.host.open then [packet] else []
    case SendToPath(path, message, socketOk, ok) =>
      if path.Some? && socketOk && ok && Leads(w.host, Name(path.value), h) then [Unnamed(message)] else []
    case SendUdp(delivery, message, socketOk, ok) =>
      if delivery.Some? && socketOk && ok && delivery.value.h == h && h in w.host.open
      then [Packet(delivery.value.from, message)] else []
    case _ => []
  }

  function Deliveries(w: World, ops: seq<Op>, h: int): seq<Packet>
    decreases |ops|
  {
    if ops == [] then [] else DeliveredBy(w, ops[0], h) + Deliveries(Step(w, ops[0]).0, ops[1..], h)
  }

  /** A successful receive: how much it asked for and what it returned. */
  datatype Received = Received(length: nat, receipt: Receipt)

  function ReceivedBy(w: World, op: Op, i: nat): seq<Received> {
    if op.Receive? && op.i == i && op.length > 0 then
      match Step(w, op).1
      case Got(receipt) => if receipt.code >= 0 then [Received(op.length, receipt)] else []
      case _ => []
    else []
  }

  function Receipts(w: World, ops: seq<Op>, i: nat): seq<Received>
    decreases |ops|
  {
    if ops == [] then [] else ReceivedBy(w, ops[0], i) + Receipts(Step(w, ops[0]).0, ops[1..], i)
  }

  predicate OpenTo(s: Sock) {
    match s
    case Udp(u) => u.bound
    case Datagram(d) => d.bound
    case _ => false
  }

  ghost predicate Listening(w: World, i: nat) {
    i < |w.socks| && Consistent(w.socks[i]) && w.socks[i].Fd() != INVALID && OpenTo(w.socks[i])
  }

  /** Whom object s names as the sender of a datagram: a datagram IPC socket names its own path. */
  function Named(s: Sock, from: Bytes): Bytes {
    if !s.Datagram? then from else if s.datagram.socketPath.Some? then s.datagram.socketPath.value else []
  }

  /** What object s makes of a datagram. */
  function ReceiptFor(s: Sock, packet: Packet, length: nat): Receipt {
    FirstPart(packet, length).(from := Named(s, packet.from))
  }

  /** Each receipt is what object s makes of the datagram in its place. */
  ghost predicate InOrder(s: Sock, got: seq<Received>, stream: seq<Packet>) {
    |got| <= |stream| && forall j :: 0 <= j < |got| ==> got[j].receipt == ReceiptFor(s, stream[j], got[j].length)
  }

  /** The inbox grows by what the operation delivers and loses at most its oldest datagram, to a receive of object i. */
  ghost predicate InboxMoves(w: World, op: Op, i: nat)
    requires i < |w.socks|
  {
    var h := w.socks[i].Fd();
    var stream := Inbox(w.host, h) + DeliveredBy(w, op, h);
    var got := ReceivedBy(w, op, i);
    |got| <= 1 && InOrder(w.socks[i], got, stream) && Inbox(Step(w, op).0.host, h) == stream[|got|..]
  }

  /** ReceiveExactly for either kind of object. */
  lemma ReceiveSockExactly(k: Host, s: Sock, length: nat, ok: bool)
    requires (s.Udp? || s.Datagram?) && length > 0
    ensures var (k1, r) := ReceiveSock(k, s, length, ok); var h := s.Fd();
      var takes := OpenTo(s) && ok && h in k.open && Inbox(k, h) != [];
      && k1 == (if takes then k.(inbox := k.inbox[h := Inbox(k, h)[1..]]) else k)
      && (Consistent(s) ==>
            && r.Success?
            && (takes ==> r.value == ReceiptFor(s, Inbox(k, h)[0], length))
            && (!takes ==> r.value == NothingReceived(length).(from := Named(s, SocketAddresses.ZERO_ADDRESS))))
  {
    match s
    case Udp(u) => ReceiveExactly(k, u.fd, u.bound, length, ok);
    case Datagram(d) => DatagramReceiveExactly(k, d, length, ok);
  }

  lemma ReceiveMovesInbox(w: World, i: nat, j: nat, length: int, ok: bool)
    requires WellFormed(w) && Listening(w, i)
    ensures InboxMoves(w, Receive(j, length, ok), i)
  {
    var h := w.socks[i].Fd();
    assert Inbox(w.host, h) + [] == Inbox(w.host, h);
    if j < |w.socks| && (w.socks[j].Udp? || w.socks[j].Datagram?) {
      if 0 < length {
        ReceiveSockExactly(w.host, w.socks[j], length, ok);
        assert j != i ==> w.socks[j].Fd() != h;
      } else {
        assert ReceiveSock(w.host, w.socks[j], length, ok).0 == w.host;
      }
    }
  }

  lemma SendInbox(k: Host, path: Bytes, message: Bytes, socketOk: bool, ok: bool, h: int)
    requires Sound(k) && h in k.open
    ensures Inbox(DatagramSend(k, path, message, socketOk, ok).0, h) ==
      if socketOk && ok && Leads(k, Name(path), h) then Inbox(k, h) + [Unnamed(message)] else Inbox(k, h)
  {
    AddressOfTruncated(path);
  }

  lemma SendMovesInbox(w: World, i: nat, path: Bytes, message: Bytes, socketOk: bool, ok: bool)
    requires WellFormed(w) && Listening(w, i)
    ensures InboxMoves(w, SendToPath(Some(path), message, socketOk, ok), i)
  {
    var h := w.socks[i].Fd();
    assert Inbox(w.host, h) + [] == Inbox(w.host, h);
    SendInbox(w.host, path, message, socketOk, ok, h);
  }

  lemma UdpSendMovesInbox(w: World, i: nat, delivery: Option<Delivery>, message: Bytes, socketOk: bool, ok: bool)
    requires WellFormed(w) && Listening(w, i)
    ensures InboxMoves(w, SendUdp(delivery, message, socketOk, ok), i)
  {
    var h := w.socks[i].Fd();
    assert Inbox(w.host, h) + [] == Inbox(w.host, h);
  }

  lemma DatagramBindKeepsInbox(k: Host, s: DatagramState, override: bool, path: Option<Bytes>, a: Answers)
    ensures DatagramBind(k, s, override, path, a).host.inbox == k.inbox
  {
  }

  lemma ServeKeepsInbox(k: Host, path: Bytes, override: bool, a: Answers)
    ensures Serve(k, path, override, a).host.inbox == k.inbox
  {
    var p := Truncate(path);
    var (k1, h) := NewSocket(if override then RemovePath(k, p, a.overrideRemoveOk) else k, a.socketOk);
    assert BindPath(k1, h, SunPath(p), a.bindOk).0.inbox == k.inbox;
  }

  lemma OthersKeepInbox(w: World, op: Op)
    requires WellFormed(w) && !op.Receive? && !op.SendToPath? && !op.SendUdp? && !op.Arrive?
    ensures Step(w, op).0.host.inbox == w.host.inbox
  {
    match op
    case BindDatagram(i, override, path, a) =>
      if DatagramAt(w, i) { DatagramBindKeepsInbox(w.host, w.socks[i].datagram, override, path, a); }
    case MakeServer(path, override, a) => ServeKeepsInbox(w.host, path, override, a);
    case NewUdp =>
    case NewDatagram =>
    case BindUdp(_, _, _) =>
    case Close(_, _) =>
    case _ => ConnectKeepsNames(w, op);
  }

  lemma StepMovesInbox(w: World, op: Op, i: nat)
    requires WellFormed(w) && Listening(w, i)
    ensures InboxMoves(w, op, i)
  {
    var h := w.socks[i].Fd();
    assert Inbox(w.host, h) + [] == Inbox(w.host, h);
    if op.Receive? {
      ReceiveMovesInbox(w, i, op.i, op.length, op.ok);
    } else if op.SendToPath? {
      if op.path.Some? { SendMovesInbox(w, i, op.path.value, op.message, op.socketOk, op.ok); }
    } else if op.SendUdp? {
      UdpSendMovesInbox(w, i, op.delivery, op.message, op.socketOk, op.ok);
    } else if !op.Arrive? {
      OthersKeepInbox(w, op);
    }
  }

  lemma StepKeepsListening(w: World, op: Op, i: nat)
    requires WellFormed(w) && Listening(w, i) && !Touches(op, i)
    ensures var w1 := Step(w, op).0; WellFormed(w1) && Listening(w1, i) && w1.socks[i] == w.socks[i]
  {
    StepOrphans(w, op);
    StepRoutes(w, op, i, []);
  }

  /** Two stretches of a run after one another, as sequences. */
  lemma InOrderContinues(s: Sock, q: seq<Packet>, delivered: seq<Packet>, first: seq<Received>, q1: seq<Packet>,
                         later: seq<Packet>, rest: seq<Received>, q2: seq<Packet>)
    requires InOrder(s, first, q + delivered) && q1 == (q + delivered)[|first|..]
    requires InOrder(s, rest, q1 + later) && q2 == (q1 + later)[|rest|..]
    ensures var stream := q + (delivered + later);
      InOrder(s, first + rest, stream) && q2 == stream[|first + rest|..]
  {
    var stream := q + (delivered + later);
    assert stream == (q + delivered) + later;
    assert stream[|first|..] == q1 + later;
    assert forall j :: |first| <= j < |stream| ==> stream[j] == (q1 + later)[j - |first|];
  }

  /**
   * Message boundaries over every run: as long as an object is neither closed nor bound again, its
   * i-th successful receive returns the first part of the i-th datagram delivered to it, whatever
   * else the program does, and the datagrams not yet received wait in order.
   */
  lemma {:induction false} RunKeepsBoundaries(w: World, ops: seq<Op>, i: nat)
    requires WellFormed(w) && Listening(w, i)
    requires forall j :: 0 <= j < |ops| ==> !Touches(ops[j], i)
    ensures var h := w.socks[i].Fd();
      var stream := Inbox(w.host, h) + Deliveries(w, ops, h);
      var got := Receipts(w, ops, i);
      InOrder(w.socks[i], got, stream) && Inbox(RunOps(w, ops).host, h) == stream[|got|..]
    decreases |ops|
  {
    var h := w.socks[i].Fd();
    if ops == [] {
      assert Inbox(w.host, h) + [] == Inbox(w.host, h);
    } else {
      var w1 := Step(w, ops[0]).0;
      StepKeepsListening(w, ops[0], i);
      StepMovesInbox(w, ops[0], i);
      RunKeepsBoundaries(w1, ops[1..], i);
      InOrderContinues(w.socks[i], Inbox(w.host, h), DeliveredBy(w, ops[0], h), ReceivedBy(w, ops[0], i),
                       Inbox(w1.host, h), Deliveries(w1, ops[1..], h), Receipts(w1, ops[1..], i),
                       Inbox(RunOps(w1, ops[1..]).host, h));
    }
  }
}
