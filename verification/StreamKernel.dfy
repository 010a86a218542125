/**
 * The kernel under a connected stream socket: the bytes a peer's send() accepted, cut into those
 * already read, those waiting in the receive queue and those still in flight.
 *
 * Everything the reader does not decide is written down in a script: one Choice for each time the
 * reader is inside select() or recv(). Every sequence of choices is legal, so a statement about all
 * scripts is a statement about every interleaving of sender, network and reader.
 */
module StreamKernel {
  import opened Basics

  datatype Stream = Stream(
    accepted: Bytes,
    consumed: Bytes,
    queued: Bytes,
    inFlight: Bytes,
    senderOpen: bool,
    finArrived: bool)

  /** What the sender and the network do on their own. */
  datatype Event =
    | Send(message: Bytes, taken: nat) // send() takes the first `taken` bytes of the message
    | Deliver(count: nat)              // the oldest `count` bytes in flight reach the queue
    | PeerClose                        // the sender closes its end
    | FinArrives                       // the end of the stream becomes visible to the reader

  /**
   * One stay in the kernel: the events that happen during it, the fragment size recv() would like
   * to return, and whether recv() fails.
   */
  datatype Choice = Choice(events: seq<Event>, fragment: nat, fails: bool)

  /** A kernel call, or a whole receive call, either returned or was still inside the kernel when the script ended. */
  datatype Outcome<+T> =
    | Returned(value: T, state: Stream, rest: seq<Choice>)
    | Waiting(state: Stream)

  /** The return value of recv() and the bytes it wrote. */
  datatype Chunk = Chunk(code: int, bytes: Bytes)

  predicate Conserved(s: Stream) {
    s.accepted == s.consumed + s.queued + s.inFlight
  }

  predicate Valid(s: Stream) {
    && Conserved(s)
    && (s.finArrived ==> !s.senderOpen && s.inFlight == [])
  }

  /** select() reports a descriptor readable for data and for end of stream alike. */
  predicate Readable(s: Stream) {
    s.queued != [] || s.finArrived
  }

  /** ::send() on the sender's end: the number of bytes it accepted, possibly not all, or -1 once that end is closed. */
  function SendBytes(s: Stream, message: Bytes, taken: nat): (Stream, int) {
    if !s.senderOpen then (s, -1) else
      var count := Min(taken, |message|);
      var piece := message[..count];
      (s.(accepted := s.accepted + piece, inFlight := s.inFlight + piece), count)
  }

  /** The count send() returns tells exactly which bytes joined the end of the stream. */
  lemma SendAccepts(s: Stream, message: Bytes, taken: nat)
    requires Valid(s)
    ensures var (t, count) := SendBytes(s, message, taken);
      && Valid(t) && t.consumed == s.consumed && t.queued == s.queued
      && -1 <= count <= |message| && (count == -1 <==> !s.senderOpen)
      && t.accepted == s.accepted + (if count == -1 then [] else message[..count])
      && t.inFlight == s.inFlight + (if count == -1 then [] else message[..count])
  {
    EventOnlyAppends(s, Send(message, taken));
  }

  function Apply(s: Stream, e: Event): Stream {
    match e
    case Send(message, taken) =>
      SendBytes(s, message, taken).0
    case Deliver(count) =>
      var k := Min(count, |s.inFlight|);
      s.(queued := s.queued + s.inFlight[..k], inFlight := s.inFlight[k..])
    case PeerClose =>
      s.(senderOpen := false)
    case FinArrives =>
      if s.senderOpen || s.inFlight != [] then s else s.(finArrived := true)
  }

  function ApplyAll(s: Stream, events: seq<Event>): Stream
    decreases |events|
  {
    if events == [] then s else ApplyAll(Apply(s, events[0]), events[1..])
  }

  /** The bytes read from the stream between two of its states. */
  function TakenBetween(s: Stream, t: Stream): Bytes {
    if |s.consumed| <= |t.consumed| then t.consumed[|s.consumed|..] else []
  }

  /**
   * The stream got from s to t while the reader took exactly the bytes `taken`: nothing is lost,
   * reordered or duplicated, and after the end of the stream nothing else changes.
   */
  ghost predicate Reads(s: Stream, t: Stream, taken: Bytes) {
    && Valid(t)
    && t.consumed == s.consumed + taken
    && s.accepted <= t.accepted
    && s.queued <= taken + t.queued
    && (s.finArrived ==> t == s.(consumed := s.consumed + taken, queued := t.queued) && s.queued == taken + t.queued)
  }

  ghost predicate Progress(s: Stream, t: Stream) {
    Reads(s, t, TakenBetween(s, t))
  }

  lemma ReadsIsProgress(s: Stream, t: Stream, taken: Bytes)
    requires Reads(s, t, taken)
    ensures Progress(s, t) && TakenBetween(s, t) == taken
  {
  }

  lemma ReadsCompose(s: Stream, t: Stream, u: Stream, a: Bytes, b: Bytes)
    requires Reads(s, t, a) && Reads(t, u, b)
    ensures Reads(s, u, a + b)
    ensures Progress(s, u) && TakenBetween(s, u) == a + b
  {
    assert s.consumed + (a + b) == (s.consumed + a) + b;
    assert a + (b + u.queued) == (a + b) + u.queued;
    var whole := a + (b + u.queued);
    assert a + t.queued <= whole;
  }

  lemma EventOnlyAppends(s: Stream, e: Event)
    requires Valid(s)
    ensures Reads(s, Apply(s, e), [])
  {
    match e
    case Send(message, taken) =>
      if s.senderOpen {
        var piece := message[..Min(taken, |message|)];
        assert s.consumed + s.queued + (s.inFlight + piece) == s.accepted + piece;
      }
    case Deliver(count) =>
      var k := Min(count, |s.inFlight|);
      assert s.inFlight[..k] + s.inFlight[k..] == s.inFlight;
      assert s.consumed + (s.queued + s.inFlight[..k]) + s.inFlight[k..] == s.accepted;
    case PeerClose =>
    case FinArrives =>
  }

  lemma {:induction false} EnvironmentOnlyAppends(s: Stream, events: seq<Event>)
    requires Valid(s)
    ensures Reads(s, ApplyAll(s, events), [])
    decreases |events|
  {
    if events != [] {
      var t := Apply(s, events[0]);
      EventOnlyAppends(s, events[0]);
      EnvironmentOnlyAppends(t, events[1..]);
      ReadsCompose(s, t, ApplyAll(t, events[1..]), [], []);
    }
  }

  /** select() on the socket: 1 when it is readable once the wait is over, 0 when it timed out. */
  function Poll(s: Stream, script: seq<Choice>): (r: Outcome<nat>)
    ensures r.Returned? <==> script != []
    ensures r.Returned? ==> r.rest == script[1..] && r.value <= 1
  {
    if script == [] then Waiting(s) else
      var t := ApplyAll(s, script[0].events);
      Returned(if Readable(t) then 1 else 0, t, script[1..])
  }

  function FragmentSize(wanted: nat, n: nat, available: nat): (k: nat)
    ensures k <= n && k <= available
    ensures n > 0 && available > 0 ==> k > 0
  {
    Min(if wanted < 1 then 1 else wanted, Min(n, available))
  }

  /** One look of recv() at the queue; None while there is neither data nor end of stream. */
  function TryRecv(s: Stream, n: nat, c: Choice): (r: (Stream, Option<Chunk>))
    ensures r.1.Some? ==> |r.1.value.bytes| <= n
    ensures r.1.Some? ==> r.1.value.code == |r.1.value.bytes| || (r.1.value.code == -1 && r.1.value.bytes == [])
  {
    if c.fails then
      (s, Some(Chunk(-1, [])))
    else if s.queued != [] then
      var k := FragmentSize(c.fragment, n, |s.queued|);
      (s.(consumed := s.consumed + s.queued[..k], queued := s.queued[k..]), Some(Chunk(k, s.queued[..k])))
    else if s.finArrived then
      (s, Some(Chunk(0, [])))
    else
      (s, None)
  }

  /** recv() for up to n bytes: blocks while there is nothing to report. */
  function Recv(s: Stream, n: nat, script: seq<Choice>): (r: Outcome<Chunk>)
    ensures r.Returned? ==> |r.rest| < |script| && |r.value.bytes| <= n
    ensures r.Returned? ==> r.value.code == |r.value.bytes| || (r.value.code == -1 && r.value.bytes == [])
    decreases |script|
  {
    if script == [] then Waiting(s) else
      var (t, receipt) := TryRecv(ApplyAll(s, script[0].events), n, script[0]);
      if receipt.Some? then Returned(receipt.value, t, script[1..]) else Recv(t, n, script[1..])
  }
}
