/**
 * Delimited messages over a stream: what comes out is what went in, and exactly when it comes out.
 */
module StreamFraming {
  import opened Basics
  import opened StreamKernel
  import opened StreamReader
  import opened StreamAccounting
  import opened StreamTheorems

  /** A sender's framing: every message followed by the delimiter. */
  function Frame(messages: seq<Bytes>, d: byte): Bytes {
    if messages == [] then [] else messages[0] + [d] + Frame(messages[1..], d)
  }

  ghost predicate FreeOf(messages: seq<Bytes>, d: byte) {
    forall i :: 0 <= i < |messages| ==> d !in messages[i]
  }

  function DelimiterCalls(k: nat, d: byte): seq<Call> {
    seq(k, _ => DelimiterCall(d))
  }

  lemma FirstDelimiter(a: Bytes, b: Bytes, d: byte, x: Bytes, y: Bytes)
    requires d !in a && d !in b && a + [d] + x == b + [d] + y
    ensures a == b && x == y
  {
    var l := a + [d] + x;
    var r := b + [d] + y;
    assert l[|a|] == d && r[|b|] == d;
    assert forall i :: 0 <= i < |a| ==> l[i] == a[i];
    assert forall i :: 0 <= i < |b| ==> r[i] == b[i];
    assert |a| == |b|;
    assert a == l[..|a|] && b == r[..|b|];
    assert x == l[|a| + 1..] && y == r[|b| + 1..];
  }

  lemma {:induction false} FrameUnique(a: seq<Bytes>, b: seq<Bytes>, d: byte, x: Bytes, y: Bytes)
    requires |a| == |b| && FreeOf(a, d) && FreeOf(b, d)
    requires Frame(a, d) + x == Frame(b, d) + y
    ensures a == b && x == y
    decreases |a|
  {
    if a != [] {
      assert Frame(a, d) + x == a[0] + [d] + (Frame(a[1..], d) + x);
      assert Frame(b, d) + y == b[0] + [d] + (Frame(b[1..], d) + y);
      FirstDelimiter(a[0], b[0], d, Frame(a[1..], d) + x, Frame(b[1..], d) + y);
      FrameUnique(a[1..], b[1..], d, x, y);
      assert a == [a[0]] + a[1..] && b == [b[0]] + b[1..];
    } else {
      assert x == Frame(a, d) + x;
    }
  }

  lemma StoppedOnDelimiter(value: Bytes, taken: Bytes, d: byte)
    requires taken == Through(taken, d) && value == Before(taken, d) && d in taken
    ensures taken == value + [d] && d !in value
  {
  }

  lemma {:induction false} TakenIsFrame(returned: seq<Bytes>, taken: seq<Bytes>, d: byte)
    requires |returned| == |taken|
    requires forall i :: 0 <= i < |taken| ==> taken[i] == returned[i] + [d]
    ensures Concat(taken) == Frame(returned, d)
    decreases |taken|
  {
    if taken != [] {
      TakenIsFrame(returned[1..], taken[1..], d);
    }
  }

  lemma DelimitedRunReadsFrames(s: Stream, d: byte, k: nat, script: seq<Choice>)
    requires Valid(s) && d != NUL
    requires var h := Run(s, DelimiterCalls(k, d), script);
      |h.taken| == k && forall i :: 0 <= i < k ==> d in h.taken[i]
    ensures var h := Run(s, DelimiterCalls(k, d), script);
      && |h.returned| == k && FreeOf(h.returned, d)
      && h.state.consumed == s.consumed + Frame(h.returned, d)
      && Conserved(h.state)
  {
    var h := Run(s, DelimiterCalls(k, d), script);
    RunConserves(s, DelimiterCalls(k, d), script);
    forall i | 0 <= i < k ensures h.taken[i] == h.returned[i] + [d] && d !in h.returned[i] {
      assert Explains(DelimiterCalls(k, d)[i], h.returned[i], h.taken[i]);
      StoppedOnDelimiter(h.returned[i], h.taken[i], d);
    }
    TakenIsFrame(h.returned, h.taken, d);
  }

  /**
   * Framing, safety half: whatever the interleaving, k calls that all stopped on the delimiter have
   * returned exactly the first k messages the sender framed, in order, and read nothing beyond them.
   */
  lemma {:induction false} FramesComeOutInOrder(s: Stream, d: byte, messages: seq<Bytes>, script: seq<Choice>)
    requires Valid(s) && d != NUL && FreeOf(messages, d)
    requires var h := Run(s, DelimiterCalls(|messages|, d), script);
      && |h.taken| == |messages|
      && (forall i :: 0 <= i < |h.taken| ==> d in h.taken[i])
      && s.consumed + Frame(messages, d) <= h.state.accepted
    ensures var h := Run(s, DelimiterCalls(|messages|, d), script);
      && h.returned == messages
      && h.state.consumed == s.consumed + Frame(messages, d)
  {
    DelimitedRunReadsFrames(s, d, |messages|, script);
    var h := Run(s, DelimiterCalls(|messages|, d), script);
    FramesAreForced(s.consumed, h.returned, h.state.queued, h.state.inFlight, messages, d, h.state.accepted);
  }

  lemma FramesAreForced(start: Bytes, returned: seq<Bytes>, queued: Bytes, inFlight: Bytes,
                        messages: seq<Bytes>, d: byte, accepted: Bytes)
    requires |returned| == |messages| && FreeOf(returned, d) && FreeOf(messages, d)
    requires accepted == start + Frame(returned, d) + queued + inFlight
    requires start + Frame(messages, d) <= accepted
    ensures returned == messages
  {
    var unread := queued + inFlight;
    assert accepted == start + Frame(returned, d) + unread;
    SamePlace(start, Frame(returned, d), unread, Frame(messages, d), accepted);
    FrameUnique(returned, messages, d, unread, accepted[|start + Frame(messages, d)|..]);
  }

  /** Two ways of cutting one sequence behind a common start. */
  lemma SamePlace(start: Bytes, a: Bytes, x: Bytes, b: Bytes, whole: Bytes)
    requires start + b <= whole && whole == start + a + x
    ensures a + x == b + whole[|start + b|..]
  {
    assert whole == start + (a + x);
    assert whole[|start|..] == a + x;
    assert whole == start + (b + whole[|start + b|..]);
  }

  // ---- The stream without its reader --------------------------------------------------------

  /** The stream after the events of the first j kernel calls, if nobody read from it. */
  function After(s: Stream, script: seq<Choice>, j: nat): Stream
    requires j <= |script|
    decreases j
  {
    if j == 0 then s else After(ApplyAll(s, script[0].events), script[1..], j - 1)
  }

  lemma {:induction false} AfterOnlyAppends(s: Stream, script: seq<Choice>, j: nat)
    requires Valid(s) && j <= |script|
    ensures Reads(s, After(s, script, j), [])
    decreases j
  {
    if j > 0 {
      var t := ApplyAll(s, script[0].events);
      EnvironmentOnlyAppends(s, script[0].events);
      AfterOnlyAppends(t, script[1..], j - 1);
      ReadsCompose(s, t, After(s, script, j), [], []);
    }
  }

  lemma {:induction false} AfterContinues(s: Stream, script: seq<Choice>, i: nat, j: nat)
    requires i + j <= |script|
    ensures After(s, script, i + j) == After(After(s, script, i), script[i..], j)
    decreases i
  {
    if i == 0 {
      assert script[0..] == script;
    } else {
      AfterContinues(ApplyAll(s, script[0].events), script[1..], i - 1, j);
      assert script[1..][i - 1..] == script[i..];
    }
  }

  /** Sender and network do not notice the reader: reading first and letting things happen first come to the same. */
  lemma DropThenApply(s: Stream, k: nat, e: Event)
    requires k <= |s.queued|
    ensures k <= |Apply(s, e).queued| && Apply(Drop(s, k), e) == Drop(Apply(s, e), k)
  {
    if e.Deliver? {
      var n := Min(e.count, |s.inFlight|);
      assert (s.queued + s.inFlight[..n])[..k] == s.queued[..k];
      assert (s.queued + s.inFlight[..n])[k..] == s.queued[k..] + s.inFlight[..n];
    }
  }

  lemma {:induction false} DropThenApplyAll(s: Stream, k: nat, events: seq<Event>)
    requires k <= |s.queued|
    ensures k <= |ApplyAll(s, events).queued| && ApplyAll(Drop(s, k), events) == Drop(ApplyAll(s, events), k)
    decreases |events|
  {
    if events != [] {
      DropThenApply(s, k, events[0]);
      DropThenApplyAll(Apply(s, events[0]), k, events[1..]);
    }
  }

  lemma {:induction false} DropThenAfter(s: Stream, k: nat, script: seq<Choice>, j: nat)
    requires k <= |s.queued| && j <= |script|
    ensures k <= |After(s, script, j).queued| && After(Drop(s, k), script, j) == Drop(After(s, script, j), k)
    decreases j
  {
    if j > 0 {
      DropThenApplyAll(s, k, script[0].events);
      DropThenAfter(ApplyAll(s, script[0].events), k, script[1..], j - 1);
    }
  }

  // ---- Keeping up with the reader -----------------------------------------------------------

  /** The poll and the recv() for byte i go well: more than i bytes have arrived by then, and recv() does not fail. */
  ghost predicate KeepsUpAt(s: Stream, i: nat, script: seq<Choice>)
    requires 2 * i + 2 <= |script|
  {
    i < |After(s, script, 2 * i + 1).queued| && !script[2 * i + 1].fails
  }

  /**
   * A delimited read polls and receives in turn, so its poll for byte i is kernel call 2i and its
   * recv() call 2i + 1. The network keeps up with n bytes when each of those polls comes back after
   * one byte more has arrived than was read before, and the recv() after it does not fail. This
   * speaks of sender, network and kernel only.
   */
  ghost predicate KeepsUp(s: Stream, n: nat, script: seq<Choice>) {
    2 * n <= |script| && forall i :: 0 <= i < n ==> KeepsUpAt(s, i, script)
  }

  lemma KeepsUpFewer(s: Stream, k: nat, n: nat, script: seq<Choice>)
    requires k <= n
    ensures KeepsUp(s, n, script) ==> KeepsUp(s, k, script)
  {
  }

  lemma KeepsUpMeansArrived(s: Stream, n: nat, script: seq<Choice>)
    requires Valid(s) && KeepsUp(s, n, script)
    ensures n <= |After(s, script, 2 * n).queued|
  {
    if n > 0 {
      var t := After(s, script, 2 * (n - 1) + 1);
      assert KeepsUpAt(s, n - 1, script);
      AfterOnlyAppends(s, script, 2 * (n - 1) + 1);
      AfterContinues(s, script, 2 * n - 1, 1);
      AfterOnlyAppends(t, script[2 * n - 1..], 1);
    }
  }

  /** The stream and the script once n bytes were kept up with and read. */
  function ReadOff(s: Stream, n: nat, script: seq<Choice>): Stream
    requires 2 * n <= |script| && n <= |After(s, script, 2 * n).queued|
  {
    Drop(After(s, script, 2 * n), n)
  }

  lemma ReadOffContinues(s: Stream, n: nat, script: seq<Choice>, j: nat)
    requires Valid(s) && 2 * n + j <= |script| && n <= |After(s, script, 2 * n).queued|
    ensures n <= |After(s, script, 2 * n + j).queued|
    ensures After(ReadOff(s, n, script), script[2 * n..], j) == Drop(After(s, script, 2 * n + j), n)
  {
    AfterContinues(s, script, 2 * n, j);
    DropThenAfter(After(s, script, 2 * n), n, script[2 * n..], j);
  }

  lemma SameChoice(script: seq<Choice>, n: nat, i: nat)
    requires 2 * (n + i) + 2 <= |script|
    ensures script[2 * n..][2 * i + 1] == script[2 * (n + i) + 1]
  {
  }

  lemma ArrivedShifts(s: Stream, n: nat, j: nat, script: seq<Choice>)
    requires Valid(s) && 2 * n + j <= |script| && n <= |After(s, script, 2 * n).queued|
    ensures |After(ReadOff(s, n, script), script[2 * n..], j).queued| == |After(s, script, 2 * n + j).queued| - n
  {
    ReadOffContinues(s, n, script, j);
  }

  lemma KeepsUpAtShifts(s: Stream, n: nat, i: nat, script: seq<Choice>)
    requires Valid(s) && 2 * (n + i) + 2 <= |script| && n <= |After(s, script, 2 * n).queued|
    ensures KeepsUpAt(ReadOff(s, n, script), i, script[2 * n..]) <==> KeepsUpAt(s, n + i, script)
  {
    SameChoice(script, n, i);
    ArrivedShifts(s, n, 2 * i + 1, script);
    assert 2 * n + (2 * i + 1) == 2 * (n + i) + 1;
  }

  /** Keeping up with n + k bytes is keeping up with n, and with k more after those are read. */
  lemma KeepsUpSplits(s: Stream, n: nat, k: nat, script: seq<Choice>)
    requires Valid(s) && KeepsUp(s, n, script) && n <= |After(s, script, 2 * n).queued|
    ensures KeepsUp(s, n + k, script) <==> KeepsUp(ReadOff(s, n, script), k, script[2 * n..])
  {
    var t, later := ReadOff(s, n, script), script[2 * n..];
    if 2 * (n + k) <= |script| {
      forall i | 0 <= i < k
        ensures KeepsUpAt(t, i, later) <==> KeepsUpAt(s, n + i, script)
      {
        KeepsUpAtShifts(s, n, i, script);
      }
      if KeepsUp(t, k, later) {
        forall i | n <= i < n + k
          ensures KeepsUpAt(s, i, script)
        {
          assert KeepsUpAt(t, i - n, later);
        }
      }
      if KeepsUp(s, n + k, script) {
        forall i | 0 <= i < k
          ensures KeepsUpAt(t, i, later)
        {
          assert KeepsUpAt(s, n + i, script);
        }
      }
    }
  }

  // ---- One read -----------------------------------------------------------------------------

  /** receiveToDelimiter with some bytes collected, just before it polls. */
  function ReadOn(s: Stream, d: byte, data: Bytes, script: seq<Choice>): Outcome<Bytes> {
    match Poll(s, script)
    case Waiting(s1) => Waiting(s1)
    case Returned(ready, s1, rest) =>
      if ready > 0 then DelimiterLoop(s1, d, data, rest) else Returned(data, s1, rest)
  }

  /** A read that returned because it found its delimiter. */
  ghost predicate Stops(s: Stream, d: byte, r: Outcome<Bytes>) {
    r.Returned? && d in TakenBetween(s, r.state)
  }

  lemma ReadOnReads(s: Stream, d: byte, data: Bytes, script: seq<Choice>)
    requires Valid(s)
    ensures Progress(s, ReadOn(s, d, data, script).state)
  {
    PollFacts(s, script);
    var p := Poll(s, script);
    ReadsIsProgress(s, p.state, []);
    if p.Returned? && p.value > 0 {
      DelimiterLoopReads(p.state, d, data, p.rest);
      ProgressCompose(s, p.state, DelimiterLoop(p.state, d, data, p.rest).state);
    }
  }

  /** The poll of a round that is kept up with sees the byte. */
  lemma PollKeptUp(s: Stream, script: seq<Choice>)
    requires Valid(s) && KeepsUp(s, 1, script)
    ensures var e := After(s, script, 1);
      && Valid(e) && e.queued != [] && Reads(s, e, [])
      && Poll(s, script) == Returned(1, e, script[1..]) && !script[1].fails
  {
    assert KeepsUpAt(s, 0, script);
    AfterOnlyAppends(s, script, 1);
  }

  lemma RecvFirstByte(e: Stream, script: seq<Choice>)
    requires Valid(e) && e.queued != [] && script != [] && !script[0].fails
    ensures var f := After(e, script, 1);
      && f.queued != []
      && Recv(e, 1, script) == Returned(Chunk(1, [f.queued[0]]), Drop(f, 1), script[1..])
  {
    AfterOnlyAppends(e, script, 1);
    var f := After(e, script, 1);
    assert f.queued[..1] == [f.queued[0]];
  }

  lemma DropReads(s: Stream, n: nat)
    requires Valid(s) && n <= |s.queued|
    ensures Reads(s, Drop(s, n), s.queued[..n])
  {
    assert s.queued[..n] + s.queued[n..] == s.queued;
    assert s.consumed + s.queued[..n] + s.queued[n..] == s.consumed + s.queued;
  }

  /** Reading off n bytes takes the n oldest bytes of the queue. */
  lemma ReadOffTakes(s: Stream, n: nat, script: seq<Choice>)
    requires Valid(s) && 2 * n <= |script| && n <= |After(s, script, 2 * n).queued|
    ensures var t := ReadOff(s, n, script);
      Valid(t) && Progress(s, t) && TakenBetween(s, t) == After(s, script, 2 * n).queued[..n]
  {
    var f := After(s, script, 2 * n);
    AfterOnlyAppends(s, script, 2 * n);
    DropReads(f, n);
    ReadsCompose(s, f, Drop(f, n), [], f.queued[..n]);
    assert [] + f.queued[..n] == f.queued[..n];
  }

  /** The recv() of a round takes the oldest byte, and the stream is as if that byte had been read off at the end. */
  lemma ReceiveKeptUp(s: Stream, script: seq<Choice>)
    requires Valid(s) && KeepsUp(s, 1, script)
    ensures 1 <= |After(s, script, 2).queued|
    ensures var f := After(s, script, 2); var t := ReadOff(s, 1, script);
      && Recv(After(s, script, 1), 1, script[1..]) == Returned(Chunk(1, [f.queued[0]]), t, script[2..])
      && Valid(t) && Progress(s, t) && TakenBetween(s, t) == [f.queued[0]]
  {
    PollKeptUp(s, script);
    KeepsUpMeansArrived(s, 1, script);
    AfterContinues(s, script, 1, 1);
    RecvFirstByte(After(s, script, 1), script[1..]);
    ReadOffTakes(s, 1, script);
    var q := After(s, script, 2).queued;
    assert q[..1] == [q[0]];
  }

  /** A round that is kept up with: it ends the read on the delimiter, or adds its byte and goes on. */
  lemma RoundKeptUp(s: Stream, d: byte, data: Bytes, script: seq<Choice>)
    requires Valid(s) && KeepsUp(s, 1, script)
    ensures 1 <= |After(s, script, 2).queued|
    ensures var c := After(s, script, 2).queued[0]; var t := ReadOff(s, 1, script);
      ReadOn(s, d, data, script) ==
        if c == d then Returned(data, t, script[2..]) else ReadOn(t, d, data + [c], script[2..])
  {
    PollKeptUp(s, script);
    ReceiveKeptUp(s, script);
    OneByte(After(s, script, 1), script[1..]);
  }

  lemma NothingTaken(s: Stream, d: byte, data: Bytes, script: seq<Choice>)
    requires Valid(s) && (Drained(s) || script == [] || script[0].fails)
    ensures Reads(s, DelimiterLoop(s, d, data, script).state, [])
  {
    OneByte(s, script);
    if script != [] {
      EnvironmentOnlyAppends(s, script[0].events);
    }
  }

  /** A round that is not kept up with ends the read, or the script, before any further byte is taken. */
  lemma RoundNotKeptUp(s: Stream, d: byte, data: Bytes, script: seq<Choice>)
    requires Valid(s) && !KeepsUp(s, 1, script)
    ensures TakenBetween(s, ReadOn(s, d, data, script).state) == []
  {
    PollFacts(s, script);
    var p := Poll(s, script);
    if p.Returned? && p.value > 0 {
      assert p.state == After(s, script, 1);
      if |script| >= 2 {
        assert !KeepsUpAt(s, 0, script);
      }
      NothingTaken(p.state, d, data, p.rest);
      ReadsCompose(s, p.state, DelimiterLoop(p.state, d, data, p.rest).state, [], []);
    }
  }

  /** The next bytes of the stream, as far as the sender's accepted bytes at the end of the script tell. */
  ghost predicate NextBytes(s: Stream, x: Bytes, script: seq<Choice>) {
    s.consumed + x <= After(s, script, |script|).accepted
  }

  lemma PrefixAt(consumed: Bytes, queued: Bytes, rest: Bytes, x: Bytes, whole: Bytes, n: nat)
    requires n <= |queued| && n <= |x| && consumed + queued + rest <= whole && consumed + x <= whole
    ensures queued[..n] == x[..n] && consumed + queued[..n] + x[n..] == consumed + x
  {
    var c := |consumed|;
    assert forall i :: 0 <= i < n ==> queued[i] == whole[c + i] == x[i];
    assert consumed + (x[..n] + x[n..]) == consumed + x[..n] + x[n..];
    assert x[..n] + x[n..] == x;
  }

  lemma AcceptedGrows(s: Stream, script: seq<Choice>, j: nat)
    requires Valid(s) && j <= |script|
    ensures var t := After(s, script, j);
      Valid(t) && t.consumed == s.consumed && t.accepted <= After(s, script, |script|).accepted
  {
    AfterOnlyAppends(s, script, j);
    AfterContinues(s, script, j, |script| - j);
    AfterOnlyAppends(After(s, script, j), script[j..], |script| - j);
  }

  lemma ArrivedAreNext(s: Stream, n: nat, x: Bytes, script: seq<Choice>, j: nat)
    requires Valid(s) && NextBytes(s, x, script) && n <= |x|
    requires j <= |script| && n <= |After(s, script, j).queued|
    ensures var q := After(s, script, j).queued; q[..n] == x[..n] && s.consumed + q[..n] + x[n..] == s.consumed + x
  {
    var t := After(s, script, j);
    AcceptedGrows(s, script, j);
    PrefixAt(s.consumed, t.queued, t.inFlight, x, After(s, script, |script|).accepted, n);
  }

  lemma NextBytesMove(s: Stream, n: nat, x: Bytes, script: seq<Choice>)
    requires Valid(s) && NextBytes(s, x, script) && n <= |x|
    requires 2 * n <= |script| && n <= |After(s, script, 2 * n).queued|
    ensures After(s, script, 2 * n).queued[..n] == x[..n]
    ensures NextBytes(ReadOff(s, n, script), x[n..], script[2 * n..])
  {
    var j := 2 * n;
    ArrivedAreNext(s, n, x, script, j);
    AcceptedGrows(s, script, j);
    ReadOffContinues(s, n, script, |script| - j);
  }

  /** The first byte of a message that is kept up with, and the same read after it. */
  lemma MessageRound(s: Stream, d: byte, data: Bytes, m: Bytes, script: seq<Choice>)
    requires Valid(s) && d !in m && NextBytes(s, m + [d], script) && KeepsUp(s, 1, script)
    ensures 1 <= |After(s, script, 2).queued|
    ensures var t, later := ReadOff(s, 1, script), script[2..]; var r := ReadOn(s, d, data, script);
      && Valid(t)
      && (m == [] ==> r == Returned(data, t, later))
      && (m != [] ==>
            && r == ReadOn(t, d, data + [m[0]], later)
            && NextBytes(t, m[1..] + [d], later)
            && (Stops(s, d, r) <==> Stops(t, d, r)))
  {
    ReceiveKeptUp(s, script);
    RoundKeptUp(s, d, data, script);
    NextBytesMove(s, 1, m + [d], script);
    var t, later, c := ReadOff(s, 1, script), script[2..], After(s, script, 2).queued[0];
    assert After(s, script, 2).queued[..1] == [c] == (m + [d])[..1];
    assert c == (m + [d])[0];
    if m != [] {
      assert (m + [d])[1..] == m[1..] + [d];
      ReadOnReads(t, d, data + [c], later);
      ProgressCompose(s, t, ReadOn(s, d, data, script).state);
    }
  }

  lemma {:induction false} ReadOnKeptUp(s: Stream, d: byte, data: Bytes, m: Bytes, script: seq<Choice>)
    requires Valid(s) && d !in m && NextBytes(s, m + [d], script) && KeepsUp(s, |m| + 1, script)
    ensures var n := |m| + 1;
      && n <= |After(s, script, 2 * n).queued|
      && ReadOn(s, d, data, script) == Returned(data + m, ReadOff(s, n, script), script[2 * n..])
    decreases |m|
  {
    KeepsUpFewer(s, 1, |m| + 1, script);
    MessageRound(s, d, data, m, script);
    if m == [] {
      assert data + m == data;
    } else {
      ReadOffTwice(s, 1, |m|, script);
      ReadOnKeptUp(ReadOff(s, 1, script), d, data + [m[0]], m[1..], script[2..]);
      assert |m[1..]| + 1 == |m|;
      assert data + [m[0]] + m[1..] == data + m;
    }
  }

  lemma {:induction false} ReadOnNotKeptUp(s: Stream, d: byte, data: Bytes, m: Bytes, script: seq<Choice>)
    requires Valid(s) && d !in m && NextBytes(s, m + [d], script) && !KeepsUp(s, |m| + 1, script)
    ensures !Stops(s, d, ReadOn(s, d, data, script))
    decreases |m|
  {
    if !KeepsUp(s, 1, script) {
      RoundNotKeptUp(s, d, data, script);
    } else {
      MessageRound(s, d, data, m, script);
      KeepsUpSplits(s, 1, |m|, script);
      if m != [] {
        ReadOnNotKeptUp(ReadOff(s, 1, script), d, data + [m[0]], m[1..], script[2..]);
      }
    }
  }

  /**
   * One read of a message, exactly. If the network keeps up with the message and its delimiter, the
   * read returns the message and leaves the stream as if those bytes had been read off in the end;
   * if it does not, the read does not stop on the delimiter.
   */
  lemma ReadOnMessage(s: Stream, d: byte, data: Bytes, m: Bytes, script: seq<Choice>)
    requires Valid(s) && d !in m && NextBytes(s, m + [d], script)
    ensures var r := ReadOn(s, d, data, script); var n := |m| + 1;
      if KeepsUp(s, n, script)
      then n <= |After(s, script, 2 * n).queued| && r == Returned(data + m, ReadOff(s, n, script), script[2 * n..])
      else !Stops(s, d, r)
  {
    if KeepsUp(s, |m| + 1, script) {
      ReadOnKeptUp(s, d, data, m, script);
    } else {
      ReadOnNotKeptUp(s, d, data, m, script);
    }
  }

  lemma ReadOffTwice(s: Stream, n: nat, k: nat, script: seq<Choice>)
    requires Valid(s) && KeepsUp(s, n, script) && n <= |After(s, script, 2 * n).queued|
    requires KeepsUp(s, n + k, script)
    ensures var t := ReadOff(s, n, script); var later := script[2 * n..];
      && KeepsUp(t, k, later)
      && k <= |After(t, later, 2 * k).queued| && n + k <= |After(s, script, 2 * (n + k)).queued|
      && ReadOff(t, k, later) == ReadOff(s, n + k, script) && later[2 * k..] == script[2 * (n + k)..]
  {
    KeepsUpSplits(s, n, k, script);
    KeepsUpMeansArrived(s, n + k, script);
    AfterOnlyAppends(s, script, 2 * n);
    KeepsUpMeansArrived(ReadOff(s, n, script), k, script[2 * n..]);
    ReadOffContinues(s, n, script, 2 * k);
    assert 2 * n + 2 * k == 2 * (n + k);
    DropTwice(After(s, script, 2 * (n + k)), n, k);
  }

  // ---- Many reads ---------------------------------------------------------------------------

  /** There were k reads and every one of them stopped on the delimiter. */
  ghost predicate AllStopped(taken: seq<Bytes>, k: nat, d: byte) {
    |taken| == k && forall i :: 0 <= i < k ==> d in taken[i]
  }

  lemma AllStoppedSplits(first: Bytes, rest: seq<Bytes>, k: nat, d: byte)
    ensures AllStopped([first] + rest, k + 1, d) <==> d in first && AllStopped(rest, k, d)
  {
    var all := [first] + rest;
    if AllStopped(all, k + 1, d) {
      assert d in all[0];
      assert forall i :: 0 <= i < k ==> rest[i] == all[i + 1];
    }
  }

  /** The run of k reads, in terms of its first read. */
  lemma RunOneMore(s: Stream, d: byte, k: nat, script: seq<Choice>)
    requires d != NUL && k > 0
    ensures var r := ReadTo(s, d, script); var h := Run(s, DelimiterCalls(k, d), script);
      if r.Waiting? then h.taken == [] else
        var later := Run(r.state, DelimiterCalls(k - 1, d), r.rest);
        h == later.(returned := [r.value] + later.returned, taken := [TakenBetween(s, r.state)] + later.taken)
  {
    assert DelimiterCalls(k, d)[1..] == DelimiterCalls(k - 1, d);
  }

  lemma AllStoppedOneMore(s: Stream, d: byte, k: nat, script: seq<Choice>)
    requires d != NUL && k > 0
    ensures var r := ReadTo(s, d, script);
      AllStopped(Run(s, DelimiterCalls(k, d), script).taken, k, d) <==>
        Stops(s, d, r) && AllStopped(Run(r.state, DelimiterCalls(k - 1, d), r.rest).taken, k - 1, d)
  {
    RunOneMore(s, d, k, script);
    var r := ReadTo(s, d, script);
    if r.Returned? {
      AllStoppedSplits(TakenBetween(s, r.state), Run(r.state, DelimiterCalls(k - 1, d), r.rest).taken, k - 1, d);
    }
  }

  lemma NextBytesFewer(s: Stream, x: Bytes, y: Bytes, script: seq<Choice>)
    requires NextBytes(s, x + y, script)
    ensures NextBytes(s, x, script)
  {
    assert s.consumed + (x + y) == s.consumed + x + y;
  }

  /** Reading off a message takes the message and its delimiter, and what is framed after it comes next. */
  lemma ReadOffFrame(s: Stream, d: byte, m: Bytes, others: Bytes, script: seq<Choice>)
    requires Valid(s) && NextBytes(s, m + [d] + others, script)
    requires var n := |m| + 1; 2 * n <= |script| && n <= |After(s, script, 2 * n).queued|
    ensures var n := |m| + 1; var t := ReadOff(s, n, script);
      Valid(t) && TakenBetween(s, t) == m + [d] && NextBytes(t, others, script[2 * n..])
  {
    var n, frames := |m| + 1, m + [d] + others;
    assert frames[..n] == m + [d] && frames[n..] == others;
    NextBytesMove(s, n, frames, script);
    ReadOffTakes(s, n, script);
  }

  /** The first message of a run: its read, and the same question for the reads after it. */
  lemma FirstFrame(s: Stream, d: byte, messages: seq<Bytes>, script: seq<Choice>)
    requires Valid(s) && d != NUL && FreeOf(messages, d) && messages != []
    requires NextBytes(s, Frame(messages, d), script)
    ensures var r := ReadTo(s, d, script); var n := |messages[0]| + 1;
      if KeepsUp(s, n, script)
      then
        && n <= |After(s, script, 2 * n).queued|
        && r == Returned(messages[0], ReadOff(s, n, script), script[2 * n..])
        && Valid(r.state) && Stops(s, d, r)
        && NextBytes(r.state, Frame(messages[1..], d), r.rest)
      else !Stops(s, d, r)
  {
    var m, n := messages[0], |messages[0]| + 1;
    NextBytesFewer(s, m + [d], Frame(messages[1..], d), script);
    ReadOnMessage(s, d, [], m, script);
    assert [] + m == m;
    if KeepsUp(s, n, script) {
      ReadOffFrame(s, d, m, Frame(messages[1..], d), script);
      assert d in m + [d];
    }
  }

  /** Keeping up with all frames is keeping up with the first, and then with the others. */
  lemma FramesKeptUp(s: Stream, d: byte, messages: seq<Bytes>, script: seq<Choice>)
    requires Valid(s) && messages != []
    ensures var n := |messages[0]| + 1;
      if KeepsUp(s, n, script)
      then
        && n <= |After(s, script, 2 * n).queued|
        && (KeepsUp(s, |Frame(messages, d)|, script) <==>
              KeepsUp(ReadOff(s, n, script), |Frame(messages[1..], d)|, script[2 * n..]))
      else !KeepsUp(s, |Frame(messages, d)|, script)
  {
    var n, k := |messages[0]| + 1, |Frame(messages[1..], d)|;
    assert |Frame(messages, d)| == n + k;
    KeepsUpFewer(s, n, n + k, script);
    if KeepsUp(s, n, script) {
      KeepsUpMeansArrived(s, n, script);
      KeepsUpSplits(s, n, k, script);
    }
  }

  /** Both sides of the equivalence below, less the first message. */
  lemma StoppedOneMore(s: Stream, d: byte, messages: seq<Bytes>, script: seq<Choice>)
    requires Valid(s) && d != NUL && FreeOf(messages, d) && messages != []
    requires NextBytes(s, Frame(messages, d), script)
    ensures var n, k := |messages[0]| + 1, |Frame(messages[1..], d)|;
      var all := AllStopped(Run(s, DelimiterCalls(|messages|, d), script).taken, |messages|, d);
      if KeepsUp(s, n, script)
      then
        && n <= |After(s, script, 2 * n).queued|
        && var t, later := ReadOff(s, n, script), script[2 * n..];
           && Valid(t) && NextBytes(t, Frame(messages[1..], d), later)
           && (all <==> AllStopped(Run(t, DelimiterCalls(|messages[1..]|, d), later).taken, |messages[1..]|, d))
           && (KeepsUp(s, |Frame(messages, d)|, script) <==> KeepsUp(t, k, later))
      else !all && !KeepsUp(s, |Frame(messages, d)|, script)
  {
    FirstFrame(s, d, messages, script);
    AllStoppedOneMore(s, d, |messages|, script);
    FramesKeptUp(s, d, messages, script);
  }

  /** All reads stop on the delimiter exactly when the network keeps up with all frames. */
  lemma {:induction false} StoppedExactly(s: Stream, d: byte, messages: seq<Bytes>, script: seq<Choice>)
    requires Valid(s) && d != NUL && FreeOf(messages, d)
    requires NextBytes(s, Frame(messages, d), script)
    ensures AllStopped(Run(s, DelimiterCalls(|messages|, d), script).taken, |messages|, d)
      <==> KeepsUp(s, |Frame(messages, d)|, script)
    decreases |messages|
  {
    if messages != [] {
      var n := |messages[0]| + 1;
      StoppedOneMore(s, d, messages, script);
      if KeepsUp(s, n, script) {
        StoppedExactly(ReadOff(s, n, script), d, messages[1..], script[2 * n..]);
      }
    }
  }

  /** The first message when the network kept up with all frames. */
  lemma FirstFrameOfAll(s: Stream, d: byte, messages: seq<Bytes>, script: seq<Choice>)
    requires Valid(s) && d != NUL && FreeOf(messages, d) && messages != []
    requires NextBytes(s, Frame(messages, d), script) && KeepsUp(s, |Frame(messages, d)|, script)
    ensures var n := |messages[0]| + 1;
      && KeepsUp(s, n, script) && n <= |After(s, script, 2 * n).queued|
      && var t, later := ReadOff(s, n, script), script[2 * n..];
         && Valid(t) && NextBytes(t, Frame(messages[1..], d), later)
         && KeepsUp(t, |Frame(messages[1..], d)|, later)
         && Run(s, DelimiterCalls(|messages|, d), script).state ==
            Run(t, DelimiterCalls(|messages[1..]|, d), later).state
  {
    FramesKeptUp(s, d, messages, script);
    FirstFrame(s, d, messages, script);
    RunOneMore(s, d, |messages|, script);
  }

  /** What the reads leave behind when the network kept up with all frames. */
  lemma {:induction false} KeptUpState(s: Stream, d: byte, messages: seq<Bytes>, script: seq<Choice>)
    requires Valid(s) && d != NUL && FreeOf(messages, d)
    requires NextBytes(s, Frame(messages, d), script) && KeepsUp(s, |Frame(messages, d)|, script)
    ensures |Frame(messages, d)| <= |After(s, script, 2 * |Frame(messages, d)|).queued|
    ensures Run(s, DelimiterCalls(|messages|, d), script).state == ReadOff(s, |Frame(messages, d)|, script)
    decreases |messages|
  {
    if messages == [] {
      assert Drop(s, 0) == s;
    } else {
      var n, k := |messages[0]| + 1, |Frame(messages[1..], d)|;
      assert |Frame(messages, d)| == n + k;
      FirstFrameOfAll(s, d, messages, script);
      KeptUpState(ReadOff(s, n, script), d, messages[1..], script[2 * n..]);
      ReadOffTwice(s, n, k, script);
    }
  }

  /**
   * Framing, liveness half, exactly. Whatever arrives when, also piece by piece in the middle of a
   * read: one receiveToDelimiter per framed message all stop on the delimiter if and only if the
   * network keeps up with the frames. They have then returned exactly the messages, and the stream
   * is what sender and network made of it less the frames.
   */
  lemma {:induction false} FramingWithArrivals(s: Stream, d: byte, messages: seq<Bytes>, script: seq<Choice>)
    requires Valid(s) && d != NUL && FreeOf(messages, d)
    requires NextBytes(s, Frame(messages, d), script)
    ensures var h, n := Run(s, DelimiterCalls(|messages|, d), script), |Frame(messages, d)|;
      && (AllStopped(h.taken, |messages|, d) <==> KeepsUp(s, n, script))
      && (KeepsUp(s, n, script) ==>
            && h.returned == messages
            && h.state.consumed == s.consumed + Frame(messages, d)
            && n <= |After(s, script, 2 * n).queued|
            && h.state == Drop(After(s, script, 2 * n), n))
  {
    StoppedExactly(s, d, messages, script);
    if KeepsUp(s, |Frame(messages, d)|, script) {
      KeptUpState(s, d, messages, script);
      FramesAccepted(s, Frame(messages, d), script);
      FramesComeOutInOrder(s, d, messages, script);
    }
  }

  lemma FramesAccepted(s: Stream, x: Bytes, script: seq<Choice>)
    requires Valid(s) && NextBytes(s, x, script) && 2 * |x| <= |script| && |x| <= |After(s, script, 2 * |x|).queued|
    ensures s.consumed + x <= After(s, script, 2 * |x|).accepted
  {
    var j := 2 * |x|;
    ArrivedAreNext(s, |x|, x, script, j);
    AcceptedGrows(s, script, j);
    var t := After(s, script, j);
    assert x[..|x|] == x && t.queued == x + t.queued[|x|..];
    assert t.accepted == s.consumed + x + (t.queued[|x|..] + t.inFlight);
  }

  lemma QueuedIsKeptUp(s: Stream, n: nat, script: seq<Choice>)
    requires Valid(s) && NoFailures(script) && n <= |s.queued| && 2 * n <= |script|
    ensures KeepsUp(s, n, script)
  {
    forall i | 0 <= i < n ensures KeepsUpAt(s, i, script) {
      AfterOnlyAppends(s, script, 2 * i + 1);
    }
  }

  lemma QueuedIsNext(s: Stream, x: Bytes, script: seq<Choice>)
    requires Valid(s) && x <= s.queued
    ensures NextBytes(s, x, script)
  {
    AfterOnlyAppends(s, script, |script|);
    assert s.consumed + s.queued <= s.accepted;
    assert (s.consumed + s.queued)[..|s.consumed + x|] == s.consumed + x;
  }

  /**
   * Framing round trip: once the frames are queued, one receiveToDelimiter per message returns
   * exactly the messages, whatever else happens meanwhile, and every byte after the last delimiter
   * stays unread.
   */
  lemma {:induction false} FramingRoundTrip(s: Stream, d: byte, messages: seq<Bytes>, script: seq<Choice>)
    requires Valid(s) && d != NUL && FreeOf(messages, d) && Frame(messages, d) <= s.queued
    requires NoFailures(script) && |script| >= 2 * |Frame(messages, d)|
    ensures var h := Run(s, DelimiterCalls(|messages|, d), script);
      && h.returned == messages
      && h.state.consumed == s.consumed + Frame(messages, d)
      && s.queued[|Frame(messages, d)|..] <= h.state.queued
  {
    var n := |Frame(messages, d)|;
    QueuedIsKeptUp(s, n, script);
    QueuedIsNext(s, Frame(messages, d), script);
    FramingWithArrivals(s, d, messages, script);
    AfterOnlyAppends(s, script, 2 * n);
  }

  // ---- One read, on any stream --------------------------------------------------------------

  /** The n-th byte of the stream is the delimiter, and the network keeps up to there. */
  ghost predicate DelimiterReached(s: Stream, n: nat, d: byte, script: seq<Choice>) {
    && n > 0 && KeepsUp(s, n, script)
    && n <= |After(s, script, 2 * n).queued| && After(s, script, 2 * n).queued[n - 1] == d
  }

  lemma DelimiterReachedShifts(s: Stream, n: nat, d: byte, script: seq<Choice>)
    requires Valid(s) && n > 0 && KeepsUp(s, 1, script) && 1 <= |After(s, script, 2).queued|
    ensures DelimiterReached(s, n + 1, d, script) <==> DelimiterReached(ReadOff(s, 1, script), n, d, script[2..])
  {
    KeepsUpSplits(s, 1, n, script);
    if KeepsUp(s, n + 1, script) {
      ReadOffContinues(s, 1, script, 2 * n);
      assert 2 * 1 + 2 * n == 2 * (n + 1);
    }
  }

  /**
   * One read on any stream, exactly: receiveToDelimiter stops on its delimiter if and only if the
   * network keeps up until a delimiter, recv() failures and the end of the stream included.
   */
  lemma {:induction false} ReadStopsExactly(s: Stream, d: byte, data: Bytes, script: seq<Choice>)
    requires Valid(s)
    ensures Stops(s, d, ReadOn(s, d, data, script)) <==> exists n: nat :: DelimiterReached(s, n, d, script)
    ensures ReadOn(s, d, [], script) == ReadTo(s, d, script)
    decreases |script|
  {
    var r := ReadOn(s, d, data, script);
    if !KeepsUp(s, 1, script) {
      RoundNotKeptUp(s, d, data, script);
      forall n: nat ensures !DelimiterReached(s, n, d, script) {
        if n > 0 { KeepsUpFewer(s, 1, n, script); }
      }
    } else {
      ReceiveKeptUp(s, script);
      RoundKeptUp(s, d, data, script);
      var t, later, c := ReadOff(s, 1, script), script[2..], After(s, script, 2).queued[0];
      if c == d {
        assert DelimiterReached(s, 1, d, script);
      } else {
        ReadStopsExactly(t, d, data + [c], later);
        ReadOnReads(t, d, data + [c], later);
        ProgressCompose(s, t, r.state);
        forall n: nat | n > 0 ensures DelimiterReached(s, n + 1, d, script) <==> DelimiterReached(t, n, d, later) {
          DelimiterReachedShifts(s, n, d, script);
        }
        if n: nat :| DelimiterReached(s, n, d, script) {
          assert n != 1;
          assert DelimiterReached(t, n - 1, d, later);
        }
        if n: nat :| DelimiterReached(t, n, d, later) {
          assert DelimiterReached(s, n + 1, d, script);
        }
      }
    }
  }

  // ---- A message in pieces ------------------------------------------------------------------

  /** The peer sends one byte, and it arrives. */
  function Piece(b: byte): Choice {
    Choice([Send([b], 1), Deliver(1)], 1, false)
  }

  const QUIET := Choice([], 1, false)

  lemma TwoEvents(s: Stream, b: byte)
    requires s.senderOpen && s.inFlight == []
    ensures ApplyAll(s, [Send([b], 1), Deliver(1)]) == s.(accepted := s.accepted + [b], queued := s.queued + [b])
  {
    var t := Apply(s, Send([b], 1));
    assert [b][..1] == [b] && [] + [b] == [b];
    assert t == s.(accepted := s.accepted + [b], inFlight := [b]);
    assert [Send([b], 1), Deliver(1)][1..] == [Deliver(1)];
    assert ApplyAll(t, [Deliver(1)]) == ApplyAll(Apply(t, Deliver(1)), []);
    assert [b][..1] == [b] && [b][1..] == [];
  }

  lemma PiecesArrive(s: Stream, c: byte, d: byte)
    requires Valid(s) && s.queued == [] && s.inFlight == [] && s.senderOpen
    ensures var script := [Piece(c), QUIET, Piece(d), QUIET];
      && After(s, script, 1).queued == [c] && After(s, script, 3).queued == [c, d]
      && After(s, script, 4).accepted == s.consumed + ([c] + [d])
  {
    var script := [Piece(c), QUIET, Piece(d), QUIET];
    var s1 := s.(accepted := s.accepted + [c], queued := [c]);
    var s2 := s1.(accepted := s1.accepted + [d], queued := [c, d]);
    TwoEvents(s, c);
    TwoEvents(s1, d);
    AfterContinues(s, script, 1, 1);
    AfterContinues(s, script, 2, 1);
    AfterContinues(s, script, 3, 1);
    assert script[1..][0] == QUIET && script[2..][0] == Piece(d) && script[3..][0] == QUIET;
    assert After(s, script, 1) == s1 == After(s, script, 2);
    assert After(s, script, 3) == s2 == After(s, script, 4);
  }

  /** A message that arrives in two pieces during its own read, nothing being there before, is kept up with. */
  lemma PiecesDuringTheRead(s: Stream, c: byte, d: byte)
    requires Valid(s) && s.queued == [] && s.inFlight == [] && s.senderOpen && c != d && d != NUL
    ensures var script := [Piece(c), QUIET, Piece(d), QUIET];
      && Poll(s, script).state.queued == [c]
      && KeepsUp(s, 2, script)
      && ReadTo(s, d, script).Returned? && ReadTo(s, d, script).value == [c]
  {
    var script := [Piece(c), QUIET, Piece(d), QUIET];
    PiecesArrive(s, c, d);
    assert KeepsUpAt(s, 0, script) && KeepsUpAt(s, 1, script);
    ReadOnMessage(s, d, [], [c], script);
    assert [] + [c] == [c];
  }
}
