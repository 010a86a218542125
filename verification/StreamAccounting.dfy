/**
 * What every receive call does to the stream, under every script: which bytes it takes, which it
 * hands over, when it may come back short and how long it can stay in the kernel.
 */
module StreamAccounting {
  import opened Basics
  import opened StreamKernel
  import opened StreamReader

  ghost predicate NoFailures(script: seq<Choice>) {
    forall i :: 0 <= i < |script| ==> !script[i].fails
  }

  /** How many choices of the script make a recv() fail. */
  function Failures(script: seq<Choice>): nat {
    if script == [] then 0 else (if script[0].fails then 1 else 0) + Failures(script[1..])
  }

  lemma PollFacts(s: Stream, script: seq<Choice>)
    requires Valid(s)
    ensures var r := Poll(s, script);
      && Reads(s, r.state, [])
      && (r.Returned? ==> r.value <= 1 && (r.value > 0 <==> Readable(r.state)))
  {
    if script != [] {
      EnvironmentOnlyAppends(s, script[0].events);
    }
  }

  /** The stream after k bytes were read off its queue. */
  function Drop(s: Stream, k: nat): Stream
    requires k <= |s.queued|
  {
    s.(consumed := s.consumed + s.queued[..k], queued := s.queued[k..])
  }

  lemma CutTwice(q: Bytes, k: nat, j: nat)
    requires k + j <= |q|
    ensures q[..k] + q[k..][..j] == q[..k + j] && q[k..][j..] == q[k + j..]
  {
  }

  lemma DropTwice(s: Stream, k: nat, j: nat)
    requires k <= |s.queued| && j <= |s.queued| - k
    ensures Drop(Drop(s, k), j) == Drop(s, k + j)
  {
    CutTwice(s.queued, k, j);
    assert s.consumed + s.queued[..k] + s.queued[k..][..j] == s.consumed + (s.queued[..k] + s.queued[k..][..j]);
  }

  function BytesOf(r: Outcome<Chunk>): Bytes {
    if r.Returned? then r.value.bytes else []
  }

  lemma TryRecvReads(s: Stream, n: nat, c: Choice)
    requires Valid(s)
    ensures var (t, receipt) := TryRecv(s, n, c);
      Reads(s, t, if receipt.Some? then receipt.value.bytes else [])
  {
  }

  lemma {:induction false} RecvReads(s: Stream, n: nat, script: seq<Choice>)
    requires Valid(s)
    ensures var r := Recv(s, n, script); Reads(s, r.state, BytesOf(r))
    decreases |script|
  {
    if script != [] {
      var t := ApplyAll(s, script[0].events);
      EnvironmentOnlyAppends(s, script[0].events);
      TryRecvReads(t, n, script[0]);
      var (u, receipt) := TryRecv(t, n, script[0]);
      var r := Recv(s, n, script);
      if receipt.None? {
        ReadsCompose(s, t, u, [], []);
        RecvReads(u, n, script[1..]);
        ReadsCompose(s, u, r.state, [], BytesOf(r));
      } else {
        ReadsCompose(s, t, u, [], receipt.value.bytes);
      }
    }
  }

  /** The stream has ended and everything has been read. */
  predicate Drained(s: Stream) {
    s.finArrived && s.queued == []
  }

  /** recv() after a poll that saw something does not block, and takes a byte if there is one. */
  lemma RecvWhenReadable(s: Stream, n: nat, script: seq<Choice>)
    requires Valid(s) && n > 0 && Readable(s) && script != []
    ensures var r := Recv(s, n, script); r.Returned? && r.rest == script[1..]
    ensures s.queued != [] && !script[0].fails ==> Recv(s, n, script).value.code >= 1
    ensures Recv(s, n, script).value.code < 1 && !script[0].fails ==> Drained(Recv(s, n, script).state)
  {
    EnvironmentOnlyAppends(s, script[0].events);
  }

  lemma {:induction false} RecvWithoutFailure(s: Stream, n: nat, script: seq<Choice>)
    requires Valid(s) && n > 0 && NoFailures(script)
    ensures var r := Recv(s, n, script);
      r.Returned? ==> NoFailures(r.rest) && (r.value.code < 1 ==> r.state.finArrived && r.state.queued == [])
    decreases |script|
  {
    if script != [] {
      var t := ApplyAll(s, script[0].events);
      EnvironmentOnlyAppends(s, script[0].events);
      if TryRecv(t, n, script[0]).1.None? {
        RecvWithoutFailure(t, n, script[1..]);
      }
    }
  }

  /** One round of the loops: a recv() that brought something, then a poll. */
  lemma ReceiveThenPoll(s: Stream, n: nat, script: seq<Choice>)
    requires Valid(s) && Recv(s, n, script).Returned?
    ensures var r := Recv(s, n, script); var p := Poll(r.state, r.rest);
      && Valid(p.state)
      && Progress(s, p.state)
      && TakenBetween(s, p.state) == r.value.bytes
      && (p.Returned? ==> p.value <= 1 && (p.value > 0 <==> Readable(p.state)))
  {
    var r := Recv(s, n, script);
    RecvReads(s, n, script);
    PollFacts(r.state, r.rest);
    ReadsCompose(s, r.state, Poll(r.state, r.rest).state, r.value.bytes, []);
    assert r.value.bytes + [] == r.value.bytes;
  }

  lemma ProgressCompose(s: Stream, t: Stream, u: Stream)
    requires Progress(s, t) && Progress(t, u)
    ensures Progress(s, u) && TakenBetween(s, u) == TakenBetween(s, t) + TakenBetween(t, u)
  {
    ReadsCompose(s, t, u, TakenBetween(s, t), TakenBetween(t, u));
  }

  lemma {:induction false} AmountLoopReads(s: Stream, n: nat, got: Bytes, script: seq<Choice>)
    requires Valid(s) && |got| < n
    ensures var r := AmountLoop(s, n, got, script);
      && Progress(s, r.state)
      && |got + TakenBetween(s, r.state)| <= n
      && (r.Returned? ==> r.value == got + TakenBetween(s, r.state))
    decreases |script|
  {
    var want := n - |got|;
    RecvReads(s, want, script);
    var first := Recv(s, want, script);
    var bytes := BytesOf(first);
    ReadsIsProgress(s, first.state, bytes);
    if first.Returned? && first.value.code >= 1 && |got + bytes| < n {
      ReceiveThenPoll(s, want, script);
      var poll := Poll(first.state, first.rest);
      if poll.Returned? && poll.value > 0 {
        AmountLoopReads(poll.state, n, got + bytes, poll.rest);
        ProgressCompose(s, poll.state, AmountLoop(poll.state, n, got + bytes, poll.rest).state);
      }
    }
  }

  lemma {:induction false} AmountLoopShort(s: Stream, n: nat, got: Bytes, script: seq<Choice>)
    requires Valid(s) && |got| < n && NoFailures(script)
    ensures var r := AmountLoop(s, n, got, script);
      r.Returned? ==> NoFailures(r.rest) && (|r.value| < n ==> r.state.queued == [])
    decreases |script|
  {
    var want := n - |got|;
    RecvWithoutFailure(s, want, script);
    var first := Recv(s, want, script);
    if first.Returned? && first.value.code >= 1 && |got + first.value.bytes| < n {
      ReceiveThenPoll(s, want, script);
      var poll := Poll(first.state, first.rest);
      if poll.Returned? && poll.value > 0 {
        AmountLoopShort(poll.state, n, got + first.value.bytes, poll.rest);
      }
    }
  }

  lemma {:induction false} AmountLoopBound(s: Stream, n: nat, got: Bytes, script: seq<Choice>)
    requires Valid(s) && |got| < n && Readable(s)
    ensures var r := AmountLoop(s, n, got, script); r.Waiting? ==> |script| <= 2 * |TakenBetween(s, r.state)|
    decreases |script|
  {
    if script != [] {
      var want := n - |got|;
      RecvWhenReadable(s, want, script);
      var first := Recv(s, want, script);
      if first.value.code >= 1 && |got + first.value.bytes| < n {
        ReceiveThenPoll(s, want, script);
        var poll := Poll(first.state, first.rest);
        if poll.Returned? && poll.value > 0 {
          var more := got + first.value.bytes;
          AmountLoopBound(poll.state, n, more, poll.rest);
          AmountLoopReads(poll.state, n, more, poll.rest);
          ProgressCompose(s, poll.state, AmountLoop(poll.state, n, more, poll.rest).state);
        }
      }
    }
  }

  /** A one-byte receiveAmount is a single recv(). */
  lemma OneByte(s: Stream, script: seq<Choice>)
    ensures Amount(s, 1, script) ==
      match Recv(s, 1, script)
      case Waiting(t) => Waiting(t)
      case Returned(receipt, t, rest) => Returned(receipt.bytes, t, rest)
  {
    var r := Recv(s, 1, script);
    if r.Returned? {
      assert [] + r.value.bytes == r.value.bytes;
    }
  }

  lemma SplitStep(c: byte, x: Bytes, d: byte)
    ensures c != d ==> Before([c] + x, d) == [c] + Before(x, d) && Through([c] + x, d) == [c] + Through(x, d)
    ensures c == d ==> Before([c], d) == [] && Through([c], d) == [c]
  {
    assert ([c] + x)[1..] == x;
  }

  lemma {:induction false} DelimiterLoopReads(s: Stream, d: byte, data: Bytes, script: seq<Choice>)
    requires Valid(s)
    ensures Progress(s, DelimiterLoop(s, d, data, script).state)
    decreases |script|
  {
    OneByte(s, script);
    RecvReads(s, 1, script);
    var first := Recv(s, 1, script);
    ReadsIsProgress(s, first.state, BytesOf(first));
    if first.Returned? && first.value.bytes != [] && first.value.bytes[0] != d {
      ReceiveThenPoll(s, 1, script);
      var poll := Poll(first.state, first.rest);
      if poll.Returned? && poll.value > 0 {
        var more := data + [first.value.bytes[0]];
        DelimiterLoopReads(poll.state, d, more, poll.rest);
        ProgressCompose(s, poll.state, DelimiterLoop(poll.state, d, more, poll.rest).state);
      }
    }
  }

  /** What the loop hands over is what it took, less the delimiter it stopped on. */
  ghost predicate Splits(r: Outcome<Bytes>, d: byte, data: Bytes, taken: Bytes) {
    && taken == Through(taken, d)
    && (r.Returned? ==> r.value == data + Before(taken, d))
  }

  lemma SplitsNow(r: Outcome<Bytes>, d: byte, data: Bytes, taken: Bytes)
    requires |taken| <= 1
    requires r.Returned? ==> r.value == data + (if taken == [d] then [] else taken)
    ensures Splits(r, d, data, taken)
  {
    if taken != [] {
      assert taken == [taken[0]] + [];
      SplitStep(taken[0], [], d);
    }
  }

  lemma SplitsOneMore(r: Outcome<Bytes>, d: byte, data: Bytes, c: byte, more: Bytes)
    requires c != d && Splits(r, d, data + [c], more)
    ensures Splits(r, d, data, [c] + more)
  {
    SplitStep(c, more, d);
    assert data + [c] + Before(more, d) == data + ([c] + Before(more, d));
  }

  lemma {:induction false} DelimiterLoopSplits(s: Stream, d: byte, data: Bytes, script: seq<Choice>)
    requires Valid(s)
    ensures var r := DelimiterLoop(s, d, data, script); Splits(r, d, data, TakenBetween(s, r.state))
    decreases |script|
  {
    OneByte(s, script);
    RecvReads(s, 1, script);
    var first := Recv(s, 1, script);
    var r := DelimiterLoop(s, d, data, script);
    var bytes := BytesOf(first);
    ReadsIsProgress(s, first.state, bytes);
    assert data + [] == data;
    if bytes == [] || bytes[0] == d {
      SplitsNow(r, d, data, bytes);
    } else {
      var c := bytes[0];
      assert bytes == [c];
      ReceiveThenPoll(s, 1, script);
      var poll := Poll(first.state, first.rest);
      if poll.Returned? && poll.value > 0 {
        DelimiterLoopSplits(poll.state, d, data + [c], poll.rest);
        DelimiterLoopReads(poll.state, d, data + [c], poll.rest);
        ProgressCompose(s, poll.state, r.state);
        SplitsOneMore(r, d, data, c, TakenBetween(poll.state, r.state));
      } else {
        SplitsNow(r, d, data, bytes);
      }
    }
  }

  lemma {:induction false} DelimiterLoopBound(s: Stream, d: byte, data: Bytes, script: seq<Choice>)
    requires Valid(s) && Readable(s)
    ensures var r := DelimiterLoop(s, d, data, script);
      r.Waiting? ==> |script| <= 2 * |TakenBetween(s, r.state)| && d !in TakenBetween(s, r.state)
    decreases |script|
  {
    OneByte(s, script);
    if script != [] {
      RecvWhenReadable(s, 1, script);
      var first := Recv(s, 1, script);
      if first.value.bytes != [] && first.value.bytes[0] != d {
        var more := data + [first.value.bytes[0]];
        ReceiveThenPoll(s, 1, script);
        var poll := Poll(first.state, first.rest);
        if poll.Returned? && poll.value > 0 {
          DelimiterLoopBound(poll.state, d, more, poll.rest);
          DelimiterLoopReads(poll.state, d, more, poll.rest);
          ProgressCompose(s, poll.state, DelimiterLoop(poll.state, d, more, poll.rest).state);
        }
      }
    }
  }

  lemma {:induction false} DelimiterLoopShort(s: Stream, d: byte, data: Bytes, script: seq<Choice>)
    requires Valid(s) && NoFailures(script)
    ensures var r := DelimiterLoop(s, d, data, script);
      r.Returned? ==> NoFailures(r.rest) && (d !in TakenBetween(s, r.state) ==> r.state.queued == [])
    decreases |script|
  {
    OneByte(s, script);
    RecvReads(s, 1, script);
    RecvWithoutFailure(s, 1, script);
    var first := Recv(s, 1, script);
    if first.Returned? && first.value.bytes != [] && first.value.bytes[0] != d {
      var more := data + [first.value.bytes[0]];
      ReceiveThenPoll(s, 1, script);
      var poll := Poll(first.state, first.rest);
      if poll.Returned? && poll.value > 0 {
        DelimiterLoopShort(poll.state, d, more, poll.rest);
        DelimiterLoopReads(poll.state, d, more, poll.rest);
        ProgressCompose(s, poll.state, DelimiterLoop(poll.state, d, more, poll.rest).state);
      }
    }
  }

  /** Where a round of receiveAll reads: both polls saw the same bytes, so the size it reads is 1. */
  function SecondPoll(s: Stream, script: seq<Choice>): Outcome<nat> {
    match Poll(s, script)
    case Waiting(t) => Waiting(t)
    case Returned(_, t, rest) => Poll(t, rest)
  }

  lemma SecondPollCountsOne(s: Stream, script: seq<Choice>)
    requires Valid(s)
    ensures var first := Poll(s, script); var second := SecondPoll(s, script);
      && Reads(s, second.state, [])
      && (first.Returned? && first.value > 0 && second.Returned? ==> second.value == 1 && Readable(second.state))
  {
    PollFacts(s, script);
    var first := Poll(s, script);
    if first.Returned? {
      PollFacts(first.state, first.rest);
      ReadsCompose(s, first.state, SecondPoll(s, script).state, [], []);
    }
  }

  /** What a round of receiveAll does after its two polls. */
  lemma ReceiveAfterPolls(s: Stream, script: seq<Choice>)
    requires Valid(s)
    requires Poll(s, script).Returned? && Poll(s, script).value > 0 && SecondPoll(s, script).Returned?
    ensures var polled := SecondPoll(s, script); var r := Recv(polled.state, 1, polled.rest);
      && polled.rest == script[2..]
      && Valid(r.state)
      && Progress(s, r.state)
      && TakenBetween(s, r.state) == BytesOf(r)
      && (|script| > 2 ==> r.Returned? && r.rest == script[3..])
  {
    SecondPollCountsOne(s, script);
    var polled := SecondPoll(s, script);
    RecvReads(polled.state, 1, polled.rest);
    var r := Recv(polled.state, 1, polled.rest);
    ReadsCompose(s, polled.state, r.state, [], BytesOf(r));
    assert [] + BytesOf(r) == BytesOf(r);
    if |script| > 2 {
      RecvWhenReadable(polled.state, 1, polled.rest);
    }
  }

  /** The loop of receiveAll, one round at a time. */
  lemma AllRound(s: Stream, result: Bytes, script: seq<Choice>)
    requires Valid(s) && |script| > 2 && Poll(s, script).value > 0
    ensures var polled := SecondPoll(s, script); var r := Recv(polled.state, 1, polled.rest);
      && r.Returned? && |r.rest| < |script|
      && AllLoop(s, result, false, script) ==
        if r.value.bytes == [NUL] then AllLoop(r.state, result, true, r.rest)
        else AllLoop(r.state, result + r.value.bytes, false, r.rest)
  {
    SecondPollCountsOne(s, script);
    ReceiveAfterPolls(s, script);
    var polled := SecondPoll(s, script);
    OneByte(polled.state, polled.rest);
  }

  /** A round the script does not reach the end of. */
  lemma AllPartialRound(s: Stream, result: Bytes, script: seq<Choice>)
    requires Valid(s) && |script| <= 2
    requires script != [] ==> Poll(s, script).value > 0
    ensures var r := AllLoop(s, result, false, script); r.Waiting? && Reads(s, r.state, [])
  {
    PollFacts(s, script);
    SecondPollCountsOne(s, script);
    if |script| == 2 {
      var polled := SecondPoll(s, script);
      OneByte(polled.state, polled.rest);
    }
  }

  lemma AllLoopEnds(s: Stream, result: Bytes, hitEOF: bool, script: seq<Choice>)
    requires Valid(s) && script != []
    requires hitEOF || Poll(s, script).value == 0
    ensures var r := AllLoop(s, result, hitEOF, script);
      && r.Returned? && r.value == result && r.rest == script[1..]
      && r.state == Poll(s, script).state && Reads(s, r.state, [])
  {
    PollFacts(s, script);
  }

  lemma {:induction false} AllLoopReads(s: Stream, result: Bytes, script: seq<Choice>)
    requires Valid(s)
    ensures Progress(s, AllLoop(s, result, false, script).state)
    decreases |script|
  {
    if script != [] && Poll(s, script).value == 0 {
      AllLoopEnds(s, result, false, script);
    } else if |script| <= 2 {
      AllPartialRound(s, result, script);
    } else {
      AllRound(s, result, script);
      ReceiveAfterPolls(s, script);
      var polled := SecondPoll(s, script);
      var r := Recv(polled.state, 1, polled.rest);
      if r.value.bytes != [NUL] {
        AllLoopReads(r.state, result + r.value.bytes, r.rest);
        ProgressCompose(s, r.state, AllLoop(r.state, result + r.value.bytes, false, r.rest).state);
      } else if r.rest != [] {
        AllLoopEnds(r.state, result, true, r.rest);
        ReadsIsProgress(r.state, AllLoop(r.state, result, true, r.rest).state, []);
        ProgressCompose(s, r.state, AllLoop(r.state, result, true, r.rest).state);
      }
    }
  }

  lemma {:induction false} AllLoopSplits(s: Stream, result: Bytes, script: seq<Choice>)
    requires Valid(s)
    ensures var r := AllLoop(s, result, false, script); Splits(r, NUL, result, TakenBetween(s, r.state))
    decreases |script|
  {
    var all := AllLoop(s, result, false, script);
    if script != [] && Poll(s, script).value == 0 {
      AllLoopEnds(s, result, false, script);
    } else if |script| <= 2 {
      AllPartialRound(s, result, script);
    } else {
      AllRound(s, result, script);
      ReceiveAfterPolls(s, script);
      var polled := SecondPoll(s, script);
      var r := Recv(polled.state, 1, polled.rest);
      if r.value.bytes == [NUL] {
        AllAfterNul(s, r.state, result, r.rest);
      } else {
        AllLoopReads(r.state, result + r.value.bytes, r.rest);
        AllLoopSplits(r.state, result + r.value.bytes, r.rest);
        ProgressCompose(s, r.state, all.state);
        SplitsAfter(all, result, r.value.bytes, TakenBetween(r.state, all.state));
      }
    }
  }

  lemma AllAfterNul(s: Stream, t: Stream, result: Bytes, script: seq<Choice>)
    requires Valid(t) && Progress(s, t) && TakenBetween(s, t) == [NUL]
    ensures var r := AllLoop(t, result, true, script);
      && TakenBetween(s, r.state) == [NUL]
      && Splits(r, NUL, result, [NUL])
      && (r.Waiting? <==> script == [])
  {
    SplitStep(NUL, [], NUL);
    if script != [] {
      AllLoopEnds(t, result, true, script);
      ReadsIsProgress(t, AllLoop(t, result, true, script).state, []);
      ProgressCompose(s, t, AllLoop(t, result, true, script).state);
    }
  }

  lemma SplitsAfter(r: Outcome<Bytes>, data: Bytes, first: Bytes, more: Bytes)
    requires |first| <= 1 && first != [NUL] && Splits(r, NUL, data + first, more)
    ensures Splits(r, NUL, data, first + more)
  {
    if first == [] {
      assert data + first == data && first + more == more;
    } else {
      assert first == [first[0]];
      SplitsOneMore(r, NUL, data, first[0], more);
    }
  }
}
