/**
 * Exactly when the receive calls come back, and what they return from a queue that does not change:
 * the same bytes and the same residual queue for every fragmentation.
 */
module StreamEndings {
  import opened Basics
  import opened StreamKernel
  import opened StreamReader
  import opened StreamAccounting
  import opened StreamTheorems

  // ---- Termination --------------------------------------------------------------------------

  /**
   * receiveToDelimiter makes at most two kernel calls for each byte of the stream and one more: on a
   * finite stream it returns, whether or not the peer closes and whether or not recv() fails.
   */
  lemma ReceiveToDelimiterTerminates(s: Stream, d: byte, script: seq<Choice>)
    requires Valid(s)
    ensures var r := ReadTo(s, d, script);
      |script| > 2 * (|r.state.accepted| - |s.consumed|) + 1 ==> r.Returned?
  {
    ReadToReads(s, d, script);
  }

  lemma StuckAfterPoll(s: Stream, result: Bytes, script: seq<Choice>)
    requires Valid(s) && script != [] && Drained(Poll(s, script).state)
    ensures AllLoop(s, result, false, script) == Waiting(Poll(s, script).state)
  {
    var t := Poll(s, script).state;
    PollFacts(s, script);
    PollFacts(t, script);
    assert t.(consumed := t.consumed + []) == t;
    assert Poll(t, script) == Poll(s, script);
    assert AllLoop(s, result, false, script) == AllLoop(t, result, false, script);
    ReceiveAllStuck(t, result, script);
  }

  /** A longer script does not change the part of a round that lies within the shorter one. */
  lemma RoundExtends(s: Stream, script: seq<Choice>, more: seq<Choice>)
    requires Valid(s) && |script| > 2 && Poll(s, script).value > 0
    ensures Poll(s, script + more).value > 0
    ensures var polled := SecondPoll(s, script); var polled' := SecondPoll(s, script + more);
      && polled'.Returned? && polled'.state == polled.state
      && Recv(polled.state, 1, polled.rest).Returned?
      && Recv(polled.state, 1, polled'.rest) ==
         Recv(polled.state, 1, polled.rest).(rest := script[3..] + more)
  {
    assert (script + more)[1..] == script[1..] + more;
    assert (script + more)[1..][1..] == script[1..][1..] + more == script[2..] + more;
    assert (script[2..] + more)[1..] == script[3..] + more;
    ReceiveAfterPolls(s, script);
    ReceiveAfterPolls(s, script + more);
  }

  lemma {:induction false} StuckForGood(s: Stream, result: Bytes, script: seq<Choice>, more: seq<Choice>)
    requires Valid(s)
    requires var r := AllLoop(s, result, false, script);
      r.Waiting? && Drained(r.state) && NUL !in TakenBetween(s, r.state)
    ensures AllLoop(s, result, false, script + more) == AllLoop(s, result, false, script)
    decreases |script|
  {
    var r := AllLoop(s, result, false, script);
    PollFacts(s, script);
    if script == [] {
      assert script + more == more;
      ReceiveAllStuck(s, result, more);
    } else if Drained(Poll(s, script).state) {
      StuckAfterPoll(s, result, script);
      StuckAfterPoll(s, result, script + more);
    } else if |script| == 2 {
      SecondPollCountsOne(s, script);
      PollFacts(Poll(s, script).state, script[1..]);
      AllPartialRound(s, result, script);
    } else if |script| > 2 {
      AllRound(s, result, script);
      ReceiveAfterPolls(s, script);
      RoundExtends(s, script, more);
      AllRound(s, result, script + more);
      var polled := SecondPoll(s, script);
      var first := Recv(polled.state, 1, polled.rest);
      if first.value.bytes == [NUL] {
        AllAfterNul(s, first.state, result, first.rest);
      } else {
        AllLoopReads(first.state, result + first.value.bytes, first.rest);
        ProgressCompose(s, first.state, r.state);
        StuckForGood(first.state, result + first.value.bytes, first.rest, more);
      }
    }
  }

  /**
   * receiveAll, exactly: once the script is longer than three kernel calls for each byte of the
   * stream and for each failing recv(), the call is still running if and only if the stream has
   * ended, everything is read and no NUL was among what it read; and then it never returns, and no
   * continuation changes anything.
   */
  lemma ReceiveAllTerminatesExactly(s: Stream, script: seq<Choice>)
    requires Valid(s)
    requires |script| > 3 * (|ReadAll(s, script).state.accepted| - |s.consumed| + Failures(script)) + 2
    ensures var r := ReadAll(s, script);
      && (r.Waiting? <==> Drained(r.state) && NUL !in TakenBetween(s, r.state))
      && (r.Waiting? ==> forall more :: ReadAll(s, script + more) == r)
  {
    ReceiveAllBound(s, [], script);
    ReceiveAllReturns(s, [], script);
    AllLoopReads(s, [], script);
    var r := ReadAll(s, script);
    if r.Waiting? {
      forall more ensures ReadAll(s, script + more) == r {
        StuckForGood(s, [], script, more);
      }
    }
  }

  // ---- Streams nothing arrives on -----------------------------------------------------------

  /** Nothing happens to the queue but what the reader does: the stream has ended, or the script is quiet. */
  ghost predicate Fixed(s: Stream, script: seq<Choice>) {
    && Valid(s)
    && (s.finArrived || forall i :: 0 <= i < |script| ==> script[i].events == [])
  }

  lemma DropFixed(s: Stream, k: nat, script: seq<Choice>, from: nat)
    requires Fixed(s, script) && k <= |s.queued| && from <= |script|
    ensures Fixed(Drop(s, k), script[from..])
  {
  }

  lemma FixedPoll(s: Stream, script: seq<Choice>)
    requires Fixed(s, script) && script != []
    ensures ApplyAll(s, script[0].events) == s
    ensures Poll(s, script) == Returned(if Readable(s) then 1 else 0, s, script[1..])
  {
    EnvironmentOnlyAppends(s, script[0].events);
    assert s.(consumed := s.consumed + []) == s;
  }

  lemma FixedByte(s: Stream, script: seq<Choice>)
    requires Fixed(s, script) && script != [] && !script[0].fails && Readable(s)
    ensures Recv(s, 1, script) ==
      if s.queued == [] then Returned(Chunk(0, []), s, script[1..])
      else Returned(Chunk(1, [s.queued[0]]), Drop(s, 1), script[1..])
  {
    FixedPoll(s, script);
    if s.queued != [] {
      assert s.queued[..1] == [s.queued[0]];
    }
  }

  lemma BeforeStep(q: Bytes, d: byte)
    requires q != []
    ensures q[0] == d ==> Before(q, d) == [] && |Through(q, d)| == 1
    ensures q[0] != d ==> Before(q, d) == [q[0]] + Before(q[1..], d) && |Through(q, d)| == 1 + |Through(q[1..], d)|
    ensures q[0] != d ==> (d in q <==> d in q[1..])
  {
    assert q == [q[0]] + q[1..];
  }

  lemma DelimiterRoundOnFixed(s: Stream, d: byte, data: Bytes, script: seq<Choice>)
    requires Fixed(s, script) && NoFailures(script) && Readable(s) && |script| > 2 * |s.queued|
    ensures DelimiterLoop(s, d, data, script) ==
      if s.queued == [] then Returned(data, s, script[1..])
      else if s.queued[0] == d then Returned(data, Drop(s, 1), script[1..])
      else if Readable(Drop(s, 1)) then DelimiterLoop(Drop(s, 1), d, data + [s.queued[0]], script[2..])
      else Returned(data + [s.queued[0]], Drop(s, 1), script[2..])
  {
    OneByte(s, script);
    FixedByte(s, script);
    if s.queued != [] {
      DropFixed(s, 1, script, 1);
      FixedPoll(Drop(s, 1), script[1..]);
    }
  }

  /** The specification of a delimited read: what it returns and what it leaves behind. */
  ghost predicate ReadsThrough(s: Stream, d: byte, data: Bytes, value: Bytes, t: Stream) {
    value == data + Before(s.queued, d) && t == Drop(s, |Through(s.queued, d)|)
  }

  lemma ReadsThroughOneMore(s: Stream, d: byte, data: Bytes, value: Bytes, t: Stream)
    requires s.queued != [] && s.queued[0] != d
    requires ReadsThrough(Drop(s, 1), d, data + [s.queued[0]], value, t)
    ensures ReadsThrough(s, d, data, value, t)
  {
    var rest := s.queued[1..];
    BeforeStep(s.queued, d);
    assert Drop(s, 1).queued == rest;
    DropTwice(s, 1, |Through(rest, d)|);
    Reassociate(data, [s.queued[0]], Before(rest, d));
  }

  lemma Reassociate(a: Bytes, b: Bytes, c: Bytes)
    ensures a + b + c == a + (b + c)
  {
  }

  lemma ReadsThroughEnds(s: Stream, d: byte, data: Bytes)
    ensures s.queued == [] ==> ReadsThrough(s, d, data, data, s)
    ensures s.queued != [] && s.queued[0] == d ==> ReadsThrough(s, d, data, data, Drop(s, 1))
  {
    if s.queued == [] {
      assert Drop(s, 0) == s;
    } else {
      BeforeStep(s.queued, d);
    }
  }

  lemma {:induction false} DelimiterLoopOnFixed(s: Stream, d: byte, data: Bytes, script: seq<Choice>)
    requires Fixed(s, script) && NoFailures(script) && Readable(s) && |script| > 2 * |s.queued|
    ensures var r := DelimiterLoop(s, d, data, script); r.Returned? && ReadsThrough(s, d, data, r.value, r.state)
    decreases |script|
  {
    DelimiterRoundOnFixed(s, d, data, script);
    ReadsThroughEnds(s, d, data);
    if s.queued != [] && s.queued[0] != d {
      var t := Drop(s, 1);
      var more := data + [s.queued[0]];
      if Readable(t) {
        DropFixed(s, 1, script, 2);
        DelimiterLoopOnFixed(t, d, more, script[2..]);
      } else {
        ReadsThroughEnds(t, d, more);
      }
      var r := DelimiterLoop(s, d, data, script);
      ReadsThroughOneMore(s, d, data, r.value, r.state);
    }
  }

  lemma AllRoundOnFixed(s: Stream, result: Bytes, script: seq<Choice>)
    requires Fixed(s, script) && NoFailures(script) && s.queued != [] && |script| > 3 * |s.queued|
    ensures AllLoop(s, result, false, script) ==
      if s.queued[0] == NUL then Returned(result, Drop(s, 1), script[4..])
      else AllLoop(Drop(s, 1), result + [s.queued[0]], false, script[3..])
  {
    FixedPoll(s, script);
    DropFixed(s, 0, script, 1);
    assert Drop(s, 0) == s;
    FixedPoll(s, script[1..]);
    DropFixed(s, 0, script, 2);
    FixedByte(s, script[2..]);
    AllRound(s, result, script);
    DropFixed(s, 1, script, 3);
    FixedPoll(Drop(s, 1), script[3..]);
  }

  /** On a queue nothing arrives on, receiveAll takes the NUL-free prefix and one NUL, and hangs only past the end. */
  lemma {:induction false} AllLoopOnFixed(s: Stream, result: Bytes, script: seq<Choice>)
    requires Fixed(s, script) && NoFailures(script) && |script| > 3 * |s.queued|
    ensures var r := AllLoop(s, result, false, script);
      && ReadsThrough(s, NUL, result, result + Before(s.queued, NUL), r.state)
      && (r.Returned? <==> NUL in s.queued || !s.finArrived)
      && (r.Returned? ==> r.value == result + Before(s.queued, NUL))
    decreases |script|
  {
    ReadsThroughEnds(s, NUL, result);
    if s.queued == [] {
      FixedPoll(s, script);
      if s.finArrived {
        ReceiveAllStuck(s, result, script);
      }
    } else {
      AllRoundOnFixed(s, result, script);
      if s.queued[0] != NUL {
        var t := Drop(s, 1);
        var more := result + [s.queued[0]];
        DropFixed(s, 1, script, 3);
        AllLoopOnFixed(t, more, script[3..]);
        ReadsThroughOneMore(s, NUL, result, more + Before(t.queued, NUL), AllLoop(s, result, false, script).state);
      }
    }
  }

  /** receiveToDelimiter on a queue nothing arrives on, with any fragments. */
  lemma ReadToOnFixed(s: Stream, d: byte, script: seq<Choice>)
    requires Fixed(s, script) && NoFailures(script) && |script| > 2 * |s.queued| + 1
    ensures var r := ReadTo(s, d, script);
      r.Returned? && r.value == Before(s.queued, d) && r.state == Drop(s, |Through(s.queued, d)|)
  {
    FixedPoll(s, script);
    if Readable(s) {
      DropFixed(s, 0, script, 1);
      assert Drop(s, 0) == s;
      DelimiterLoopOnFixed(s, d, [], script[1..]);
    } else {
      assert Drop(s, 0) == s;
    }
  }

  /**
   * receiveAll refines receiveToDelimiter's specification with NUL, the delimiter that function
   * refuses. On a queue nothing arrives on, both leave the same stream behind for every pair of
   * scripts. They return the same bytes, the longest NUL-free prefix, except that receiveAll does
   * not return at all exactly when the stream has ended without a NUL.
   */
  lemma ReceiveAllIsReadToNul(s: Stream, scriptA: seq<Choice>, scriptB: seq<Choice>)
    requires Fixed(s, scriptA) && NoFailures(scriptA) && |scriptA| > 3 * |s.queued|
    requires Fixed(s, scriptB) && NoFailures(scriptB) && |scriptB| > 2 * |s.queued| + 1
    ensures var a := ReadAll(s, scriptA); var b := ReadTo(s, NUL, scriptB);
      && b.Returned? && b.value == Before(s.queued, NUL)
      && a.state == b.state == Drop(s, |Through(s.queued, NUL)|)
      && (a.Returned? <==> NUL in s.queued || !s.finArrived)
      && (a.Returned? ==> a.value == b.value)
  {
    AllLoopOnFixed(s, [], scriptA);
    ReadToOnFixed(s, NUL, scriptB);
  }

  // ---- Fragments ----------------------------------------------------------------------------

  /** Calls that ask for a number of bytes. */
  predicate Sized(call: Call) {
    call.GetCall? || call.AmountCall?
  }

  function Size(call: Call): nat {
    match call
    case AmountCall(n) => n
    case _ => 1
  }

  function TotalSize(calls: seq<Call>): nat {
    if calls == [] then 0 else Size(calls[0]) + TotalSize(calls[1..])
  }

  /** One round of the loop while the queue can fill the buffer: a chunk comes, and the rest is still queued. */
  lemma RoundOnQueue(s: Stream, want: nat, script: seq<Choice>)
    requires Valid(s) && 0 < want <= |s.queued| && script != [] && !script[0].fails
    ensures var r := Recv(s, want, script);
      && r.Returned? && r.value.code >= 1 && r.rest == script[1..]
      && var p := Poll(r.state, r.rest);
         Valid(p.state) && want - |r.value.bytes| <= |p.state.queued|
  {
    RecvWhenReadable(s, want, script);
    RecvReads(s, want, script);
    var r := Recv(s, want, script);
    PollFacts(r.state, r.rest);
    assert s.queued <= r.value.bytes + r.state.queued;
    assert r.state.queued <= [] + Poll(r.state, r.rest).state.queued;
  }

  lemma {:induction false} AmountLoopOnQueue(s: Stream, n: nat, got: Bytes, script: seq<Choice>)
    requires Valid(s) && NoFailures(script) && |got| < n <= |got| + |s.queued|
    requires |script| >= 2 * (n - |got|)
    ensures var r := AmountLoop(s, n, got, script);
      r.Returned? && |r.value| == n && |r.rest| + 2 * (n - |got|) > |script|
    decreases |script|
  {
    var want := n - |got|;
    RoundOnQueue(s, want, script);
    var first := Recv(s, want, script);
    AmountRound(s, n, got, script, first.value.code, first.value.bytes, first.state, first.rest);
    var got1 := got + first.value.bytes;
    if |got1| < n {
      var poll := Poll(first.state, first.rest);
      RecvReads(s, want, script);
      PollFacts(first.state, first.rest);
      AmountLoopOnQueue(poll.state, n, got1, poll.rest);
    }
  }

  lemma SizedCallOnQueue(s: Stream, call: Call, script: seq<Choice>)
    requires Valid(s) && NoFailures(script) && Sized(call) && Size(call) <= |s.queued|
    requires |script| >= 2 * Size(call)
    ensures var r := Perform(s, call, script);
      && r.Returned? && |r.value| == Size(call) && r.value == TakenBetween(s, r.state)
      && |r.rest| + 2 * Size(call) >= |script| && NoFailures(r.rest)
      && Progress(s, r.state)
  {
    PerformExplained(s, call, script);
    if Size(call) > 0 {
      AmountLoopOnQueue(s, Size(call), [], script);
      AmountLoopShort(s, Size(call), [], script);
    }
  }

  lemma {:induction false} SizedRunOnQueue(s: Stream, calls: seq<Call>, script: seq<Choice>)
    requires Valid(s) && NoFailures(script) && (forall i :: 0 <= i < |calls| ==> Sized(calls[i]))
    requires TotalSize(calls) <= |s.queued| && |script| >= 2 * TotalSize(calls)
    ensures var h := Run(s, calls, script);
      && h.returned == h.taken && |h.returned| == |calls| && h.running == []
      && |Concat(h.returned)| == TotalSize(calls)
      && (forall i :: 0 <= i < |calls| ==> |h.returned[i]| == Size(calls[i]))
    decreases |calls|
  {
    if calls != [] {
      SizedCallOnQueue(s, calls[0], script);
      var r := Perform(s, calls[0], script);
      SizedRunOnQueue(r.state, calls[1..], r.rest);
    }
  }

  /** The two streams differ in nothing but what was read. */
  ghost predicate OnlyRead(s: Stream, t: Stream) {
    t == s.(consumed := t.consumed, queued := t.queued)
  }

  lemma OnlyReadIsDrop(s: Stream, t: Stream, taken: Bytes)
    requires Valid(s) && OnlyRead(s, t) && Reads(s, t, taken) && |taken| <= |s.queued|
    ensures t == Drop(s, |taken|)
  {
    assert taken == (taken + t.queued)[..|taken|] == s.queued[..|taken|];
    var rest := t.queued + s.inFlight;
    assert s.consumed + taken + t.queued + s.inFlight == s.consumed + (taken + rest);
    assert s.consumed + s.queued + s.inFlight == s.consumed + (taken + (s.queued[|taken|..] + s.inFlight));
    assert (s.consumed + (taken + rest))[|s.consumed| + |taken|..] == rest;
    assert (s.consumed + (taken + (s.queued[|taken|..] + s.inFlight)))[|s.consumed| + |taken|..]
        == s.queued[|taken|..] + s.inFlight;
    assert t.queued == rest[..|t.queued|];
  }

  lemma {:induction false} RecvOnFixed(s: Stream, n: nat, script: seq<Choice>)
    requires Fixed(s, script)
    ensures var r := Recv(s, n, script); OnlyRead(s, r.state) && (r.Returned? ==> Fixed(r.state, r.rest))
    decreases |script|
  {
    RecvReads(s, n, script);
    if script != [] {
      FixedPoll(s, script);
      var (t, receipt) := TryRecv(s, n, script[0]);
      if receipt.None? {
        RecvOnFixed(t, n, script[1..]);
      }
    }
  }

  lemma {:induction false} AmountLoopOnFixed(s: Stream, n: nat, got: Bytes, script: seq<Choice>)
    requires Fixed(s, script) && |got| < n
    ensures var r := AmountLoop(s, n, got, script); OnlyRead(s, r.state) && (r.Returned? ==> Fixed(r.state, r.rest))
    decreases |script|
  {
    var want := n - |got|;
    RecvOnFixed(s, want, script);
    var first := Recv(s, want, script);
    if first.Returned? && first.value.code >= 1 && |got + first.value.bytes| < n && first.rest != [] {
      FixedPoll(first.state, first.rest);
      AmountLoopOnFixed(first.state, n, got + first.value.bytes, first.rest[1..]);
    }
  }

  lemma {:induction false} SizedRunOnFixed(s: Stream, calls: seq<Call>, script: seq<Choice>)
    requires Fixed(s, script) && (forall i :: 0 <= i < |calls| ==> Sized(calls[i]))
    ensures OnlyRead(s, Run(s, calls, script).state)
    decreases |calls|
  {
    if calls != [] {
      if Size(calls[0]) > 0 {
        AmountLoopOnFixed(s, Size(calls[0]), [], script);
      }
      var r := Perform(s, calls[0], script);
      if r.Returned? {
        SizedRunOnFixed(r.state, calls[1..], r.rest);
      }
    }
  }

  /**
   * Any series of get and receiveAmount calls that the queue can serve returns the front of the
   * queue, each call exactly its share, for every fragmentation and whatever arrives meanwhile. When
   * nothing arrives, what is left is the stream without those bytes and otherwise unchanged.
   */
  lemma {:induction false} SizedRunReturnsQueue(s: Stream, calls: seq<Call>, script: seq<Choice>)
    requires Valid(s) && NoFailures(script) && (forall i :: 0 <= i < |calls| ==> Sized(calls[i]))
    requires TotalSize(calls) <= |s.queued| && |script| >= 2 * TotalSize(calls)
    ensures var h := Run(s, calls, script); var n := TotalSize(calls);
      && |h.returned| == |calls| && (forall i :: 0 <= i < |calls| ==> |h.returned[i]| == Size(calls[i]))
      && Concat(h.returned) == s.queued[..n]
      && h.state.consumed == s.consumed + s.queued[..n]
      && s.queued[n..] <= h.state.queued
      && (Fixed(s, script) ==> h.state == Drop(s, n))
  {
    SizedRunOnQueue(s, calls, script);
    RunProgress(s, calls, script);
    var h := Run(s, calls, script);
    var all := Concat(h.returned);
    assert all + [] == all;
    assert all == (all + h.state.queued)[..|all|] == s.queued[..|all|];
    assert (all + h.state.queued)[|all|..] == h.state.queued;
    if Fixed(s, script) {
      SizedRunOnFixed(s, calls, script);
      OnlyReadIsDrop(s, h.state, all);
    }
  }

  /**
   * Fragmentation independence and additivity: two series of get and receiveAmount calls for the
   * same total, under different fragmentations, return the same bytes and leave the same queue.
   * One receiveAmount(m + n), receiveAmount(m) then receiveAmount(n), and m + n calls of get are
   * such series.
   */
  lemma {:induction false} CuttingDoesNotMatter(s: Stream, callsA: seq<Call>, callsB: seq<Call>,
                                                scriptA: seq<Choice>, scriptB: seq<Choice>)
    requires Valid(s) && NoFailures(scriptA) && NoFailures(scriptB)
    requires forall i :: 0 <= i < |callsA| ==> Sized(callsA[i])
    requires forall i :: 0 <= i < |callsB| ==> Sized(callsB[i])
    requires TotalSize(callsA) == TotalSize(callsB) <= |s.queued|
    requires |scriptA| >= 2 * TotalSize(callsA) && |scriptB| >= 2 * TotalSize(callsB)
    ensures var a := Run(s, callsA, scriptA); var b := Run(s, callsB, scriptB);
      && Concat(a.returned) == Concat(b.returned)
      && a.state.consumed == b.state.consumed
      && (Fixed(s, scriptA) && Fixed(s, scriptB) ==> a.state == b.state)
  {
    SizedRunReturnsQueue(s, callsA, scriptA);
    SizedRunReturnsQueue(s, callsB, scriptB);
  }

  /** receiveAmount comes back short only when a recv() failed or a poll found the queue empty. */
  lemma ShortAmountSawNothing(s: Stream, n: nat, script: seq<Choice>)
    requires Valid(s) && NoFailures(script)
    ensures var r := Amount(s, n, script); r.Returned? && |r.value| < n ==> r.state.queued == []
  {
    if n > 0 {
      AmountLoopShort(s, n, [], script);
    }
  }

  /** recv() blocks only on a stream with nothing to read. */
  lemma {:induction false} RecvBlocksOnNothing(s: Stream, n: nat, script: seq<Choice>)
    requires Valid(s)
    ensures var r := Recv(s, n, script); r.Waiting? && script != [] ==> !Readable(r.state)
    decreases |script|
  {
    if script != [] {
      var t := ApplyAll(s, script[0].events);
      EnvironmentOnlyAppends(s, script[0].events);
      if TryRecv(t, n, script[0]).1.None? && script[1..] != [] {
        RecvBlocksOnNothing(t, n, script[1..]);
      }
    }
  }

  lemma AmountBlocks(s: Stream, n: nat, script: seq<Choice>)
    requires Valid(s) && n > 0 && Recv(s, n, script).Waiting?
    ensures var r := Amount(s, n, script);
      r.Waiting? && TakenBetween(s, r.state) == [] && (script != [] ==> !Readable(r.state))
  {
    RecvReads(s, n, script);
    RecvBlocksOnNothing(s, n, script);
  }

  lemma AmountAfterFirst(s: Stream, n: nat, script: seq<Choice>)
    requires Valid(s) && n > 0
    requires var first := Recv(s, n, script); first.Returned? && |first.rest| >= 2 * (n - 1)
    ensures Amount(s, n, script).Returned?
  {
    var first := Recv(s, n, script);
    var got := [] + first.value.bytes;
    AmountRound(s, n, [], script, first.value.code, first.value.bytes, first.state, first.rest);
    if first.value.code >= 1 && |got| < n {
      ReceiveThenPoll(s, n, script);
      var poll := Poll(first.state, first.rest);
      if poll.value > 0 {
        AmountLoopBound(poll.state, n, got, poll.rest);
        AmountLoopOpen(poll.state, n, got, poll.rest);
      }
    }
  }

  /**
   * receiveAmount(n) and get do not poll first, so their first recv() may block, exactly while there
   * is nothing to read. Once it has returned, at most 2(n - 1) more kernel calls follow.
   */
  lemma AmountTerminates(s: Stream, n: nat, script: seq<Choice>)
    requires Valid(s)
    ensures var first := Recv(s, n, script); var r := Amount(s, n, script);
      && (n == 0 ==> r.Returned?)
      && (n > 0 && first.Waiting? ==>
            r.Waiting? && TakenBetween(s, r.state) == [] && (script != [] ==> !Readable(r.state)))
      && (n > 0 && first.Returned? && |first.rest| >= 2 * (n - 1) ==> r.Returned?)
  {
    if n > 0 {
      var first := Recv(s, n, script);
      if first.Waiting? {
        AmountBlocks(s, n, script);
      } else if |first.rest| >= 2 * (n - 1) {
        AmountAfterFirst(s, n, script);
      }
    }
  }

  /** A receiveAmount that is still running has not filled its buffer. */
  lemma {:induction false} AmountLoopOpen(s: Stream, n: nat, got: Bytes, script: seq<Choice>)
    requires Valid(s) && |got| < n
    ensures var r := AmountLoop(s, n, got, script); r.Waiting? ==> |got| + |TakenBetween(s, r.state)| < n
    decreases |script|
  {
    var want := n - |got|;
    RecvReads(s, want, script);
    var first := Recv(s, want, script);
    ReadsIsProgress(s, first.state, BytesOf(first));
    if first.Returned? && first.value.code >= 1 && |got + first.value.bytes| < n {
      ReceiveThenPoll(s, want, script);
      var poll := Poll(first.state, first.rest);
      if poll.Returned? && poll.value > 0 {
        var more := got + first.value.bytes;
        AmountLoopOpen(poll.state, n, more, poll.rest);
        AmountLoopReads(poll.state, n, more, poll.rest);
        ProgressCompose(s, poll.state, AmountLoop(poll.state, n, more, poll.rest).state);
      }
    }
  }
}
