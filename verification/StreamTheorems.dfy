/** Whole runs of the stream reader: conservation and what keeps a call running. */
module StreamTheorems {
  import opened Basics
  import opened StreamKernel
  import opened StreamReader
  import opened StreamAccounting

  // ---- Conservation -------------------------------------------------------------------------

  /** How the bytes a finished call took explain the bytes it handed over. */
  ghost predicate Explains(call: Call, value: Bytes, taken: Bytes) {
    match call
    case GetCall => |taken| <= 1 && value == taken
    case AmountCall(n) => |taken| <= n && value == taken
    case DelimiterCall(d) =>
      if d == NUL then taken == [] && value == [] else taken == Through(taken, d) && value == Before(taken, d)
    case AllCall => taken == Through(taken, NUL) && value == Before(taken, NUL)
  }

  lemma ReadToReads(s: Stream, d: byte, script: seq<Choice>)
    requires Valid(s)
    ensures var r := ReadTo(s, d, script);
      && Progress(s, r.state)
      && Splits(r, d, [], TakenBetween(s, r.state))
      && (r.Waiting? ==> d !in TakenBetween(s, r.state) && |script| <= 2 * |TakenBetween(s, r.state)| + 1)
  {
    PollFacts(s, script);
    var p := Poll(s, script);
    ReadsIsProgress(s, p.state, []);
    if p.Returned? && p.value > 0 {
      DelimiterLoopReads(p.state, d, [], p.rest);
      DelimiterLoopSplits(p.state, d, [], p.rest);
      DelimiterLoopBound(p.state, d, [], p.rest);
      ProgressCompose(s, p.state, DelimiterLoop(p.state, d, [], p.rest).state);
    }
  }

  lemma PerformExplained(s: Stream, call: Call, script: seq<Choice>)
    requires Valid(s)
    ensures var r := Perform(s, call, script);
      && Progress(s, r.state)
      && (r.Returned? ==> Explains(call, r.value, TakenBetween(s, r.state)))
  {
    match call
    case GetCall =>
      OneByte(s, script);
      RecvReads(s, 1, script);
      var r := Recv(s, 1, script);
      ReadsIsProgress(s, r.state, BytesOf(r));
    case AmountCall(n) =>
      if n > 0 { AmountLoopReads(s, n, [], script); }
    case DelimiterCall(d) =>
      if d != NUL { ReadToReads(s, d, script); }
    case AllCall =>
      AllLoopReads(s, [], script);
      AllLoopSplits(s, [], script);
  }

  lemma {:induction false} RunProgress(s: Stream, calls: seq<Call>, script: seq<Choice>)
    requires Valid(s)
    ensures var h := Run(s, calls, script);
      Progress(s, h.state) && TakenBetween(s, h.state) == Concat(h.taken) + h.running
    decreases |calls|
  {
    if calls != [] {
      PerformExplained(s, calls[0], script);
      var r := Perform(s, calls[0], script);
      if r.Returned? {
        RunProgress(r.state, calls[1..], r.rest);
        var h := Run(r.state, calls[1..], r.rest);
        ProgressCompose(s, r.state, h.state);
        var took := TakenBetween(s, r.state);
        assert took + (Concat(h.taken) + h.running) == (took + Concat(h.taken)) + h.running;
      }
    }
  }

  lemma {:induction false} RunExplained(s: Stream, calls: seq<Call>, script: seq<Choice>)
    requires Valid(s)
    ensures var h := Run(s, calls, script);
      && |h.returned| == |h.taken| <= |calls|
      && (forall i :: 0 <= i < |h.taken| ==> Explains(calls[i], h.returned[i], h.taken[i]))
      && (|h.returned| == |calls| ==> h.running == [])
    decreases |calls|
  {
    if calls != [] {
      PerformExplained(s, calls[0], script);
      var r := Perform(s, calls[0], script);
      if r.Returned? {
        RunExplained(r.state, calls[1..], r.rest);
      }
    }
  }

  /**
   * Conservation over every run: in every state a run can reach, also in the middle of a call, the
   * accepted bytes are the consumed, queued and in-flight bytes in that order, and the consumed
   * bytes are what the finished calls took, in call order, followed by what the call still running
   * has taken. What a call took is what it returned, plus the delimiter or NUL it stopped on.
   */
  lemma RunConserves(s: Stream, calls: seq<Call>, script: seq<Choice>)
    requires Valid(s)
    ensures var h := Run(s, calls, script);
      && h.state.accepted == h.state.consumed + h.state.queued + h.state.inFlight
      && h.state.consumed == s.consumed + Concat(h.taken) + h.running
      && |h.returned| == |h.taken| <= |calls|
      && (forall i :: 0 <= i < |h.taken| ==> Explains(calls[i], h.returned[i], h.taken[i]))
      && (|h.returned| == |calls| ==> h.running == [])
  {
    RunProgress(s, calls, script);
    RunExplained(s, calls, script);
    var h := Run(s, calls, script);
    assert s.consumed + (Concat(h.taken) + h.running) == s.consumed + Concat(h.taken) + h.running;
  }

  /** A delimited read that comes back without its delimiter found the queue empty, unless recv() failed. */
  lemma ShortReadSawNothing(s: Stream, d: byte, script: seq<Choice>)
    requires Valid(s) && NoFailures(script)
    ensures var r := ReadTo(s, d, script);
      r.Returned? && d !in TakenBetween(s, r.state) ==> r.state.queued == []
  {
    PollFacts(s, script);
    var p := Poll(s, script);
    if p.Returned? && p.value > 0 {
      DelimiterLoopShort(p.state, d, [], p.rest);
      DelimiterLoopReads(p.state, d, [], p.rest);
      ReadsIsProgress(s, p.state, []);
      ProgressCompose(s, p.state, DelimiterLoop(p.state, d, [], p.rest).state);
    }
  }

  // ---- Termination --------------------------------------------------------------------------

  /** Once the stream is drained, receiveAll keeps polling and reading nothing, under every continuation. */
  lemma {:induction false} ReceiveAllStuck(s: Stream, result: Bytes, script: seq<Choice>)
    requires Valid(s) && Drained(s)
    ensures AllLoop(s, result, false, script) == Waiting(s)
    decreases |script|
  {
    PollFacts(s, script);
    if |script| <= 2 {
      AllPartialRound(s, result, script);
    } else {
      AllRound(s, result, script);
      ReceiveAfterPolls(s, script);
      var polled := SecondPoll(s, script);
      var r := Recv(polled.state, 1, polled.rest);
      assert r.state == s && result + r.value.bytes == result;
      ReceiveAllStuck(s, result, r.rest);
    }
  }

  /** receiveAll returns only because it read a NUL or because a poll found nothing at all. */
  lemma {:induction false} ReceiveAllReturns(s: Stream, result: Bytes, script: seq<Choice>)
    requires Valid(s)
    ensures var r := AllLoop(s, result, false, script);
      r.Returned? ==> NUL in TakenBetween(s, r.state) || !Readable(r.state)
    decreases |script|
  {
    PollFacts(s, script);
    if script != [] && Poll(s, script).value > 0 {
      if |script| <= 2 {
        AllPartialRound(s, result, script);
      } else {
        AllRound(s, result, script);
        ReceiveAfterPolls(s, script);
        var polled := SecondPoll(s, script);
        var r := Recv(polled.state, 1, polled.rest);
        if r.value.bytes == [NUL] {
          AllAfterNul(s, r.state, result, r.rest);
        } else {
          ReceiveAllReturns(r.state, result + r.value.bytes, r.rest);
          AllLoopReads(r.state, result + r.value.bytes, r.rest);
          ProgressCompose(s, r.state, AllLoop(r.state, result + r.value.bytes, false, r.rest).state);
        }
      }
    }
  }

  lemma FailuresOfRound(script: seq<Choice>)
    requires |script| > 2
    ensures Failures(script) >= (if script[2].fails then 1 else 0) + Failures(script[3..])
  {
    assert script[1..][1..] == script[2..] && script[2..][1..] == script[3..];
    assert Failures(script) >= Failures(script[1..]) >= Failures(script[2..]);
  }

  /**
   * A receiveAll that has not returned took a byte or met a failing recv() in every three kernel
   * calls, or the stream is drained.
   */
  lemma {:induction false} ReceiveAllBound(s: Stream, result: Bytes, script: seq<Choice>)
    requires Valid(s)
    ensures var r := AllLoop(s, result, false, script); var taken := TakenBetween(s, r.state);
      r.Waiting? ==> |script| <= 3 * (|taken| + Failures(script)) + 2 || (Drained(r.state) && NUL !in taken)
    decreases |script|
  {
    PollFacts(s, script);
    if |script| > 2 && Poll(s, script).value > 0 {
      AllRound(s, result, script);
      ReceiveAfterPolls(s, script);
      FailuresOfRound(script);
      var polled := SecondPoll(s, script);
      var r := Recv(polled.state, 1, polled.rest);
      var all := AllLoop(s, result, false, script);
      SecondPollCountsOne(s, script);
      RecvWhenReadable(polled.state, 1, polled.rest);
      if r.value.bytes == [NUL] {
        AllAfterNul(s, r.state, result, r.rest);
      } else {
        AllLoopReads(r.state, result + r.value.bytes, r.rest);
        ProgressCompose(s, r.state, all.state);
        if r.value.bytes == [] && !script[2].fails {
          ReceiveAllStuck(r.state, result + r.value.bytes, r.rest);
        } else {
          ReceiveAllBound(r.state, result + r.value.bytes, r.rest);
        }
      }
    }
  }
}
