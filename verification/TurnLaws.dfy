/** What one turn keeps, whatever the model, the tools and the checks do. */
module TurnLaws {
  import opened Wrappers
  import opened Transcript
  import opened SessionModel
  import opened Compaction
  import opened CompactionLaws
  import opened Corrections
  import opened AgentTurn

  // ---- the request ----

  /** The waits before attempts 1 to n. */
  function TotalWait(model: Model, history: seq<Message>, n: nat): real
  {
    if n == 0 then 0.0
    else
      var a := model(history, n - 1);
      TotalWait(model, history, n - 1)
      + if a.Broke? && a.found.Some? then WaitBefore(n, a.found.value) else 0.0
  }

  lemma {:induction false} DoubledPast(k: nat)
    requires k >= 4
    ensures Doubled(k) >= 32.0
  {
    if k > 4 {
      DoubledPast(k - 1);
    } else {
      assert Doubled(1) == 4.0 && Doubled(2) == 8.0 && Doubled(3) == 16.0;
    }
  }

  /** The waits before the first resends are 2, 4, 8 and 16 seconds, then 30 each, or as long as
      the server asks if that is longer. */
  lemma WaitIs(attempt: nat, found: Transient)
    requires attempt >= 1
    ensures var own :=
              if attempt == 1 then 2.0 else if attempt == 2 then 4.0 else if attempt == 3 then 8.0
              else if attempt == 4 then 16.0 else 30.0;
            && WaitBefore(attempt, found) >= own
            && (found.retryAfter.Some? ==> WaitBefore(attempt, found) >= found.retryAfter.value)
            && (WaitBefore(attempt, found) == own || found.retryAfter == Some(WaitBefore(attempt, found)))
  {
    if attempt > 4 {
      DoubledPast(attempt - 1);
    } else {
      assert Doubled(1) == 4.0 && Doubled(2) == 8.0 && Doubled(3) == 16.0;
    }
  }

  predicate WasTransient(a: Attempt)
  {
    a.Broke? && a.found.Some?
  }

  /** A failure that is not resent. */
  predicate GivesUp(a: Attempt, p: RetryPolicy, made: nat, waited: real)
  {
    && a.Broke?
    && (a.found.None? || made == p.retries || waited + WaitBefore(made + 1, a.found.value) > p.seconds)
  }

  /** A request makes at most retries + 1 attempts; every one before the last failed
      transiently; the waits between them are at least 2 seconds each and stay within the
      budget; a reply is what the last attempt returned; and a request fails only when the last
      failure is not transient, the resends are used up, or the next wait would pass the budget. */
  lemma {:induction false} RequestIsBounded(
    model: Model, history: seq<Message>, p: RetryPolicy, made: nat, waited: real)
    requires made <= p.retries && waited == TotalWait(model, history, made)
    requires made as real * FIRST_WAIT <= waited && (made > 0 ==> waited <= p.seconds)
    requires forall k :: 0 <= k < made ==> WasTransient(model(history, k))
    ensures var r := AskFrom(model, history, p, made, waited);
            && r.made <= p.retries
            && r.waited == TotalWait(model, history, r.made)
            && r.made as real * FIRST_WAIT <= r.waited
            && (r.made > 0 ==> r.waited <= p.seconds)
            && (forall k :: 0 <= k < r.made ==> WasTransient(model(history, k)))
            && (r.reply.Some? ==> model(history, r.made) == Replied(r.reply.value))
            && (r.ending == Raised ==> GivesUp(model(history, r.made), p, r.made, r.waited))
            && (r.ending == Cancelled ==>
                  || model(history, r.made).Aborted?
                  || (r.made > 0 && model(history, r.made - 1).Broke? && model(history, r.made - 1).waitCancelled))
    decreases p.retries - made
  {
    hide WaitBefore;
    var a := model(history, made);
    if WasTransient(a) && made < p.retries {
      var wait := WaitBefore(made + 1, a.found.value);
      if waited + wait <= p.seconds && !a.waitCancelled {
        RequestIsBounded(model, history, p, made + 1, waited + wait);
      }
    }
  }

  /** The reply a turn gets, if it gets one. */
  function ReplyIn(s: State, t: Turn, c: Config, e: Measure): Option<Reply>
  {
    var ms := Compact(s.messages, e).messages;
    if e.estimate(ms) >= e.window as real then None else AskFrom(t.model, Sent(ms), c.retry, 0, 0.0).reply
  }

  /** The session as the reply finds it: compacted, its resends counted. */
  function Ready(s: State, t: Turn, c: Config, e: Measure): State
  {
    var ms := Compact(s.messages, e).messages;
    s.(messages := ms, retries := s.retries + AskFrom(t.model, Sent(ms), c.retry, 0, 0.0).made)
  }

  lemma ReadyKeeps(s: State, t: Turn, c: Config, e: Measure)
    ensures var r := Ready(s, t, c, e);
            r == s.(messages := r.messages, retries := r.retries)
  {
    hide Compact;
    hide AskFrom;
  }

  /** A turn acts on its reply, or leaves the compacted session with nothing but a failure. */
  lemma StepSplits(s: State, l: Limits, t: Turn, c: Config, e: Measure, summary: bool)
    ensures var r := StepOf(s, l, t, c, e, summary);
            if ReplyIn(s, t, c, e).Some? then
              r == ReplyOf(Ready(s, t, c, e), l, ReplyIn(s, t, c, e).value, t, c, summary)
            else
              && r.limits == l
              && r.state
                 == Ready(s, t, c, e).(retries := r.state.retries, status := r.state.status, stop := r.state.stop)
              && (if r.ending == Returned then r.state.status == Error && r.state.stop == Some(ContextFull)
                  else r.state.status == s.status && r.state.stop == s.stop)
  {
    hide ReplyOf;
    hide Compact;
    hide AskFrom;
  }

  /** What a reply may hold: no tool result, and sealed thinking only as issued for the
      request it answers. */
  ghost predicate Honest(model: Model)
  {
    forall h, k :: model(h, k).Replied? ==>
      Answers(model(h, k).reply.content, []) && Issued(model(h, k).reply.content, h)
  }

  lemma ReplyIsIssued(s: State, t: Turn, c: Config, e: Measure)
    requires Honest(t.model) && ReplyIn(s, t, c, e).Some?
    ensures Answers(ReplyIn(s, t, c, e).value.content, [])
    ensures Issued(ReplyIn(s, t, c, e).value.content, Sent(Compact(s.messages, e).messages))
  {
    var h := Sent(Compact(s.messages, e).messages);
    RequestIsBounded(t.model, h, c.retry, 0, 0.0);
    assert t.model(h, AskFrom(t.model, h, c.retry, 0, 0.0).made).Replied?;
  }

  // ---- the answer branch only ever speaks ----

  /** The transcript is as it was, or has user text added. */
  ghost predicate Spoke(ms: seq<Message>, ms': seq<Message>)
  {
    ms' == ms || exists text :: ms' == Appended(ms, text)
  }

  lemma SpokeKeeps(ms: seq<Message>, ms': seq<Message>)
    requires Spoke(ms, ms')
    ensures Paired(ms) ==> Paired(ms')
    ensures ThinkingValid(ms) ==> ThinkingValid(ms')
  {
    if ms' != ms {
      var text :| ms' == Appended(ms, text);
      if Paired(ms) { AppendedPaired(ms, text); }
      if ThinkingValid(ms) { AppendedValid(ms, text); }
    }
  }

  lemma AcceptedSpeaks(s: State, gaps: seq<string>, c: Config)
    ensures Spoke(s.messages, Accepted(s, gaps, c).messages)
  {
    hide ChargeOf;
  }

  lemma SchemaAnswerSpeaks(s: State, text: string, verdict: Verdict, t: Turn, c: Config)
    ensures Spoke(s.messages, SchemaAnswer(s, text, verdict, t, c).state.messages)
  {
    hide Accepted;
    hide Appended;
    hide ChargeOf;
    AcceptedSpeaks(s, t.gaps, c);
  }

  lemma AnswerSpeaks(s: State, reply: Reply, corrected: bool, t: Turn, c: Config, summary: bool)
    ensures Spoke(s.messages, AnswerOf(s, reply, corrected, t, c, summary).state.messages)
  {
    hide SchemaAnswer;
    hide Accepted;
    hide Appended;
    hide Nudges;
    if c.schema.Some? {
      SchemaAnswerSpeaks(s, FinalText(reply.content), c.schema.value(FinalText(reply.content)), t, c);
    }
    AcceptedSpeaks(s, t.gaps, c);
  }

  // ---- the answers to the calls ----

  lemma AnswersAll(ids: seq<string>, calls: seq<Call>, b: Batch, stop: TurnEnd, say: Wording)
    requires |calls| == |ids| && forall i :: 0 <= i < |ids| ==> calls[i].id == ids[i]
    requires ResultsFor(b.results, calls)
    ensures Answers(ResultsOf(calls, ids, b, stop, say), ids)
    ensures NoSealed(ResultsOf(calls, ids, b, stop, say))
    ensures var results := ResultsOf(calls, ids, b, stop, say);
            forall i :: 0 <= i < |results| ==> !results[i].ToolUse?
  {
    hide OnlyAsks;
    hide AnyError;
    hide IsUnfinished;
  }

  lemma BatchAnswers(reply: Reply, l: Limits, t: Turn, c: Config, summary: bool)
    ensures var calls := CallsIn(reply.content);
            ResultsFor(BatchOf(calls, reply, l, t, c, summary).results, calls)
  {
    var calls := CallsIn(reply.content);
    if !IsUnfinished(reply.stop) {
      RunCallsFit(
        calls, |calls|, Desk(t.tools, l.callCap, l.callsUsed, summary, OnlyAsks(calls), c.askAllowed, c.say));
    }
  }

  lemma AnsweredKeeps(ms: seq<Message>, content: seq<Block>, results: seq<Block>)
    requires Answers(results, CallIds(content)) && NoSealed(results)
    requires forall i :: 0 <= i < |results| ==> !results[i].ToolUse?
    ensures var asked := ms + [Message(Assistant, content)];
            && (Paired(ms) && Answers(content, []) ==> Paired(asked + [Message(User, results)]))
            && (ThinkingValid(asked) ==> ThinkingValid(asked + [Message(User, results)]))
  {
    var asked := ms + [Message(Assistant, content)];
    var answered := asked + [Message(User, results)];
    NoCalls(results);
    if Paired(ms) && Answers(content, []) {
      PairedAppend(ms, Message(Assistant, content));
      PairedAppend(asked, Message(User, results));
    }
    if ThinkingValid(asked) { ValidUpTo(asked, answered, |asked|); }
  }

  /** The calls just made are answered, then at most text is added. */
  lemma CallsAnswered(
    ms: seq<Message>, s: State, l: Limits, reply: Reply, corrected: bool, t: Turn, c: Config, summary: bool)
    requires s.messages == ms + [Message(Assistant, reply.content)]
    ensures var r := CallsOf(s, l, reply, corrected, t, c, summary).state.messages;
            && (Paired(ms) && Answers(reply.content, []) ==> Paired(r))
            && (ThinkingValid(s.messages) ==> ThinkingValid(r))
  {
    hide BatchOf;
    hide ResultsOf;
    hide Paired;
    hide ThinkingValid;
    hide Answers;
    var calls := CallsIn(reply.content);
    var b := BatchOf(calls, reply, l, t, c, summary);
    BatchAnswers(reply, l, t, c, summary);
    var results := ResultsOf(calls, CallIds(reply.content), b, reply.stop, c.say);
    AnswersAll(CallIds(reply.content), calls, b, reply.stop, c.say);
    AnsweredKeeps(ms, reply.content, results);
    var r := CallsOf(s, l, reply, corrected, t, c, summary).state.messages;
    SpokeKeeps(s.messages + [Message(User, results)], r);
  }

  // ---- pairing and thinking over a turn ----

  /** The one way a turn can leave calls open: the validator raises on the text beside them. */
  predicate LeavesOpen(s: State, t: Turn, c: Config, e: Measure)
  {
    var reply := ReplyIn(s, t, c, e);
    reply.Some? && ScreenBreaks(reply.value, c) && CallIds(reply.value.content) != []
  }

  lemma CompactKeepsBoth(ms: seq<Message>, e: Measure)
    ensures Paired(ms) ==> Paired(Compact(ms, e).messages)
    ensures ThinkingValid(ms) ==> ThinkingValid(Compact(ms, e).messages)
  {
    CompactKeeps(ms, e);
  }

  /** A turn keeps the transcript paired, even when dispatch raises or is cancelled at any call,
      exactly unless it leaves calls open; open calls are only ever those of its last message. */
  lemma TurnKeepsPaired(s: State, l: Limits, t: Turn, c: Config, e: Measure, summary: bool)
    requires Paired(s.messages) && Honest(t.model)
    ensures PairedSoFar(StepOf(s, l, t, c, e, summary).state.messages)
    ensures Paired(StepOf(s, l, t, c, e, summary).state.messages) <==> !LeavesOpen(s, t, c, e)
  {
    hide StepOf;
    hide Compact;
    hide ReplyOf;
    StepSplits(s, l, t, c, e, summary);
    CompactKeepsBoth(s.messages, e);
    if ReplyIn(s, t, c, e).Some? {
      ReplyIsIssued(s, t, c, e);
      ReplyKeepsPaired(Ready(s, t, c, e), l, ReplyIn(s, t, c, e).value, t, c, summary);
    }
  }

  lemma ReplyKeepsPaired(s: State, l: Limits, reply: Reply, t: Turn, c: Config, summary: bool)
    requires Paired(s.messages) && Answers(reply.content, [])
    ensures PairedSoFar(ReplyOf(s, l, reply, t, c, summary).state.messages)
    ensures Paired(ReplyOf(s, l, reply, t, c, summary).state.messages)
            <==> !(ScreenBreaks(reply, c) && CallIds(reply.content) != [])
  {
    hide AnswerOf;
    hide CallsOf;
    var m := Message(Assistant, reply.content);
    var corrected := IsCorrected(l, reply.stop);
    var kept := KeptReply(s, reply, corrected).(stop := Some(Ended(reply.stop)));
    PairedAppend(s.messages, m);
    if ScreenBreaks(reply, c) {
      if CallIds(reply.content) != [] {
        assert kept.messages == s.messages + [m];
        assert Pending(kept.messages, |kept.messages|) == CallIds(m.content);
      }
    } else if CallsIn(reply.content) == [] {
      AnswerSpeaks(kept, reply, corrected, t, c, summary);
      SpokeKeeps(kept.messages, AnswerOf(kept, reply, corrected, t, c, summary).state.messages);
    } else {
      CallsAnswered(s.messages, kept, CountCutoff(l, reply.stop), reply, corrected, t, c, summary);
    }
  }

  /** A turn keeps every seal: compaction drops what its edits make stale, and the reply's own
      thinking was issued for the history that was sent. */
  lemma TurnKeepsThinking(s: State, l: Limits, t: Turn, c: Config, e: Measure, summary: bool)
    requires ThinkingValid(s.messages) && Honest(t.model)
    ensures ThinkingValid(StepOf(s, l, t, c, e, summary).state.messages)
  {
    hide StepOf;
    hide Compact;
    hide ReplyOf;
    hide ReplyIn;
    StepSplits(s, l, t, c, e, summary);
    CompactKeepsBoth(s.messages, e);
    if ReplyIn(s, t, c, e).Some? {
      ReplyIsIssued(s, t, c, e);
      ReplyKeepsThinking(Ready(s, t, c, e), l, ReplyIn(s, t, c, e).value, t, c, summary);
    }
  }

  lemma ReplyKeepsThinking(s: State, l: Limits, reply: Reply, t: Turn, c: Config, summary: bool)
    requires ThinkingValid(s.messages) && Issued(reply.content, Sent(s.messages))
    ensures ThinkingValid(ReplyOf(s, l, reply, t, c, summary).state.messages)
  {
    hide AnswerOf;
    hide CallsOf;
    hide ScreenBreaks;
    var corrected := IsCorrected(l, reply.stop);
    var kept := KeptReply(s, reply, corrected).(stop := Some(Ended(reply.stop)));
    ReplyValid(s.messages, reply.content);
    if ScreenBreaks(reply, c) {
    } else if CallsIn(reply.content) == [] {
      AnswerSpeaks(kept, reply, corrected, t, c, summary);
      SpokeKeeps(kept.messages, AnswerOf(kept, reply, corrected, t, c, summary).state.messages);
    } else {
      CallsAnswered(s.messages, kept, CountCutoff(l, reply.stop), reply, corrected, t, c, summary);
    }
  }

  // ---- how a turn can end ----

  /** The table of (status, stop reason) pairs a finished run may report. */
  predicate Reportable(status: Status, stop: Option<StopReason>)
  {
    if stop.Some? && stop.value.Ended? && !IsUnfinished(stop.value.how) then status == Done || status == Blocked
    else status == Error
  }

  /** After a turn that returned, the session is still working, or it has ended in a way the
      table lists; after one that was cancelled it is still working. */
  lemma TurnEndsReportably(s: State, l: Limits, t: Turn, c: Config, e: Measure, summary: bool)
    requires s.status == Working
    ensures var r := StepOf(s, l, t, c, e, summary);
            && (r.ending == Returned && r.state.status != Working ==> Reportable(r.state.status, r.state.stop))
            && (r.ending == Cancelled ==> r.state.status == Working)
  {
    hide StepOf;
    hide Ready;
    hide ReplyIn;
    hide ReplyOf;
    StepSplits(s, l, t, c, e, summary);
    ReadyKeeps(s, t, c, e);
    if ReplyIn(s, t, c, e).Some? {
      ReplyEndsReportably(Ready(s, t, c, e), l, ReplyIn(s, t, c, e).value, t, c, summary);
    }
  }

  lemma ReplyEndsReportably(s: State, l: Limits, reply: Reply, t: Turn, c: Config, summary: bool)
    requires s.status == Working
    ensures var r := ReplyOf(s, l, reply, t, c, summary);
            && (r.ending == Returned && r.state.status != Working ==> Reportable(r.state.status, r.state.stop))
            && (r.ending == Cancelled ==> r.state.status == Working)
  {
    hide ChargeOf;
    hide BatchOf;
    hide ResultsOf;
    hide Appended;
    hide Nudges;
  }

  // ---- what a turn counts ----

  /** Turns count replies. A turn that leaves the run going had one. */
  lemma TurnCounts(s: State, l: Limits, t: Turn, c: Config, e: Measure, summary: bool)
    requires s.status == Working
    ensures var r := StepOf(s, l, t, c, e, summary);
            && r.state.turns == s.turns + (if ReplyIn(s, t, c, e).Some? then 1 else 0)
            && (r.ending == Returned && r.state.status == Working ==> r.state.turns == s.turns + 1)
  {
    hide StepOf;
    hide Ready;
    hide ReplyIn;
    hide ReplyOf;
    StepSplits(s, l, t, c, e, summary);
    ReadyKeeps(s, t, c, e);
    if ReplyIn(s, t, c, e).Some? {
      ReplyCounts(Ready(s, t, c, e), l, ReplyIn(s, t, c, e).value, t, c, summary);
    }
  }

  lemma ReplyCounts(s: State, l: Limits, reply: Reply, t: Turn, c: Config, summary: bool)
    ensures ReplyOf(s, l, reply, t, c, summary).state.turns == s.turns + 1
  {
    hide ChargeOf;
    hide BatchOf;
    hide ResultsOf;
    hide Appended;
    hide Nudges;
  }

  /** The tokens of a reply, if there is one. */
  function TokensOf(reply: Option<Reply>): nat
  {
    if reply.Some? then reply.value.usage.Total() else 0
  }

  /** A turn spends exactly the tokens of its reply, whatever else becomes of it. */
  lemma TurnSpends(s: State, l: Limits, t: Turn, c: Config, e: Measure, summary: bool)
    ensures StepOf(s, l, t, c, e, summary).state.usage.Total() == s.usage.Total() + TokensOf(ReplyIn(s, t, c, e))
  {
    hide StepOf;
    hide Ready;
    hide ReplyIn;
    hide ReplyOf;
    StepSplits(s, l, t, c, e, summary);
    ReadyKeeps(s, t, c, e);
    if ReplyIn(s, t, c, e).Some? {
      ReplySpends(Ready(s, t, c, e), l, ReplyIn(s, t, c, e).value, t, c, summary);
    }
  }

  lemma ReplySpends(s: State, l: Limits, reply: Reply, t: Turn, c: Config, summary: bool)
    ensures ReplyOf(s, l, reply, t, c, summary).state.usage == s.usage.Plus(reply.usage)
  {
    hide ChargeOf;
    hide BatchOf;
    hide ResultsOf;
    hide Appended;
    hide Nudges;
  }

  /** What the limits of an invocation promise, between its turns. */
  predicate WithinLimits(l: Limits)
  {
    && (l.callCap.Some? ==> l.callsUsed <= l.callCap.value)
    && (l.cutoffCap.Some? ==> l.cutoffsUsed <= l.cutoffCap.value)
    && l.refusedTurns <= 1
  }

  /** How a turn may move a session and its limits: no call past the cap, at most one more
      refused turn, one cut-off beyond the budget only when it ends the run, and no call at all
      on the summary turn. */
  predicate Moves(s: State, l: Limits, r: Stepped, summary: bool)
  {
    && r.limits.callCap == l.callCap && r.limits.cutoffCap == l.cutoffCap
    && (l.callCap.Some? ==>
          r.limits.callsUsed <= l.callCap.value
          && r.state.toolCalls - s.toolCalls == r.limits.callsUsed - l.callsUsed)
    && r.limits.refusedTurns <= l.refusedTurns + (if l.callCap.Some? then 1 else 0)
    && (l.cutoffCap.Some? ==>
          r.limits.cutoffsUsed <= l.cutoffCap.value + 1
          && r.state.cutoffs - s.cutoffs == r.limits.cutoffsUsed - l.cutoffsUsed
          && (r.ending == Returned && r.state.status == Working ==> r.limits.cutoffsUsed <= l.cutoffCap.value))
    && (summary ==> r.state.toolCalls == s.toolCalls && r.limits.refusedTurns == l.refusedTurns)
  }

  lemma TurnStaysWithin(s: State, l: Limits, t: Turn, c: Config, e: Measure, summary: bool)
    requires s.status == Working && WithinLimits(l)
    ensures Moves(s, l, StepOf(s, l, t, c, e, summary), summary)
  {
    hide StepOf;
    hide Ready;
    hide ReplyIn;
    hide ReplyOf;
    StepSplits(s, l, t, c, e, summary);
    ReadyKeeps(s, t, c, e);
    if ReplyIn(s, t, c, e).Some? {
      ReplyStaysWithin(Ready(s, t, c, e), l, ReplyIn(s, t, c, e).value, t, c, summary);
    }
  }

  lemma ReplyStaysWithin(s: State, l: Limits, reply: Reply, t: Turn, c: Config, summary: bool)
    requires s.status == Working && WithinLimits(l)
    ensures Moves(s, l, ReplyOf(s, l, reply, t, c, summary), summary)
  {
    hide AnswerOf;
    hide CallsOf;
    var corrected := IsCorrected(l, reply.stop);
    var kept := KeptReply(s, reply, corrected).(stop := Some(Ended(reply.stop)));
    var l' := CountCutoff(l, reply.stop);
    AnswerCountsNothing(kept, reply, corrected, t, c, summary);
    CallsStayWithin(kept, l', reply, corrected, t, c, summary);
  }

  /** A cut-off turn that is not corrected ends the run. */
  predicate EndsIfCut(r: State, stop: TurnEnd, corrected: bool)
  {
    IsUnfinished(stop) && !corrected ==> r.status == Error
  }

  lemma AnswerCountsNothing(s: State, reply: Reply, corrected: bool, t: Turn, c: Config, summary: bool)
    ensures var r := AnswerOf(s, reply, corrected, t, c, summary).state;
            && r.toolCalls == s.toolCalls && r.cutoffs == s.cutoffs
            && EndsIfCut(r, reply.stop, corrected)
  {
    hide ChargeOf;
    hide Appended;
    hide Nudges;
  }

  lemma CallsStayWithin(s: State, l: Limits, reply: Reply, corrected: bool, t: Turn, c: Config, summary: bool)
    requires l.callCap.Some? ==> l.callsUsed <= l.callCap.value
    ensures var r := CallsOf(s, l, reply, corrected, t, c, summary);
            && r.state.cutoffs == s.cutoffs && r.state.toolCalls >= s.toolCalls
            && r.limits == l.(callsUsed := r.limits.callsUsed, refusedTurns := r.limits.refusedTurns)
            && (r.ending == Returned ==> EndsIfCut(r.state, reply.stop, corrected))
            && (l.callCap.Some? ==>
                  r.limits.callsUsed <= l.callCap.value
                  && r.state.toolCalls - s.toolCalls == r.limits.callsUsed - l.callsUsed)
            && r.limits.refusedTurns <= l.refusedTurns + (if l.callCap.Some? then 1 else 0)
            && (summary ==> r.state.toolCalls == s.toolCalls && r.limits.refusedTurns == l.refusedTurns)
  {
    hide RunCalls;
    hide ResultsOf;
    hide Appended;
    var calls := CallsIn(reply.content);
    if !IsUnfinished(reply.stop) {
      RunCallsFit(
        calls, |calls|, Desk(t.tools, l.callCap, l.callsUsed, summary, OnlyAsks(calls), c.askAllowed, c.say));
    }
  }

  // ---- what a reply means ----

  /** A run that is done had an answer that passed everything asked of it: a finished reply
      without calls, accepted by the schema and the check, with no read still owed. */
  lemma DoneMeansAccepted(s: State, l: Limits, reply: Reply, t: Turn, c: Config, summary: bool)
    requires s.status == Working && ReplyOf(s, l, reply, t, c, summary).state.status == Done
    ensures CallIds(reply.content) == [] && !IsUnfinished(reply.stop) && t.gaps == []
    ensures var text := FinalText(reply.content);
            && (text == "" ==> !HasThinking(reply.content))
            && (c.schema.Some? ==>
                  && c.schema.value(text) == Judged([], true)
                  && (c.hasCheck ==> t.check(text).Judged? && t.check(text).errors == []))
  {
    hide ChargeOf;
    hide BatchOf;
    hide ResultsOf;
    hide Appended;
    hide Nudges;
  }

  /** A turn that was cut off or refused runs no call, and goes on exactly when the cut-off
      budget has a correction left. */
  lemma UnfinishedTurnRunsNothing(s: State, l: Limits, reply: Reply, t: Turn, c: Config, summary: bool)
    requires s.status == Working && IsUnfinished(reply.stop) && !ScreenBreaks(reply, c)
    ensures var r := ReplyOf(s, l, reply, t, c, summary);
            && r.ending == Returned && r.state.toolCalls == s.toolCalls
            && r.state.status == (if IsCorrected(l, reply.stop) then Working else Error)
            && r.state.stop == Some(Ended(reply.stop))
  {
    hide ResultsOf;
    hide RunCalls;
    hide Appended;
    hide Nudges;
  }

  /** How many of the first n calls are asks beside other calls, which are not run. */
  function AsksBeside(calls: seq<Call>, n: nat, d: Desk): nat
    requires n <= |calls|
  {
    if n == 0 then 0
    else AsksBeside(calls, n - 1, d) + if calls[n - 1].name == "ask" && !d.onlyAsks && d.askAllowed then 1 else 0
  }

  /** Every call of a turn is accounted for: it ran, it was an ask beside others, or it was
      refused at the cap; and calls are refused at the cap only once the cap is used up. */
  lemma {:induction false} CallsAreAccountedFor(calls: seq<Call>, n: nat, d: Desk)
    requires n <= |calls| && !d.summary && RunCalls(calls, n, d).ending == Returned
    requires d.cap.Some? ==> d.used <= d.cap.value
    ensures var b := RunCalls(calls, n, d);
            && b.ran + AsksBeside(calls, n, d) <= n
            && (b.refused <==> b.ran + AsksBeside(calls, n, d) < n)
            && (b.refused ==> d.cap.Some? && d.used + b.ran == d.cap.value)
            && (d.cap.Some? ==> d.used + b.ran <= d.cap.value)
  {
    if n > 0 { CallsAreAccountedFor(calls, n - 1, d); }
  }

  lemma OneCallExtends(b: Batch, call: Call, k: nat, d: Desk)
    ensures b.results <= OneCall(b, call, k, d).results
    ensures d.summary || (call.name == "ask" && !d.onlyAsks && d.askAllowed) ==>
              && |OneCall(b, call, k, d).results| == |b.results| + 1
              && IsError(OneCall(b, call, k, d).results[|b.results|])
  {
  }

  lemma {:induction false} AskBesideIsRefused(calls: seq<Call>, n: nat, d: Desk, i: nat)
    requires i < n <= |calls| && RunCalls(calls, n, d).ending == Returned
    requires d.summary || (calls[i].name == "ask" && !d.onlyAsks && d.askAllowed)
    ensures i < |RunCalls(calls, n, d).results| && IsError(RunCalls(calls, n, d).results[i])
  {
    hide OneCall;
    hide IsError;
    hide ResultsFor;
    var b := RunCalls(calls, n - 1, d);
    OneCallExtends(b, calls[n - 1], n - 1, d);
    RunCallsFit(calls, n - 1, d);
    if i < n - 1 {
      AskBesideIsRefused(calls, n - 1, d, i);
      assert OneCall(b, calls[n - 1], n - 1, d).results[i] == b.results[i];
    }
  }

  lemma NotDeliveredIsError(results: seq<Block>, say: Wording, i: nat)
    requires i < |results| && results[i].ToolResult?
    ensures IsError(NotDelivered(results, say)[i])
  {
  }

  /** An ask is heard exactly when the turn blocks on it: either the turn was asks alone and
      all of them succeeded, or every ask the policy allows comes back as an error. */
  lemma AskIsHeardExactlyWhenBlocked(
    s: State, l: Limits, reply: Reply, corrected: bool, t: Turn, c: Config, summary: bool, i: nat)
    requires s.status == Working && !IsUnfinished(reply.stop) && c.askAllowed
    requires i < |CallsIn(reply.content)| && CallsIn(reply.content)[i].name == "ask"
    requires CallsOf(s, l, reply, corrected, t, c, summary).ending == Returned
    ensures var r := CallsOf(s, l, reply, corrected, t, c, summary).state;
            var m := r.messages[|r.messages| - 1];
            && m.role == User && i < |m.content|
            && (r.status == Blocked <==> !IsError(m.content[i]))
  {
    hide RunCalls;
    var calls := CallsIn(reply.content);
    var ids := CallIds(reply.content);
    var d := Desk(t.tools, l.callCap, l.callsUsed, summary, OnlyAsks(calls), c.askAllowed, c.say);
    RunCallsFit(calls, |calls|, d);
    var b := RunCalls(calls, |calls|, d);
    var all := AnswersFor(ids, b, c.say);
    assert all == b.results;
    if !OnlyAsks(calls) {
      AskBesideIsRefused(calls, |calls|, d, i);
      assert IsError(all[i]);
    } else if AnyError(all) {
      NotDeliveredIsError(all, c.say, i);
      assert IsError(NotDelivered(all, c.say)[i]);
    }
  }
}
