/** How a run ends, said of the last turn it started. */
module RunOutcomes {
  import opened Wrappers
  import opened Transcript
  import opened SessionModel
  import opened Compaction
  import opened Corrections
  import opened AgentTurn
  import opened TurnLaws
  import opened AgentRun
  import opened RunLaws
  import opened CallOutcomes
  import opened ReplyOutcomes

  /** The tokens or the dollars are spent; a cost that is not known counts as spent. */
  predicate IsSpent(b: TokenBudget, u: Usage)
  {
    || (b.tokens.Some? && b.tokens.value <= u.input + u.output + u.cacheRead + u.cacheWrite)
    || (b.usd.Some? && !(u.cost.Some? && u.cost.value < b.usd.value))
  }

  lemma SpentMeans(b: TokenBudget, u: Usage)
    ensures b.Exhausted(u) <==> IsSpent(b, u)
  {
  }

  /** A reply came, and the session it found. */
  predicate GotReply(o: Opening, c: Config, window: nat)
  {
    ReplyTo(o, c, window).Some?
  }

  function Found(o: Opening, c: Config, window: nat): State
  {
    Ready(o.state, o.turn, c, MeasureOf(c, o.turn, window))
  }

  function UsageAfter(o: Opening, c: Config, window: nat): Usage
  {
    if GotReply(o, c, window) then o.state.usage.Plus(ReplyTo(o, c, window).value.usage) else o.state.usage
  }

  /** The turn gave an answer that nothing speaks against, and it is not the summary turn. */
  ghost predicate Answered(o: Opening, c: Config, window: nat)
  {
    && !o.summary && GotReply(o, c, window) && o.turn.gaps == []
    && Suits(Found(o, c, window), ReplyTo(o, c, window).value, o.turn, c, false)
  }

  /** The turn asked, and was answered. */
  predicate Asks(o: Opening, c: Config, window: nat)
  {
    && !o.summary && GotReply(o, c, window)
    && var reply := ReplyTo(o, c, window).value;
       && !BreaksScreen(reply, c) && !CallsNothing(reply.content) && IsFinished(reply.stop)
       && AllAnswered(reply, o.limits, o.turn)
  }

  /** A call of the turn came after the cap was used up. */
  predicate RanIntoCap(o: Opening, c: Config, window: nat)
  {
    && GotReply(o, c, window)
    && var reply := ReplyTo(o, c, window).value;
       var calls := CallsIn(reply.content);
       var d := DeskOf(reply, o.limits, o.turn, c, o.summary);
       && IsFinished(reply.stop) && !BreaksScreen(reply, c)
       && exists i :: 0 <= i < |calls| && !IsBeside(calls[i], d) && IsPastCap(calls, i, d)
  }

  function TurnOf(o: Opening, c: Config, window: nat): Stepped
  {
    StepOf(o.state, o.limits, o.turn, c, MeasureOf(c, o.turn, window), o.summary)
  }

  /** The session after the turn, and what the limits of the run make of it. */
  function EndOf(o: Opening, c: Config, window: nat): State
  {
    Settled(TurnOf(o, c, window), c, o.summary)
  }

  // ---- one turn ----

  lemma TurnIs(o: Opening, c: Config, window: nat)
    requires o.state.status == Working
    ensures var r := TurnOf(o, c, window);
            if GotReply(o, c, window) then
              r == ReplyOf(Found(o, c, window), o.limits, ReplyTo(o, c, window).value, o.turn, c, o.summary)
            else
              && r.limits == o.limits && r.state.usage == o.state.usage
              && (if r.ending == Returned then FailedBy(r, Some(ContextFull)) else r.state.status == Working)
    ensures Found(o, c, window).status == Working && Found(o, c, window).usage == o.state.usage
    ensures TurnOf(o, c, window).state.usage == UsageAfter(o, c, window)
  {
    hide StepOf;
    hide ReplyOf;
    hide Ready;
    hide ReplyIn;
    var e := MeasureOf(c, o.turn, window);
    StepSplits(o.state, o.limits, o.turn, c, e, o.summary);
    ReadyKeeps(o.state, o.turn, c, e);
    if GotReply(o, c, window) {
      ReplySpends(Found(o, c, window), o.limits, ReplyTo(o, c, window).value, o.turn, c, o.summary);
    }
  }

  lemma AnsweredExactlyWhen(o: Opening, c: Config, window: nat)
    requires o.state.status == Working
    ensures EndOf(o, c, window).status == Done <==> Answered(o, c, window)
    ensures EndOf(o, c, window).status == Blocked <==> Asks(o, c, window)
  {
    hide ReplyOf;
    hide ReplyIn;
    hide Ready;
    hide StepOf;
    hide Suits;
    hide AllAnswered;
    hide BreaksScreen;
    TurnIs(o, c, window);
    if GotReply(o, c, window) {
      var reply := ReplyTo(o, c, window).value;
      DoneExactlyWhen(Found(o, c, window), o.limits, reply, o.turn, c, o.summary);
      BlockedExactlyWhen(Found(o, c, window), o.limits, reply, o.turn, c, o.summary);
      OnlyReturningEnds(Found(o, c, window), o.limits, reply, o.turn, c, o.summary);
    }
  }

  /** A turn that raises or is cancelled leaves the session working. */
  lemma OnlyReturningEnds(s: State, l: Limits, reply: Reply, t: Turn, c: Config, summary: bool)
    requires s.status == Working
    ensures var r := ReplyOf(s, l, reply, t, c, summary);
            r.state.status == Working || r.ending == Returned
  {
    hide ChargeOf;
    hide Nudges;
    hide BatchOf;
    hide ResultsOf;
    hide Appended;
  }

  /** A turn asks the model exactly when the compacted session is estimated below the window, and
      gives up on its size otherwise; without a reply it ends as the request did. */
  lemma ContextFullExactlyWhen(o: Opening, c: Config, window: nat)
    requires o.state.status == Working
    ensures var e := MeasureOf(c, o.turn, window);
            var ms := Compact(o.state.messages, e).messages;
            var asked := AskFrom(o.turn.model, Sent(ms), c.retry, 0, 0.0);
            if o.turn.estimate(ms) >= window as real then
              FailedBy(TurnOf(o, c, window), Some(ContextFull)) && !GotReply(o, c, window)
            else
              && ReplyTo(o, c, window) == asked.reply
              && (asked.reply.None? ==>
                    && TurnOf(o, c, window).ending == asked.ending != Returned
                    && TurnOf(o, c, window).state == o.state.(messages := ms, retries := o.state.retries + asked.made))
  {
    hide Compact;
    hide AskFrom;
    hide ReplyOf;
  }

  predicate FailsFor(s: State, stop: Option<StopReason>)
  {
    s.status == Error && s.stop == stop
  }

  /** The summary turn ends a run for its turns, and nothing else does. */
  lemma TurnsRunOutExactlyWhen(o: Opening, c: Config, window: nat)
    requires o.state.status == Working
    ensures FailsFor(EndOf(o, c, window), Some(MaxTurns)) <==> o.summary
  {
    hide ReplyOf;
    hide ReplyIn;
    hide Ready;
    hide StepOf;
    TurnIs(o, c, window);
    if GotReply(o, c, window) {
      OnlyReturningEnds(Found(o, c, window), o.limits, ReplyTo(o, c, window).value, o.turn, c, o.summary);
      CutOffExactlyWhen(
        Found(o, c, window), o.limits, ReplyTo(o, c, window).value, o.turn, c, o.summary, MaxTurns);
    }
  }

  /** A turn that returns with the budget spent ends the run on it, unless it answered or asked. */
  lemma BudgetStopsExactlyWhen(o: Opening, c: Config, window: nat)
    requires o.state.status == Working && !IsSpent(c.budget, o.state.usage)
    ensures FailsFor(EndOf(o, c, window), Some(Budget))
            <==> && !o.summary && GotReply(o, c, window) && TurnOf(o, c, window).ending == Returned
                 && IsSpent(c.budget, UsageAfter(o, c, window))
                 && !Answered(o, c, window) && !Asks(o, c, window)
  {
    hide ReplyOf;
    hide ReplyIn;
    hide Ready;
    hide StepOf;
    hide Answered;
    hide Asks;
    hide IsSpent;
    TurnIs(o, c, window);
    AnsweredExactlyWhen(o, c, window);
    SpentMeans(c.budget, UsageAfter(o, c, window));
    if GotReply(o, c, window) {
      OnlyReturningEnds(Found(o, c, window), o.limits, ReplyTo(o, c, window).value, o.turn, c, o.summary);
      CutOffExactlyWhen(
        Found(o, c, window), o.limits, ReplyTo(o, c, window).value, o.turn, c, o.summary, Budget);
    }
  }

  /** Any other failure of a turn stands while the budget is not spent and it was not the
      summary's. */
  lemma FailureStandsExactlyWhen(o: Opening, c: Config, window: nat, stop: StopReason)
    requires o.state.status == Working && stop !in {MaxTurns, Budget, ToolCalls}
    ensures FailsFor(EndOf(o, c, window), Some(stop))
            <==> && !o.summary && FailedBy(TurnOf(o, c, window), Some(stop))
                 && !IsSpent(c.budget, UsageAfter(o, c, window))
  {
    hide ReplyOf;
    hide ReplyIn;
    hide Ready;
    hide StepOf;
    hide IsSpent;
    TurnIs(o, c, window);
    SpentMeans(c.budget, UsageAfter(o, c, window));
    if GotReply(o, c, window) {
      OnlyReturningEnds(Found(o, c, window), o.limits, ReplyTo(o, c, window).value, o.turn, c, o.summary);
    }
  }

  /** A run fails with no reason of nare's own exactly when a turn raises, or its check does. */
  lemma FailsExactlyWhen(o: Opening, c: Config, window: nat)
    requires o.state.status == Working
    ensures FailsFor(EndOf(o, c, window), None)
            <==> && !o.summary
                 && (|| TurnOf(o, c, window).ending == Raised
                     || (FailedBy(TurnOf(o, c, window), None) && !IsSpent(c.budget, UsageAfter(o, c, window))))
  {
    hide ReplyOf;
    hide ReplyIn;
    hide Ready;
    hide StepOf;
    hide IsSpent;
    TurnIs(o, c, window);
    SpentMeans(c.budget, UsageAfter(o, c, window));
    if GotReply(o, c, window) {
      OnlyReturningEnds(Found(o, c, window), o.limits, ReplyTo(o, c, window).value, o.turn, c, o.summary);
    }
  }

  lemma {:induction false} RefusedMeans(calls: seq<Call>, n: nat, d: Desk)
    requires n <= |calls| && RunCalls(calls, n, d).ending == Returned
    ensures RunCalls(calls, n, d).refused
            <==> !d.summary && exists i :: 0 <= i < n && !IsBeside(calls[i], d) && IsPastCap(calls, i, d)
  {
    if n > 0 {
      RefusedMeans(calls, n - 1, d);
      RanIs(calls, n - 1, d);
      AsksAmong(calls, n - 1, d);
    }
  }

  /** Turns that ran into the cap are counted. */
  lemma RefusedTurnsAre(o: Opening, c: Config, window: nat)
    requires o.state.status == Working && TurnOf(o, c, window).ending == Returned
    ensures TurnOf(o, c, window).limits.callCap == o.limits.callCap
    ensures TurnOf(o, c, window).limits.refusedTurns
            == o.limits.refusedTurns + if !o.summary && RanIntoCap(o, c, window) then 1 else 0
  {
    hide StepOf;
    hide ReplyOf;
    hide ReplyIn;
    hide Ready;
    hide RunCalls;
    hide IsPastCap;
    TurnIs(o, c, window);
    if GotReply(o, c, window) {
      var reply := ReplyTo(o, c, window).value;
      ReplyRefuses(Found(o, c, window), o.limits, reply, o.turn, c, o.summary);
      if IsFinished(reply.stop) && !BreaksScreen(reply, c) && !CallsNothing(reply.content) {
        CallsEnding(Found(o, c, window), o.limits, reply, o.turn, c, o.summary);
        var calls := CallsIn(reply.content);
        RefusedMeans(calls, |calls|, DeskOf(reply, o.limits, o.turn, c, o.summary));
        NeedsACap(calls, DeskOf(reply, o.limits, o.turn, c, o.summary));
      }
      CallsNothingMeans(reply.content);
      if !CallsNothing(reply.content) {
        ReplyWithCalls(Found(o, c, window), o.limits, reply, o.turn, c, o.summary);
      } else {
        ReplyWithoutCalls(Found(o, c, window), o.limits, reply, o.turn, c, o.summary);
      }
    }
  }

  lemma NeedsACap(calls: seq<Call>, d: Desk)
    ensures d.cap.None? ==> forall i :: 0 <= i < |calls| ==> !IsPastCap(calls, i, d)
  {
  }

  lemma ReplyRefuses(s: State, l: Limits, reply: Reply, t: Turn, c: Config, summary: bool)
    requires ReplyOf(s, l, reply, t, c, summary).ending == Returned
    ensures var r := ReplyOf(s, l, reply, t, c, summary);
            && r.limits.callCap == l.callCap
            && r.limits.refusedTurns
               == l.refusedTurns
                  + if && !CallsNothing(reply.content) && IsFinished(reply.stop)
                       && BatchRun(reply, l, t, c, summary).refused && l.callCap.Some? then 1 else 0
  {
    hide RunCalls;
    hide ResultsOf;
    hide Appended;
    hide AnswerOf;
    CallsNothingMeans(reply.content);
  }

  /** A run stops on its tool calls exactly when a second turn runs into the cap, and nothing
      else ended it. */
  lemma ToolCallsStopExactlyWhen(o: Opening, c: Config, window: nat)
    requires o.state.status == Working && o.limits.refusedTurns <= 1
    ensures FailsFor(EndOf(o, c, window), Some(ToolCalls))
            <==> && !o.summary && o.limits.callCap.Some? && o.limits.refusedTurns == 1 && RanIntoCap(o, c, window)
                 && TurnOf(o, c, window).ending == Returned && TurnOf(o, c, window).state.status == Working
                 && !IsSpent(c.budget, UsageAfter(o, c, window))
  {
    hide ReplyOf;
    hide ReplyIn;
    hide Ready;
    hide StepOf;
    hide IsSpent;
    hide RanIntoCap;
    TurnIs(o, c, window);
    SpentMeans(c.budget, UsageAfter(o, c, window));
    if TurnOf(o, c, window).ending == Returned { RefusedTurnsAre(o, c, window); }
    if GotReply(o, c, window) {
      OnlyReturningEnds(Found(o, c, window), o.limits, ReplyTo(o, c, window).value, o.turn, c, o.summary);
      CutOffExactlyWhen(
        Found(o, c, window), o.limits, ReplyTo(o, c, window).value, o.turn, c, o.summary, ToolCalls);
    }
  }

  // ---- what a turn starts from ----

  function TextBlocks(texts: seq<string>): (r: seq<Block>)
    ensures |r| == |texts|
    ensures forall i :: 0 <= i < |texts| ==> r[i] == Text(texts[i])
  {
    seq(|texts|, i requires 0 <= i < |texts| => Text(texts[i]))
  }

  /** The transcript with these texts said at its end, in order, in one user message. */
  function WithTexts(ms: seq<Message>, texts: seq<string>): seq<Message>
  {
    if texts == [] then ms
    else if ms != [] && ms[|ms| - 1].role == User then
      ms[..|ms| - 1] + [Message(User, ms[|ms| - 1].content + TextBlocks(texts))]
    else ms + [Message(User, TextBlocks(texts))]
  }

  lemma OneMoreText(ms: seq<Message>, texts: seq<string>, text: string)
    ensures Appended(WithTexts(ms, texts), text) == WithTexts(ms, texts + [text])
  {
    assert TextBlocks(texts + [text]) == TextBlocks(texts) + [Text(text)];
    if texts == [] {
      assert TextBlocks(texts + [text]) == [Text(text)];
    } else {
      var user := ms != [] && ms[|ms| - 1].role == User;
      var before := if user then ms[..|ms| - 1] else ms;
      var said := if user then ms[|ms| - 1].content else [];
      assert WithTexts(ms, texts) == before + [Message(User, said + TextBlocks(texts))] by {
        assert [] + TextBlocks(texts) == TextBlocks(texts);
      }
      SaidMore(before, said + TextBlocks(texts), text);
      assert said + TextBlocks(texts) + [Text(text)] == said + (TextBlocks(texts) + [Text(text)]);
    }
  }

  lemma SaidMore(before: seq<Message>, said: seq<Block>, text: string)
    ensures Appended(before + [Message(User, said)], text) == before + [Message(User, said + [Text(text)])]
  {
    assert (before + [Message(User, said)])[..|before|] == before;
  }

  lemma {:induction false} InboxSays(s: State, texts: seq<string>)
    ensures Inboxed(s, texts).messages == WithTexts(s.messages, texts)
  {
    hide WithTexts;
    hide Appended;
    if texts == [] {
      assert WithTexts(s.messages, texts) == s.messages by { NoTextsSaid(s.messages); }
    } else {
      var n := |texts| - 1;
      InboxSays(s, texts[..n]);
      OneMoreText(s.messages, texts[..n], texts[n]);
      assert texts[..n] + [texts[n]] == texts;
    }
  }

  lemma NoTextsSaid(ms: seq<Message>)
    ensures WithTexts(ms, []) == ms
  {
  }

  /** A turn starts from the session with what was typed meanwhile, in order, and then the word on
      the turns: that this is the last one, when none remains, or how many do, when there are
      tools to use and at most five. */
  lemma OpeningSays(s: State, l: Limits, t: Turn, from: nat, c: Config)
    requires OpeningOf(s, l, t, from, c).Some?
    ensures var o := OpeningOf(s, l, t, from, c).value;
            var left := c.maxTurns - (s.turns - from);
            var word :=
              if left <= 0 then [c.say(TurnLimit)]
              else if left <= 5 && c.hasTools then [c.say(TurnsLeft(left))] else [];
            && o.state == s.(messages := WithTexts(s.messages, t.inbox + word))
            && o.summary == (left <= 0) && o.limits == l && o.turn == t
  {
    InboxSays(s, t.inbox);
    hide WithTexts;
    hide Appended;
    hide Inboxed;
    assert t.inbox + [] == t.inbox;
    if c.maxTurns - (s.turns - from) <= 0 {
      OneMoreText(s.messages, t.inbox, c.say(TurnLimit));
    } else {
      OneMoreText(s.messages, t.inbox, c.say(TurnsLeft(c.maxTurns - (s.turns - from))));
    }
  }

  // ---- a whole run ----

  /** A run is over when its last turn is, and ends as that turn does; every turn before it left
      the session working. Only a run that started none ends otherwise. */
  lemma {:induction false} TurnsEndAsTheLast(
    s: State, l: Limits, n: nat, from: nat, c: Config, window: nat, turns: nat -> Turn)
    requires s.status == Working && !IsSpent(c.budget, s.usage)
    ensures var f := TurnsFrom(s, l, n, from, c, window, turns);
            && f.openings != []
            && (forall i :: 0 <= i < |f.openings| ==> f.openings[i].state.status == Working)
            && (forall i :: 0 <= i < |f.openings| ==> !IsSpent(c.budget, f.openings[i].state.usage))
            && (forall i :: 0 <= i < |f.openings| - 1 ==> EndOf(f.openings[i], c, window).status == Working)
            && var last := f.openings[|f.openings| - 1];
               && f.state == EndOf(last, c, window)
               && (f.ending == Cancelled <==> TurnOf(last, c, window).ending == Cancelled)
               && (f.ending == Returned ==> f.state.status != Working)
               && f.ending in {Returned, Cancelled}
    decreases Left(s, from, c)
  {
    hide EndOf;
    hide TurnOf;
    hide IsSpent;
    hide PassOf;
    TurnsUnfold(s, l, n, from, c, window, turns);
    PassIsItsTurn(s, l, turns(n), from, c, window);
    var p := PassOf(s, l, turns(n), from, c, window);
    var f := TurnsFrom(s, l, n, from, c, window, turns);
    if p.ending == Cancelled {
      assert f.openings == [p.opening.value];
    } else {
      LeftFalls(s, l, turns(n), from, c, window);
      if p.state.status == Working {
        TurnsEndAsTheLast(p.state, p.limits, n + 1, from, c, window, turns);
        var rest := TurnsFrom(p.state, p.limits, n + 1, from, c, window, turns);
        assert f.openings == [p.opening.value] + rest.openings;
        assert f.openings[|f.openings| - 1] == rest.openings[|rest.openings| - 1];
        forall i | 1 <= i < |f.openings| ensures f.openings[i] == rest.openings[i - 1] {}
      } else {
        TurnsUnfold(p.state, p.limits, n + 1, from, c, window, turns);
        assert f.openings == [p.opening.value];
      }
    }
  }

  /** A pass within the budget starts a turn and ends as it does, within the budget if it goes
      on. */
  lemma PassIsItsTurn(s: State, l: Limits, t: Turn, from: nat, c: Config, window: nat)
    requires s.status == Working && !IsSpent(c.budget, s.usage)
    ensures var p := PassOf(s, l, t, from, c, window);
            && p.opening.Some?
            && var o := p.opening.value;
               && o.state.status == Working && o.state.usage == s.usage
               && p.state == EndOf(o, c, window) && p.ending == TurnOf(o, c, window).ending
               && (p.ending != Cancelled && p.state.status == Working ==> !IsSpent(c.budget, p.state.usage))
  {
    hide StepOf;
    hide IsSpent;
    SpentMeans(c.budget, s.usage);
    var o := OpeningOf(s, l, t, from, c).value;
    var r := TurnOf(o, c, window);
    SpentMeans(c.budget, r.state.usage);
    TurnIs(o, c, window);
  }

  /** A run of a working session starts a turn, unless its budget was spent or the backend could
      not be reached, and ends as its last turn does. */
  lemma RunEndsAsItsLastTurn(s: State, c: Config, w: World)
    requires s.status == Working
    ensures var f := RunOf(s, c, w);
            && (f.openings == [] <==> IsSpent(c.budget, s.usage) || w.discovered.Unreachable?)
            && (f.openings == [] ==>
                  && f.ending == Returned
                  && f.state == s.(status := Error,
                                   stop := if IsSpent(c.budget, s.usage) then Some(Budget) else None))
            && (f.openings != [] ==>
                  var window := WindowOf(c, w.discovered);
                  var last := f.openings[|f.openings| - 1];
                  && last.state.status == Working && !IsSpent(c.budget, last.state.usage)
                  && f.state == EndOf(last, c, window)
                  && (f.ending == Cancelled <==> TurnOf(last, c, window).ending == Cancelled))
  {
    hide EndOf;
    hide TurnOf;
    hide IsSpent;
    hide TurnsFrom;
    SpentMeans(c.budget, s.usage);
    if !IsSpent(c.budget, s.usage) && w.discovered.Known? {
      var ready := Prepared(s, w);
      TurnsEndAsTheLast(ready, FreshLimits(c), 0, ready.turns, c, WindowOf(c, w.discovered), w.turns);
    }
  }

  /** The answer of a run: the run is done exactly when its last turn gave an answer nothing
      speaks against, and blocked exactly when it asked and was answered; no turn before it did
      either. */
  lemma RunIsDoneExactlyWhen(s: State, c: Config, w: World)
    requires s.status == Working
    ensures var f := RunOf(s, c, w);
            if f.openings == [] then f.state.status == Error
            else
              var window := WindowOf(c, w.discovered);
              var last := |f.openings| - 1;
              && (f.state.status == Done <==> Answered(f.openings[last], c, window))
              && (f.state.status == Blocked <==> Asks(f.openings[last], c, window))
              && forall i :: 0 <= i < last ==> !Answered(f.openings[i], c, window) && !Asks(f.openings[i], c, window)
  {
    hide EndOf;
    hide TurnOf;
    hide IsSpent;
    hide TurnsFrom;
    hide Answered;
    hide Asks;
    RunEndsAsItsLastTurn(s, c, w);
    var f := RunOf(s, c, w);
    if f.openings != [] {
      var window := WindowOf(c, w.discovered);
      var ready := Prepared(s, w);
      SpentMeans(c.budget, s.usage);
      TurnsEndAsTheLast(ready, FreshLimits(c), 0, ready.turns, c, window, w.turns);
      forall i | 0 <= i < |f.openings|
        ensures EndOf(f.openings[i], c, window).status == Done <==> Answered(f.openings[i], c, window)
        ensures EndOf(f.openings[i], c, window).status == Blocked <==> Asks(f.openings[i], c, window)
      {
        AnsweredExactlyWhen(f.openings[i], c, window);
      }
    }
  }

  /** Each turn of a run follows from the one before it: it starts from where that one ended, with
      the limits as it left them. */
  lemma {:induction false} TurnsFollow(
    s: State, l: Limits, n: nat, from: nat, c: Config, window: nat, turns: nat -> Turn)
    requires s.status == Working && !IsSpent(c.budget, s.usage)
    ensures var os := TurnsFrom(s, l, n, from, c, window, turns).openings;
            && os != [] && Some(os[0]) == OpeningOf(s, l, turns(n), from, c)
            && forall i :: 0 < i < |os| ==> Follows(os[i], os[i - 1], turns(n + i), from, c, window)
    decreases Left(s, from, c)
  {
    hide EndOf;
    hide TurnOf;
    hide IsSpent;
    hide PassOf;
    hide Follows;
    TurnsUnfold(s, l, n, from, c, window, turns);
    PassIsItsTurn(s, l, turns(n), from, c, window);
    PassOpens(s, l, turns(n), from, c, window);
    var p := PassOf(s, l, turns(n), from, c, window);
    var os := TurnsFrom(s, l, n, from, c, window, turns).openings;
    if p.ending == Cancelled {
      assert os == [p.opening.value];
    } else {
      LeftFalls(s, l, turns(n), from, c, window);
      if p.state.status == Working {
        TurnsFollow(p.state, p.limits, n + 1, from, c, window, turns);
        var rest := TurnsFrom(p.state, p.limits, n + 1, from, c, window, turns).openings;
        assert os == [p.opening.value] + rest;
        FollowsFirst(os[1], os[0], turns(n + 1), from, c, window, p);
        forall i | 1 < i < |os| ensures Follows(os[i], os[i - 1], turns(n + i), from, c, window) {
          assert os[i] == rest[i - 1] && os[i - 1] == rest[i - 2];
          assert Follows(rest[i - 1], rest[i - 2], turns(n + 1 + (i - 1)), from, c, window);
        }
      } else {
        TurnsUnfold(p.state, p.limits, n + 1, from, c, window, turns);
        assert os == [p.opening.value];
      }
    }
  }

  ghost predicate Follows(o: Opening, before: Opening, t: Turn, from: nat, c: Config, window: nat)
  {
    Some(o) == OpeningOf(EndOf(before, c, window), TurnOf(before, c, window).limits, t, from, c)
  }

  lemma FollowsFirst(o: Opening, before: Opening, t: Turn, from: nat, c: Config, window: nat, p: Pass)
    requires p.state == EndOf(before, c, window) && p.limits == TurnOf(before, c, window).limits
    requires Some(o) == OpeningOf(p.state, p.limits, t, from, c)
    ensures Follows(o, before, t, from, c, window)
  {
  }

  lemma PassOpens(s: State, l: Limits, t: Turn, from: nat, c: Config, window: nat)
    ensures var p := PassOf(s, l, t, from, c, window);
            && p.opening == OpeningOf(s, l, t, from, c)
            && (p.opening.Some? ==> p.limits == TurnOf(p.opening.value, c, window).limits)
  {
    hide StepOf;
  }

  /** A run's first turn starts from the session with the schema stated, if there is one to state,
      and without its sealed thinking, if the tools changed; with fresh limits; and against the
      window that is configured, or else the backend's, or else the default. */
  lemma RunStartsSo(s: State, c: Config, w: World)
    requires s.status == Working && !IsSpent(c.budget, s.usage) && w.discovered.Known?
    ensures var stated := if w.statement.Some? then WithTexts(s.messages, [w.statement.value]) else s.messages;
            var ready := s.(messages := if w.toolsChanged then DroppedMessages(stated) else stated);
            var unused := Limits(c.maxToolCalls, 0, 0, c.maxCutoffs, 0);
            var window := WindowOf(c, w.discovered);
            var os := RunOf(s, c, w).openings;
            && os != [] && Some(os[0]) == OpeningOf(ready, unused, w.turns(0), s.turns, c)
            && (forall i :: 0 < i < |os| ==> Follows(os[i], os[i - 1], w.turns(i), s.turns, c, window))
            && (c.window.Some? ==> window == c.window.value)
            && (c.window.None? && w.discovered.window.Some? ==> window == w.discovered.window.value)
            && (c.window.None? && w.discovered.window.None? ==> window == 32000)
  {
    hide TurnsFrom;
    hide Follows;
    hide OpeningOf;
    hide IsSpent;
    hide Appended;
    hide WithTexts;
    SpentMeans(c.budget, s.usage);
    NoTextsSaid(s.messages);
    if w.statement.Some? { OneMoreText(s.messages, [], w.statement.value); }
    assert forall text: string :: [] + [text] == [text];
    var ready := Prepared(s, w);
    TurnsFollow(ready, FreshLimits(c), 0, ready.turns, c, WindowOf(c, w.discovered), w.turns);
  }
}
