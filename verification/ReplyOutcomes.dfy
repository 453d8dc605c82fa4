/** How a turn ends, said of the reply and of what judges it: exactly when a run is done, blocked,
    failed for each reason, or told to go on, and with which words. */
module ReplyOutcomes {
  import opened Wrappers
  import opened Transcript
  import opened SessionModel
  import opened Corrections
  import opened AgentTurn
  import opened TurnLaws
  import opened CallOutcomes

  // ---- a reply as it reads ----

  predicate CallsNothing(content: seq<Block>)
  {
    forall i :: 0 <= i < |content| ==> !content[i].ToolUse?
  }

  predicate HasNoText(content: seq<Block>)
  {
    && (forall i :: 0 <= i < |content| && content[i].Text? ==> content[i].text == "")
    && forall i, j :: 0 <= i < j < |content| ==> !content[i].Text? || !content[j].Text?
  }

  /** Reasoning, and no word of an answer. */
  predicate ThinksOnly(content: seq<Block>)
  {
    (exists i :: 0 <= i < |content| && content[i].Thinking?) && HasNoText(content)
  }

  predicate IsFinished(stop: TurnEnd)
  {
    stop in {EndTurn, StopSequence, ToolUseTurn}
  }

  /** A reply that is put forward as the answer. */
  predicate IsAnswer(reply: Reply)
  {
    CallsNothing(reply.content) && IsFinished(reply.stop) && !ThinksOnly(reply.content)
  }

  /** The turn was cut off, and the cut-off budget has a correction left. */
  predicate GoesOn(l: Limits, stop: TurnEnd)
  {
    stop in {MaxTokens, Repetition} && l.cutoffCap.Some? && l.cutoffsUsed < l.cutoffCap.value
  }

  /** Validation raises on the reply's text as it arrives; with a check it is not looked at yet. */
  predicate BreaksScreen(reply: Reply, c: Config)
  {
    c.schema.Some? && !c.hasCheck && c.schema.value(FinalText(reply.content)).Broken?
  }

  /** A result without error answers a write or an edit. */
  ghost predicate HasWritten(ms: seq<Message>)
  {
    exists i, k :: 0 <= i < |ms| && 0 <= k < |ms| && WritesBack(ms[i], ms[k])
  }

  ghost predicate WritesBack(answer: Message, turn: Message)
  {
    && answer.role == User && turn.role == Assistant
    && exists j, n ::
         0 <= j < |answer.content| && 0 <= n < |turn.content| && Reports(answer.content[j], turn.content[n])
  }

  predicate Reports(result: Block, call: Block)
  {
    && result.ToolResult? && !result.isError && call.ToolUse? && call.id == result.id
    && (call.name == "write" || call.name == "edit")
  }

  /** A question in prose, from a run that may ask, was not told so before, and wrote nothing. */
  ghost predicate IsNudged(s: State, reply: Reply, c: Config, summary: bool)
  {
    && c.schema.None? && c.questionNudge && c.askAllowed && !summary && !s.askNudged
    && c.asksInProse(FinalText(reply.content)) && !HasWritten(s.messages)
  }

  /** The schema accepts the text, and so does the check if there is one. */
  predicate IsClean(text: string, t: Turn, c: Config)
    requires c.schema.Some?
  {
    && c.schema.value(text) == Judged([], true)
    && (c.hasCheck ==> t.check(text).Judged? && t.check(text).errors == [])
  }

  /** An answer that nothing speaks against but reads that may be owed. */
  ghost predicate Suits(s: State, reply: Reply, t: Turn, c: Config, summary: bool)
  {
    && IsAnswer(reply)
    && (if c.schema.None? then !IsNudged(s, reply, c, summary)
        else !summary && IsClean(FinalText(reply.content), t, c))
  }

  /** These errors are held against the answer: by the schema, or by the check of an answer the
      schema accepts. */
  ghost predicate Complains(reply: Reply, t: Turn, c: Config, summary: bool, errors: seq<string>, parses: bool)
  {
    && IsAnswer(reply) && c.schema.Some? && !summary && errors != []
    && var text := FinalText(reply.content);
       || c.schema.value(text) == Judged(errors, parses)
       || (c.schema.value(text) == Judged([], true) && c.hasCheck && t.check(text).Judged?
           && t.check(text).errors == errors && parses)
  }

  ghost predicate IsRefused(s: State, reply: Reply, t: Turn, c: Config, summary: bool)
  {
    && s.corrections.charged >= c.maxCorrections
    && exists errors, parses ::
         Complains(reply, t, c, summary, errors, parses)
         && !Improves(s.corrections, errors, parses, c.maxCorrections)
  }

  // ---- the readings agree with what the turn computes ----

  lemma {:induction false} CallsNothingMeans(content: seq<Block>)
    ensures CallsIn(content) == [] <==> CallsNothing(content)
  {
    if content != [] { CallsNothingMeans(content[1..]); }
  }

  predicate NoTexts(content: seq<Block>)
  {
    forall i :: 0 <= i < |content| ==> !content[i].Text?
  }

  lemma {:induction false} NoTextsMeans(content: seq<Block>)
    ensures Texts(content) == [] <==> NoTexts(content)
  {
    if content != [] {
      NoTextsMeans(content[1..]);
      assert forall i :: 0 <= i < |content[1..]| ==> content[1..][i] == content[i + 1];
    }
  }

  lemma HasNoTextStep(x: Block, rest: seq<Block>)
    ensures HasNoText([x] + rest) <==> if x.Text? then x.text == "" && NoTexts(rest) else HasNoText(rest)
  {
    var content := [x] + rest;
    assert forall i :: 1 <= i < |content| ==> content[i] == rest[i - 1];
    assert forall i :: 0 <= i < |rest| ==> content[i + 1] == rest[i];
    if HasNoText(content) {
      forall i, j | 0 <= i < j < |rest| ensures !rest[i].Text? || !rest[j].Text? {
        assert !content[i + 1].Text? || !content[j + 1].Text?;
      }
      if x.Text? {
        assert content[0] == x;
        forall i | 0 <= i < |rest| ensures !rest[i].Text? { assert !content[0].Text? || !content[i + 1].Text?; }
      }
    }
  }

  lemma {:induction false} TextsMean(content: seq<Block>)
    ensures HasNoText(content) <==> Texts(content) == [] || Texts(content) == [""]
  {
    if content != [] {
      var x, rest := content[0], content[1..];
      assert content == [x] + rest;
      TextsMean(rest);
      NoTextsMeans(rest);
      HasNoTextStep(x, rest);
      if x.Text? {
        assert Texts(content) == [x.text] + Texts(rest) && Texts(content)[0] == x.text;
        assert Texts(rest) != [] ==> |Texts(content)| > 1;
      }
    }
  }

  /** The answer is empty exactly when nothing in the reply says anything. */
  lemma EmptyAnswerMeans(content: seq<Block>)
    ensures FinalText(content) == "" <==> HasNoText(content)
  {
    TextsMean(content);
    var parts := Texts(content);
    if parts == [] {
      assert HasNoText(content);
    } else if |parts| > 1 {
      assert Joined(parts, "\n") == parts[0] + "\n" + Joined(parts[1..], "\n");
      assert |Joined(parts, "\n")| >= 1;
    } else {
      assert parts == [parts[0]];
    }
  }

  /** The texts of a reply are its answer, a line break between two of them. */
  lemma {:induction false} TextsJoin(a: seq<Block>, b: seq<Block>)
    ensures FinalText(a + b)
            == if NoTexts(a) then FinalText(b)
               else if NoTexts(b) then FinalText(a)
               else FinalText(a) + "\n" + FinalText(b)
  {
    NoTextsMeans(a);
    NoTextsMeans(b);
    TextsAdd(a, b);
    if !NoTexts(a) && !NoTexts(b) { JoinedAdd(Texts(a), Texts(b)); }
    assert Texts(a) + [] == Texts(a) && [] + Texts(b) == Texts(b);
  }

  lemma {:induction false} TextsAdd(a: seq<Block>, b: seq<Block>)
    ensures Texts(a + b) == Texts(a) + Texts(b)
  {
    if a == [] {
      assert a + b == b;
    } else {
      assert (a + b)[0] == a[0] && (a + b)[1..] == a[1..] + b;
      TextsAdd(a[1..], b);
    }
  }

  lemma {:induction false} JoinedAdd(a: seq<string>, b: seq<string>)
    requires a != [] && b != []
    ensures Joined(a + b, "\n") == Joined(a, "\n") + "\n" + Joined(b, "\n")
  {
    assert (a + b)[0] == a[0] && (a + b)[1..] == a[1..] + b;
    if |a| > 1 {
      JoinedAdd(a[1..], b);
    } else {
      assert a[1..] + b == b;
    }
  }

  lemma WrittenMeans(ms: seq<Message>)
    ensures WroteAFile(ms) <==> HasWritten(ms)
  {
    if WroteAFile(ms) {
      var i :| 0 <= i < |ms| && ms[i].role == User && ReportsWrite(ms, ms[i].content);
      var j :| 0 <= j < |ms[i].content| && ms[i].content[j].ToolResult? && !ms[i].content[j].isError
               && IsWrite(ms, ms[i].content[j].id);
      var k :| 0 <= k < |ms| && ms[k].role == Assistant && CallsWrite(ms[k].content, ms[i].content[j].id);
      CallWritesBack(ms[i], j, ms[k]);
    }
    if HasWritten(ms) {
      var i, k :| 0 <= i < |ms| && 0 <= k < |ms| && WritesBack(ms[i], ms[k]);
      var j := WhatWritesBack(ms[i], ms[k]);
      assert IsWrite(ms, ms[i].content[j].id);
      assert ReportsWrite(ms, ms[i].content);
    }
  }

  lemma CallWritesBack(answer: Message, j: nat, turn: Message)
    requires answer.role == User && turn.role == Assistant && j < |answer.content|
    requires answer.content[j].ToolResult? && !answer.content[j].isError
    requires CallsWrite(turn.content, answer.content[j].id)
    ensures WritesBack(answer, turn)
  {
    var id := answer.content[j].id;
    var n :| 0 <= n < |turn.content| && turn.content[n].ToolUse? && turn.content[n].id == id
             && turn.content[n].name in ["write", "edit"];
    assert Reports(answer.content[j], turn.content[n]);
  }

  lemma WhatWritesBack(answer: Message, turn: Message) returns (j: nat)
    requires WritesBack(answer, turn)
    ensures j < |answer.content| && answer.content[j].ToolResult? && !answer.content[j].isError
    ensures CallsWrite(turn.content, answer.content[j].id)
  {
    var i, n :| 0 <= i < |answer.content| && 0 <= n < |turn.content| && Reports(answer.content[i], turn.content[n]);
    assert turn.content[n].name in ["write", "edit"];
    j := i;
  }

  /** A reply without calls writes nothing. */
  lemma AnswerWritesNothing(ms: seq<Message>, content: seq<Block>)
    requires CallsNothing(content)
    ensures HasWritten(ms + [Message(Assistant, content)]) <==> HasWritten(ms)
  {
    var more := ms + [Message(Assistant, content)];
    assert forall i :: 0 <= i < |ms| ==> more[i] == ms[i];
    if HasWritten(ms) {
      var i, k :| 0 <= i < |ms| && 0 <= k < |ms| && WritesBack(ms[i], ms[k]);
      assert WritesBack(more[i], more[k]);
    }
    if HasWritten(more) {
      var i, k :| 0 <= i < |more| && 0 <= k < |more| && WritesBack(more[i], more[k]);
      assert i < |ms| && k < |ms|;
      assert WritesBack(ms[i], ms[k]);
    }
  }

  // ---- the outcome of a reply ----

  /** The session as the reply leaves it, before anything is made of it. */
  function Taken(s: State, l: Limits, reply: Reply): State
  {
    KeptReply(s, reply, IsCorrected(l, reply.stop)).(stop := Some(Ended(reply.stop)))
  }

  /** What the turn computes of a reply without calls is what the reply says. */
  lemma AnswerReads(s: State, l: Limits, reply: Reply, c: Config, summary: bool)
    requires CallsNothing(reply.content)
    ensures FinalText(reply.content) == "" && HasThinking(reply.content) <==> ThinksOnly(reply.content)
    ensures c.schema.None? && Nudges(Taken(s, l, reply), FinalText(reply.content), c, summary)
            <==> IsNudged(s, reply, c, summary)
  {
    hide WroteAFile;
    hide HasWritten;
    EmptyAnswerMeans(reply.content);
    WrittenMeans(s.messages);
    WrittenMeans(s.messages + [Message(Assistant, reply.content)]);
    AnswerWritesNothing(s.messages, reply.content);
  }

  /** What a reply with calls can end in. */
  lemma CallsEnd(s: State, l: Limits, reply: Reply, corrected: bool, t: Turn, c: Config, summary: bool)
    requires s.status == Working && !CallsNothing(reply.content)
    ensures var r := CallsOf(s, l, reply, corrected, t, c, summary);
            && r.state.stop == s.stop && r.state.status in {Working, Blocked, Error}
            && (IsFinished(reply.stop) ==> r.state.status != Error)
            && (!IsFinished(reply.stop) ==>
                  r.ending == Returned && r.state.status == if corrected then Working else Error)
  {
    hide RunCalls;
    hide ResultsOf;
    hide Appended;
    hide OnlyAsks;
    hide AnyError;
  }

  lemma ReplyWithCalls(s: State, l: Limits, reply: Reply, t: Turn, c: Config, summary: bool)
    requires s.status == Working && !CallsNothing(reply.content)
    ensures var r := ReplyOf(s, l, reply, t, c, summary);
            if BreaksScreen(reply, c) then r.ending == Raised && r.state.status == Working
            else
              && r.state.stop == Some(Ended(reply.stop)) && r.state.status in {Working, Blocked, Error}
              && (IsFinished(reply.stop) ==> r.state.status != Error)
              && (!IsFinished(reply.stop) ==>
                    r.ending == Returned && r.state.status == if GoesOn(l, reply.stop) then Working else Error)
  {
    hide CallsOf;
    CallsNothingMeans(reply.content);
    CallsEnd(Taken(s, l, reply), CountCutoff(l, reply.stop), reply, IsCorrected(l, reply.stop), t, c, summary);
  }

  /** A reply without calls. */
  lemma ReplyWithoutCalls(s: State, l: Limits, reply: Reply, t: Turn, c: Config, summary: bool)
    requires CallsNothing(reply.content)
    ensures var r := ReplyOf(s, l, reply, t, c, summary);
            var judged := AnswerOf(Taken(s, l, reply), reply, IsCorrected(l, reply.stop), t, c, summary);
            if BreaksScreen(reply, c) then r.ending == Raised && r.state.status == s.status
            else r.state == judged.state && r.ending == judged.ending
  {
    hide CallsOf;
    hide AnswerOf;
    CallsNothingMeans(reply.content);
  }

  /** The run is done exactly on an answer that nothing speaks against and that owes no read. */
  lemma DoneExactlyWhen(s: State, l: Limits, reply: Reply, t: Turn, c: Config, summary: bool)
    requires s.status == Working
    ensures ReplyOf(s, l, reply, t, c, summary).state.status == Done
            <==> Suits(s, reply, t, c, summary) && t.gaps == []
  {
    hide ReplyOf;
    hide ChargeOf;
    hide Appended;
    hide Nudges;
    hide IsNudged;
    hide ThinksOnly;
    hide HasThinking;
    hide FinalText;
    if CallsNothing(reply.content) {
      AnswerReads(s, l, reply, c, summary);
      ReplyWithoutCalls(s, l, reply, t, c, summary);
    } else {
      ReplyWithCalls(s, l, reply, t, c, summary);
    }
  }

  /** Whatever becomes of it, a reply is one more turn, its usage is added, and it is one more
      cut-off exactly if it was cut off. */
  lemma ReplyIsCounted(s: State, l: Limits, reply: Reply, t: Turn, c: Config, summary: bool)
    ensures var r := ReplyOf(s, l, reply, t, c, summary).state;
            && r.turns == s.turns + 1 && r.usage == s.usage.Plus(reply.usage) && r.retries == s.retries
            && r.cutoffs == s.cutoffs + if reply.stop in {MaxTokens, Repetition} then 1 else 0
  {
    hide AnswerOf;
    hide CallsOf;
    AnswerCounts(Taken(s, l, reply), reply, IsCorrected(l, reply.stop), t, c, summary);
    CallsCount(Taken(s, l, reply), CountCutoff(l, reply.stop), reply, IsCorrected(l, reply.stop), t, c, summary);
  }

  /** The counters a turn's answer or calls leave alone. */
  predicate SameCounts(s: State, s': State)
  {
    s'.turns == s.turns && s'.usage == s.usage && s'.retries == s.retries && s'.cutoffs == s.cutoffs
  }

  lemma AnswerCounts(s: State, reply: Reply, corrected: bool, t: Turn, c: Config, summary: bool)
    ensures SameCounts(s, AnswerOf(s, reply, corrected, t, c, summary).state)
  {
    hide ChargeOf;
    hide Appended;
    hide Nudges;
    hide FinalText;
    hide HasThinking;
  }

  lemma CallsCount(s: State, l: Limits, reply: Reply, corrected: bool, t: Turn, c: Config, summary: bool)
    ensures SameCounts(s, CallsOf(s, l, reply, corrected, t, c, summary).state)
  {
    hide BatchOf;
    hide ResultsOf;
    hide Appended;
  }

  /** The run failed for this reason. */
  predicate FailedBy(r: Stepped, stop: Option<StopReason>)
  {
    r.ending == Returned && r.state.status == Error && r.state.stop == stop
  }

  /** A run fails for want of an answer exactly on reasoning that came without one; */
  lemma NoAnswerExactlyWhen(s: State, l: Limits, reply: Reply, t: Turn, c: Config, summary: bool)
    requires s.status == Working
    ensures FailedBy(ReplyOf(s, l, reply, t, c, summary), Some(NoAnswer))
            <==> && !BreaksScreen(reply, c) && CallsNothing(reply.content) && IsFinished(reply.stop)
                 && ThinksOnly(reply.content)
  {
    hide ReplyOf;
    hide ChargeOf;
    hide Appended;
    hide Nudges;
    hide IsNudged;
    hide ThinksOnly;
    hide HasThinking;
    hide FinalText;
    if CallsNothing(reply.content) {
      AnswerReads(s, l, reply, c, summary);
      ReplyWithoutCalls(s, l, reply, t, c, summary);
    } else {
      ReplyWithCalls(s, l, reply, t, c, summary);
    }
  }

  /** for the reads it owes exactly on an answer with nothing else against it, once the
      corrections are used up, since none is ever free for reads; */
  lemma ReadsRequiredExactlyWhen(s: State, l: Limits, reply: Reply, t: Turn, c: Config, summary: bool)
    requires s.status == Working
    ensures FailedBy(ReplyOf(s, l, reply, t, c, summary), Some(ReadsRequired))
            <==> Suits(s, reply, t, c, summary) && t.gaps != [] && s.corrections.charged >= c.maxCorrections
  {
    hide ReplyOf;
    hide Codes;
    hide Noted;
    hide Appended;
    hide Nudges;
    hide IsNudged;
    hide ThinksOnly;
    hide HasThinking;
    hide FinalText;
    if CallsNothing(reply.content) {
      AnswerReads(s, l, reply, c, summary);
      ReplyWithoutCalls(s, l, reply, t, c, summary);
    } else {
      ReplyWithCalls(s, l, reply, t, c, summary);
    }
  }

  /** for its errors exactly on an answer the schema or the check complains of, that improves on
      no earlier one, once the corrections are used up; */
  lemma SchemaViolationExactlyWhen(s: State, l: Limits, reply: Reply, t: Turn, c: Config, summary: bool)
    requires s.status == Working
    ensures FailedBy(ReplyOf(s, l, reply, t, c, summary), Some(SchemaViolation))
            <==> IsRefused(s, reply, t, c, summary)
  {
    hide ReplyOf;
    hide ChargeOf;
    hide Improves;
    hide Appended;
    hide Nudges;
    hide IsNudged;
    hide ThinksOnly;
    hide HasThinking;
    hide FinalText;
    if CallsNothing(reply.content) {
      AnswerReads(s, l, reply, c, summary);
      ReplyWithoutCalls(s, l, reply, t, c, summary);
      if c.schema.Some? {
        var text := FinalText(reply.content);
        var v := c.schema.value(text);
        if v.Judged? && v.errors != [] {
          ChargeMeans(s.corrections, v.errors, c.maxCorrections, v.parses, SchemaCorrection);
          assert IsAnswer(reply) && !summary ==> Complains(reply, t, c, summary, v.errors, v.parses);
        }
        if v == Judged([], true) && c.hasCheck && t.check(text).Judged? && t.check(text).errors != [] {
          ChargeMeans(s.corrections, t.check(text).errors, c.maxCorrections, true, SchemaCorrection);
          assert IsAnswer(reply) && !summary ==> Complains(reply, t, c, summary, t.check(text).errors, true);
        }
      }
    } else {
      ReplyWithCalls(s, l, reply, t, c, summary);
    }
  }

  /** with no reason of its own exactly when the check raised on an answer the schema accepts; */
  lemma CheckFailsExactlyWhen(s: State, l: Limits, reply: Reply, t: Turn, c: Config, summary: bool)
    requires s.status == Working
    ensures FailedBy(ReplyOf(s, l, reply, t, c, summary), None)
            <==> && IsAnswer(reply) && c.schema.Some? && !summary && c.hasCheck
                 && c.schema.value(FinalText(reply.content)) == Judged([], true)
                 && t.check(FinalText(reply.content)).Broken?
  {
    hide ReplyOf;
    hide ChargeOf;
    hide Appended;
    hide Nudges;
    hide IsNudged;
    hide ThinksOnly;
    hide HasThinking;
    hide FinalText;
    if CallsNothing(reply.content) {
      AnswerReads(s, l, reply, c, summary);
      ReplyWithoutCalls(s, l, reply, t, c, summary);
    } else {
      ReplyWithCalls(s, l, reply, t, c, summary);
    }
  }

  /** and with the provider's word for the turn exactly when it was cut off or refused, with no
      correction of cut-offs left. A reply fails a run for no other reason. */
  lemma CutOffExactlyWhen(s: State, l: Limits, reply: Reply, t: Turn, c: Config, summary: bool, stop: StopReason)
    requires s.status == Working && stop !in {NoAnswer, ReadsRequired, SchemaViolation}
    ensures FailedBy(ReplyOf(s, l, reply, t, c, summary), Some(stop))
            <==> && !BreaksScreen(reply, c) && !IsFinished(reply.stop) && !GoesOn(l, reply.stop)
                 && stop == Ended(reply.stop)
  {
    hide ReplyOf;
    hide ChargeOf;
    hide Appended;
    hide Nudges;
    hide IsNudged;
    hide ThinksOnly;
    hide HasThinking;
    hide FinalText;
    if CallsNothing(reply.content) {
      AnswerReads(s, l, reply, c, summary);
      ReplyWithoutCalls(s, l, reply, t, c, summary);
    } else {
      ReplyWithCalls(s, l, reply, t, c, summary);
    }
  }

  /** A turn raises exactly when validation does, or the first call to go wrong does. */
  lemma RaisesExactlyWhen(s: State, l: Limits, reply: Reply, t: Turn, c: Config, summary: bool)
    requires s.status == Working
    ensures ReplyOf(s, l, reply, t, c, summary).ending == Raised
            <==> || BreaksScreen(reply, c)
                 || (&& IsAnswer(reply) && c.schema.Some? && !summary
                     && c.schema.value(FinalText(reply.content)) in {Broken, Judged([], false)})
                 || (&& !CallsNothing(reply.content) && IsFinished(reply.stop)
                     && BatchRun(reply, l, t, c, summary).ending == Raised)
  {
    hide ReplyOf;
    hide ChargeOf;
    hide Appended;
    hide Nudges;
    hide IsNudged;
    hide ThinksOnly;
    hide HasThinking;
    hide FinalText;
    hide RunCalls;
    if CallsNothing(reply.content) {
      AnswerReads(s, l, reply, c, summary);
      ReplyWithoutCalls(s, l, reply, t, c, summary);
    } else {
      ReplyWithCalls(s, l, reply, t, c, summary);
      if IsFinished(reply.stop) && !BreaksScreen(reply, c) { CallsEnding(s, l, reply, t, c, summary); }
    }
  }

  lemma CallsEnding(s: State, l: Limits, reply: Reply, t: Turn, c: Config, summary: bool)
    requires !CallsNothing(reply.content) && IsFinished(reply.stop) && !BreaksScreen(reply, c)
    ensures ReplyOf(s, l, reply, t, c, summary).ending == BatchRun(reply, l, t, c, summary).ending
  {
    hide RunCalls;
    hide ResultsOf;
    CallsNothingMeans(reply.content);
  }

  /** The calls are asks alone, and each of them runs and gives an answer. */
  predicate AllAnswered(reply: Reply, l: Limits, t: Turn)
  {
    var calls := CallsIn(reply.content);
    forall i :: 0 <= i < |calls| ==>
      && calls[i].name == "ask" && (l.callCap.Some? ==> l.callsUsed + i < l.callCap.value)
      && t.tools(i).Gave? && !t.tools(i).isError
  }

  lemma {:induction false} NoneBeside(calls: seq<Call>, n: nat, d: Desk)
    requires n <= |calls| && d.onlyAsks
    ensures AsksBeside(calls, n, d) == 0
  {
    if n > 0 { NoneBeside(calls, n - 1, d); }
  }

  lemma AnsweredMeans(reply: Reply, l: Limits, t: Turn, c: Config, summary: bool)
    requires IsFinished(reply.stop) && CallsIn(reply.content) != []
    ensures var calls := CallsIn(reply.content);
            var b := BatchRun(reply, l, t, c, summary);
            b.ending == Returned && OnlyAsks(calls) && !AnyError(b.results)
            <==> !summary && AllAnswered(reply, l, t)
  {
    hide RunCalls;
    var calls := CallsIn(reply.content);
    var b := BatchRun(reply, l, t, c, summary);
    var d := DeskOf(reply, l, t, c, summary);
    CallsGoAsTold(calls, |calls|, d);
    if OnlyAsks(calls) {
      forall i | 0 <= i < |calls|
        ensures Runs(calls, i, d) <==> !summary && (l.callCap.Some? ==> l.callsUsed + i < l.callCap.value)
      {
        NoneBeside(calls, i, d);
      }
      if b.ending == Returned && !AnyError(b.results) {
        forall i | 0 <= i < |calls| ensures Runs(calls, i, d) && t.tools(i).Gave? && !t.tools(i).isError {
          assert IsResultOf(b.results[i], calls, i, d) && !IsError(b.results[i]);
        }
        assert Runs(calls, 0, d);
      }
      if !summary && AllAnswered(reply, l, t) {
        forall i | 0 <= i < |b.results| ensures !IsError(b.results[i]) {
          assert IsResultOf(b.results[i], calls, i, d) && Runs(calls, i, d);
        }
      }
    }
  }

  lemma BatchAnswers(reply: Reply, l: Limits, t: Turn, c: Config, summary: bool)
    ensures var calls, ids := CallsIn(reply.content), CallIds(reply.content);
            var b := BatchRun(reply, l, t, c, summary);
            && |b.results| <= |ids|
            && (b.ending == Returned ==> AnswersFor(ids, b, c.say) == b.results)
  {
    hide RunCalls;
    hide AnswersFor;
    var calls, ids := CallsIn(reply.content), CallIds(reply.content);
    RunCallsFit(calls, |calls|, DeskOf(reply, l, t, c, summary));
    var b := BatchRun(reply, l, t, c, summary);
    if b.ending == Returned { AllGiven(ids, b, c.say); }
  }

  /** Telling the asks apart leaves an error an error. */
  lemma StillAnError(calls: seq<Call>, ids: seq<string>, b: Batch, stop: TurnEnd, say: Wording)
    requires |b.results| <= |ids| && b.ending == Returned && AnswersFor(ids, b, say) == b.results
    ensures AnyError(ResultsOf(calls, ids, b, stop, say)) <==> AnyError(b.results)
  {
    hide AnswersFor;
    if i :| 0 <= i < |b.results| && IsError(b.results[i]) {
      assert IsError(ResultsOf(calls, ids, b, stop, say)[i]) && |ResultsOf(calls, ids, b, stop, say)| == |b.results|;
    }
  }

  /** The run is blocked exactly on a finished reply of asks alone, each of which was put to a
      person and answered. */
  lemma BlockedExactlyWhen(s: State, l: Limits, reply: Reply, t: Turn, c: Config, summary: bool)
    requires s.status == Working
    ensures ReplyOf(s, l, reply, t, c, summary).state.status == Blocked
            <==> && !BreaksScreen(reply, c) && !CallsNothing(reply.content) && IsFinished(reply.stop) && !summary
                 && AllAnswered(reply, l, t)
  {
    hide ChargeOf;
    hide Appended;
    hide Nudges;
    hide HasThinking;
    hide FinalText;
    hide RunCalls;
    hide OnlyAsks;
    hide AnyError;
    hide AllAnswered;
    hide ResultsOf;
    CallsNothingMeans(reply.content);
    if !CallsNothing(reply.content) && IsFinished(reply.stop) {
      AnsweredMeans(reply, l, t, c, summary);
      BatchAnswers(reply, l, t, c, summary);
      var b := BatchRun(reply, l, t, c, summary);
      if b.ending == Returned { StillAnError(CallsIn(reply.content), CallIds(reply.content), b, reply.stop, c.say); }
    }
  }

  // ---- what the model is told when the run goes on ----

  /** The reply, and one word of nare's after it. */
  function Exchange(reply: Reply, words: string): seq<Message>
  {
    [Message(Assistant, reply.content), Message(User, [Text(words)])]
  }

  lemma SaidAfter(ms: seq<Message>, content: seq<Block>, words: string)
    ensures Appended(ms + [Message(Assistant, content)], words)
            == ms + [Message(Assistant, content), Message(User, [Text(words)])]
  {
  }

  /** An answer that is a question goes on with the word to ask it, said once; */
  lemma NudgeIsTold(s: State, l: Limits, reply: Reply, t: Turn, c: Config, summary: bool)
    requires s.status == Working && IsAnswer(reply) && IsNudged(s, reply, c, summary)
    ensures var r := ReplyOf(s, l, reply, t, c, summary);
            && r.ending == Returned && r.state.status == Working && r.state.askNudged
            && r.state.messages == s.messages + Exchange(reply, c.say(AskInstead))
            && r.state.corrections == s.corrections
  {
    hide ReplyOf;
    hide Nudges;
    hide ThinksOnly;
    hide HasThinking;
    hide FinalText;
    AnswerReads(s, l, reply, c, summary);
    ReplyWithoutCalls(s, l, reply, t, c, summary);
    SaidAfter(s.messages, reply.content, c.say(AskInstead));
  }

  /** one that owes reads goes on, while corrections are left, with the word on those reads, and
      the correction is on the record; */
  lemma ReadsAreTold(s: State, l: Limits, reply: Reply, t: Turn, c: Config, summary: bool)
    requires s.status == Working && Suits(s, reply, t, c, summary) && t.gaps != []
    requires s.corrections.charged < c.maxCorrections
    ensures var r := ReplyOf(s, l, reply, t, c, summary);
            && r.ending == Returned && r.state.status == Working
            && r.state.messages == s.messages + Exchange(reply, c.say(ReadsOwed(t.gaps)))
            && r.state.corrections.charged == s.corrections.charged + 1 && !r.state.corrections.retried
            && exists codes ::
                 && NoRepeats(codes) && Listed(codes) == Distinct(t.gaps)
                 && r.state.corrections.log == s.corrections.log + [LogEntry(ReadsCorrection, true, codes)]
  {
    hide ReplyOf;
    hide ChargeOf;
    hide Appended;
    hide Nudges;
    hide IsNudged;
    hide ThinksOnly;
    hide HasThinking;
    hide FinalText;
    hide Codes;
    AnswerReads(s, l, reply, c, summary);
    ReplyWithoutCalls(s, l, reply, t, c, summary);
    SaidAfter(s.messages, reply.content, c.say(ReadsOwed(t.gaps)));
    ChargeMeans(s.corrections.(retried := false), t.gaps, c.maxCorrections, false, ReadsCorrection);
  }

  /** and one with errors goes on, while corrections are left or it improves on every earlier
      one, with the word on exactly those errors. */
  lemma FaultsAreTold(
    s: State, l: Limits, reply: Reply, t: Turn, c: Config, summary: bool, errors: seq<string>, parses: bool)
    requires s.status == Working && Complains(reply, t, c, summary, errors, parses)
    requires s.corrections.charged < c.maxCorrections || Improves(s.corrections, errors, parses, c.maxCorrections)
    ensures var r := ReplyOf(s, l, reply, t, c, summary);
            && r.ending == Returned && r.state.status == Working && r.state.corrections.retried
            && exists g ::
                 && IsGrant(g, s.corrections, errors, parses, c.maxCorrections, SchemaCorrection)
                 && r.state.messages == s.messages + Exchange(reply, c.say(Fix(g)))
                 && r.state.corrections.log == s.corrections.log + [LogEntry(SchemaCorrection, g.charged, g.codes)]
  {
    hide ReplyOf;
    hide ChargeOf;
    hide Appended;
    hide Nudges;
    hide IsNudged;
    hide ThinksOnly;
    hide HasThinking;
    hide FinalText;
    hide Codes;
    hide IsGrant;
    hide Improves;
    AnswerReads(s, l, reply, c, summary);
    ReplyWithoutCalls(s, l, reply, t, c, summary);
    ChargeMeans(s.corrections, errors, c.maxCorrections, parses, SchemaCorrection);
    GrantIs(s.corrections, errors, c.maxCorrections, parses, SchemaCorrection);
    var g := ChargeOf(s.corrections, errors, c.maxCorrections, parses, SchemaCorrection).grant.value;
    SaidAfter(s.messages, reply.content, c.say(Fix(g)));
  }

  /** A cut-off reply goes on, while cut-offs may be corrected, with the word on how it was cut
      off; none of its calls is run. An empty one is not kept. */
  lemma CutOffIsTold(s: State, l: Limits, reply: Reply, t: Turn, c: Config, summary: bool)
    requires s.status == Working && GoesOn(l, reply.stop) && !BreaksScreen(reply, c)
    ensures var r := ReplyOf(s, l, reply, t, c, summary);
            && r.ending == Returned && r.state.status == Working && r.limits.cutoffsUsed == l.cutoffsUsed + 1
            && r.state.toolCalls == s.toolCalls
            && r.state.messages
               == if reply.content == [] then Appended(s.messages, c.say(CutOff(reply.stop, false)))
                  else if CallsNothing(reply.content) then
                    s.messages + Exchange(reply, c.say(CutOff(reply.stop, false)))
                  else
                    s.messages + [Message(Assistant, reply.content),
                                  Message(User, NotRunResults(CallIds(reply.content), c.say(NotRun(reply.stop)))
                                                + [Text(c.say(CutOff(reply.stop, true)))])]
  {
    hide RunCalls;
    CallsNothingMeans(reply.content);
    if CallsNothing(reply.content) {
      if reply.content != [] { SaidAfter(s.messages, reply.content, c.say(CutOff(reply.stop, false))); }
    } else {
      NotRunAre(CallsIn(reply.content), CallIds(reply.content), reply.stop, c.say);
    }
  }

  /** One error for each call, in order. */
  function NotRunResults(ids: seq<string>, why: string): seq<Block>
  {
    seq(|ids|, i requires 0 <= i < |ids| => ToolResult(ids[i], Str(why), true, None))
  }

  lemma NotRunAre(calls: seq<Call>, ids: seq<string>, stop: TurnEnd, say: Wording)
    requires IsUnfinished(stop)
    ensures |NoneRun(ids, stop, say).results| <= |ids|
    ensures ResultsOf(calls, ids, NoneRun(ids, stop, say), stop, say) == NotRunResults(ids, say(NotRun(stop)))
  {
    assert ids[|ids|..] == [];
  }

  /** The calls of a finished reply are answered in one message after it, each with its own
      result, and those that ran are counted. */
  lemma CallsAreAnswered(s: State, l: Limits, reply: Reply, t: Turn, c: Config, summary: bool)
    requires s.status == Working && !BreaksScreen(reply, c)
    requires !CallsNothing(reply.content) && IsFinished(reply.stop)
    ensures var m := ReplyOf(s, l, reply, t, c, summary).state.messages;
            var n := |s.messages|;
            && |m| == n + 2 && m[..n] == s.messages && m[n] == Message(Assistant, reply.content)
            && m[n + 1].role == User
            && var results := m[n + 1].content;
               && |results| == |CallsIn(reply.content)|
               && (forall i :: 0 <= i < |results| ==> IsAnsweredSo(results[i], i, reply, l, t, c, summary))
    ensures ReplyOf(s, l, reply, t, c, summary).state.toolCalls == s.toolCalls + BatchRun(reply, l, t, c, summary).ran
  {
    hide CallsOf;
    hide IsAnsweredSo;
    CallsNothingMeans(reply.content);
    ResultsAreTheTools(Taken(s, l, reply), l, reply, false, t, c, summary);
    var m := ReplyOf(s, l, reply, t, c, summary).state.messages;
    var kept := s.messages + [Message(Assistant, reply.content)];
    assert m[..|kept|] == kept;
    assert m[..|s.messages|] == m[..|kept|][..|s.messages|] == s.messages;
    assert m[|s.messages|] == m[..|kept|][|s.messages|];
  }
}
