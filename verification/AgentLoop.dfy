/** The agent loop as it runs: methods that advance a session in place, each proved equal to
    the function that says what a turn, or a run, makes of the session. */
module AgentLoop {
  import opened Wrappers
  import opened Transcript
  import opened SessionModel
  import opened Compaction
  import opened Compactor
  import opened Corrections
  import opened AgentTurn
  import opened TurnLaws
  import opened AgentRun

  /** The tool call cap of one invocation, the calls run against it, and how many turns had a
      call refused at it. */
  class ToolCallLimit {
    const limit: nat
    var used: nat
    var refusedTurns: nat

    constructor (limit: nat)
      ensures this.limit == limit && used == 0 && refusedTurns == 0
    {
      this.limit := limit;
      used, refusedTurns := 0, 0;
    }
  }

  /** The cut-off budget of one invocation, and every cut-off reply it has seen. */
  class CutoffLimit {
    const limit: nat
    var used: nat

    constructor (limit: nat)
      ensures this.limit == limit && used == 0
    {
      this.limit := limit;
      used := 0;
    }
  }

  ghost function LimitsOf(calls: ToolCallLimit?, cutoffs: CutoffLimit?): Limits
    reads calls, cutoffs
  {
    Limits(
      if calls == null then None else Some(calls.limit),
      if calls == null then 0 else calls.used,
      if calls == null then 0 else calls.refusedTurns,
      if cutoffs == null then None else Some(cutoffs.limit),
      if cutoffs == null then 0 else cutoffs.used)
  }

  method CheckBudget(s: Session, c: Config) returns (spent: bool)
    modifies s`status, s`stopReason
    ensures spent == c.budget.Exhausted(old(s.usage))
    ensures s.Snapshot() == BudgetChecked(old(s.Snapshot()), c)
  {
    spent := c.budget.Exhausted(s.usage);
    if spent {
      s.status := Error;
      s.stopReason := Some(Budget);
    }
  }

  /** One model request, resent on a transient failure within the budget. */
  method WithRetries(s: Session, model: Model, p: RetryPolicy) returns (asked: Asked)
    modifies s`retries
    ensures asked == AskFrom(model, Sent(s.messages), p, 0, 0.0)
    ensures s.retries == old(s.retries) + asked.made
  {
    var history := Sent(s.messages);
    var made: nat := 0;
    var waited := 0.0;
    while true
      invariant made <= p.retries && s.retries == old(s.retries) + made
      invariant AskFrom(model, history, p, made, waited) == AskFrom(model, history, p, 0, 0.0)
      decreases p.retries - made
    {
      match model(history, made) {
        case Replied(reply) => return Asked(Returned, Some(reply), made, waited);
        case Aborted => return Asked(Cancelled, None, made, waited);
        case Broke(found, waitCancelled) =>
          if found.None? || made >= p.retries { return Asked(Raised, None, made, waited); }
          var wait := WaitBefore(made + 1, found.value);
          if waited + wait > p.seconds { return Asked(Raised, None, made, waited); }
          made := made + 1;
          waited := waited + wait;
          s.retries := s.retries + 1;
          if waitCancelled { return Asked(Cancelled, None, made, waited); }
      }
    }
  }

  /** Take one more turn when a headless text reply asked a question in prose. */
  method NudgeQuestion(s: Session, text: string, c: Config, summary: bool) returns (nudged: bool)
    modifies s`askNudged, s`messages
    ensures nudged == Nudges(old(s.Snapshot()), text, c, summary)
    ensures s.Snapshot() ==
              if nudged then Saying(old(s.Snapshot()).(askNudged := true), c.say(AskInstead)) else old(s.Snapshot())
  {
    if !c.questionNudge || summary || s.askNudged || !c.askAllowed { return false; }
    if WroteAFile(s.messages) || !c.asksInProse(text) { return false; }
    s.askNudged := true;
    s.AppendUserText(c.say(AskInstead));
    nudged := true;
  }

  /** Hold a final answer the run has not read enough to rest on. */
  method HoldForReads(s: Session, gaps: seq<string>, c: Config) returns (held: bool)
    modifies s
    ensures held == (gaps != [])
    ensures s.Snapshot() == if held then Held(old(s.Snapshot()), gaps, c) else old(s.Snapshot())
  {
    if gaps == [] { return false; }
    s.schemaRetried := false;
    var granted := Charge(s, gaps, c.maxCorrections, false, ReadsCorrection);
    if granted.None? {
      s.status := Error;
      s.stopReason := Some(ReadsRequired);
      return true;
    }
    s.AppendUserText(c.say(ReadsOwed(gaps)));
    held := true;
  }

  method AcceptAnswer(s: Session, gaps: seq<string>, c: Config)
    modifies s
    ensures s.Snapshot() == Accepted(old(s.Snapshot()), gaps, c)
  {
    var held := HoldForReads(s, gaps, c);
    if !held { s.status := Done; }
  }

  method CorrectAnswer(s: Session, errors: seq<string>, parses: bool, c: Config)
    modifies s
    ensures s.Snapshot() == Corrected(old(s.Snapshot()), errors, parses, c)
  {
    var granted := Charge(s, errors, c.maxCorrections, parses, SchemaCorrection);
    if granted.None? {
      s.status := Error;
      s.stopReason := Some(SchemaViolation);
      return;
    }
    s.AppendUserText(c.say(Fix(granted.value)));
  }

  method JudgeAnswer(s: Session, text: string, t: Turn, c: Config) returns (ending: Ending)
    requires c.schema.Some?
    modifies s
    ensures Judgement(s.Snapshot(), ending) == SchemaAnswer(old(s.Snapshot()), text, c.schema.value(text), t, c)
  {
    hide Accepted;
    hide Corrected;
    var verdict := c.schema.value(text);
    if verdict.Broken? { return Raised; }
    var errors := verdict.errors;
    var parses := verdict.parses;
    if errors == [] {
      if !parses { return Raised; }
      if c.hasCheck {
        var checked := t.check(text);
        if checked.Broken? {
          s.status := Error;
          s.stopReason := None;
          return Returned;
        }
        errors := checked.errors;
      }
    }
    if errors == [] {
      AcceptAnswer(s, t.gaps, c);
    } else {
      CorrectAnswer(s, errors, parses, c);
    }
    ending := Returned;
  }

  /** What a reply without calls does. */
  method TakeAnswer(s: Session, reply: Reply, corrected: bool, t: Turn, c: Config, summary: bool)
    returns (ending: Ending)
    modifies s
    ensures Judgement(s.Snapshot(), ending) == AnswerOf(old(s.Snapshot()), reply, corrected, t, c, summary)
  {
    hide Accepted;
    hide SchemaAnswer;
    hide Nudges;
    ending := Returned;
    if IsUnfinished(reply.stop) && corrected {
      s.AppendUserText(c.say(CutOff(reply.stop, false)));
      return;
    }
    if IsUnfinished(reply.stop) {
      s.status := Error;
      return;
    }
    var text := FinalText(reply.content);
    if text == "" && HasThinking(reply.content) {
      s.status := Error;
      s.stopReason := Some(NoAnswer);
      return;
    }
    if c.schema.None? {
      var nudged := NudgeQuestion(s, text, c, summary);
      if !nudged { AcceptAnswer(s, t.gaps, c); }
      return;
    }
    if summary { return; }
    ending := JudgeAnswer(s, text, t, c);
  }

  /** The calls of a turn, one after another, until one raises or is cancelled. */
  method DispatchCalls(s: Session, calls: seq<Call>, limit: ToolCallLimit?, t: Turn, c: Config, summary: bool)
    returns (b: Batch)
    modifies s`toolCalls, limit
    ensures b == RunCalls(calls, |calls|, DeskOf(old(LimitsOf(limit, null)), OnlyAsks(calls), t, c, summary))
    ensures s.toolCalls == old(s.toolCalls) + b.ran
    ensures limit != null ==> limit.used == old(limit.used) + b.ran && limit.refusedTurns == old(limit.refusedTurns)
  {
    ghost var d := DeskOf(LimitsOf(limit, null), OnlyAsks(calls), t, c, summary);
    b := Batch([], 0, false, Returned);
    for k := 0 to |calls|
      invariant b == RunCalls(calls, k, d) && b.ending == Returned
      invariant s.toolCalls == old(s.toolCalls) + b.ran
      invariant limit != null ==> limit.used == old(limit.used) + b.ran && limit.refusedTurns == old(limit.refusedTurns)
    {
      var call := calls[k];
      if summary {
        b := b.(results := b.results + [Refuse(call.id, c.say(ToolsDisabled))]);
      } else if call.name == "ask" && !OnlyAsks(calls) && c.askAllowed {
        b := b.(results := b.results + [Refuse(call.id, c.say(AskedBesideOthers))]);
      } else if limit != null && limit.used >= limit.limit {
        b := b.(results := b.results + [Refuse(call.id, c.say(AtCap(limit.limit)))], refused := true);
      } else {
        s.toolCalls := s.toolCalls + 1;
        if limit != null { limit.used := limit.used + 1; }
        b := b.(ran := b.ran + 1);
        match t.tools(k) {
          case Gave(content, isError, image) =>
            b := b.(results := b.results + [ToolResult(call.id, Str(content), isError, image)]);
          case Threw =>
            b := b.(ending := Raised);
            StoppedBatch(calls, k + 1, |calls|, d);
            return;
          case Interrupted =>
            b := b.(ending := Cancelled);
            StoppedBatch(calls, k + 1, |calls|, d);
            return;
        }
      }
    }
  }

  ghost function DeskOf(l: Limits, onlyAsks: bool, t: Turn, c: Config, summary: bool): Desk
  {
    Desk(t.tools, l.callCap, l.callsUsed, summary, onlyAsks, c.askAllowed, c.say)
  }

  /** A batch that has stopped stays as it is. */
  lemma {:induction false} StoppedBatch(calls: seq<Call>, k: nat, n: nat, d: Desk)
    requires k <= n <= |calls| && RunCalls(calls, k, d).ending != Returned
    ensures RunCalls(calls, n, d) == RunCalls(calls, k, d)
  {
    if k < n { StoppedBatch(calls, k, n - 1, d); }
  }

  /** Run the calls of a reply, and answer every one of them whatever happened. */
  method AnswerCalls(
    s: Session, limit: ToolCallLimit?, ghost cutoffs: CutoffLimit?, reply: Reply, t: Turn, c: Config, summary: bool)
    returns (b: Batch, results: seq<Block>)
    modifies s`toolCalls, s`messages, limit
    ensures b == BatchOf(CallsIn(reply.content), reply, old(LimitsOf(limit, cutoffs)), t, c, summary)
    ensures |b.results| <= |CallIds(reply.content)|
    ensures results == ResultsOf(CallsIn(reply.content), CallIds(reply.content), b, reply.stop, c.say)
    ensures s.toolCalls == old(s.toolCalls) + b.ran
    ensures s.messages == old(s.messages) + [Message(User, results)]
    ensures LimitsOf(limit, cutoffs) == CountCalls(old(LimitsOf(limit, cutoffs)), b)
  {
    hide RunCalls;
    var calls := CallsIn(reply.content);
    var ids := CallIds(reply.content);
    if IsUnfinished(reply.stop) {
      b := NoneRun(ids, reply.stop, c.say);
    } else {
      b := DispatchCalls(s, calls, limit, t, c, summary);
      if b.refused && b.ending == Returned && limit != null { limit.refusedTurns := limit.refusedTurns + 1; }
    }
    BatchFits(calls, reply, old(LimitsOf(limit, cutoffs)), t, c, summary);
    results := ResultsOf(calls, ids, b, reply.stop, c.say);
    s.messages := s.messages + [Message(User, results)];
  }

  /** What a reply with calls does. */
  method TakeCalls(
    s: Session, limit: ToolCallLimit?, ghost cutoffs: CutoffLimit?, reply: Reply, corrected: bool, t: Turn,
    c: Config, summary: bool)
    returns (ending: Ending)
    modifies s, limit
    ensures Stepped(s.Snapshot(), LimitsOf(limit, cutoffs), ending)
            == CallsOf(old(s.Snapshot()), old(LimitsOf(limit, cutoffs)), reply, corrected, t, c, summary)
  {
    hide BatchOf;
    hide ResultsOf;
    hide CountCalls;
    hide LimitsOf;
    hide Appended;
    hide AnyError;
    hide OnlyAsks;
    hide IsUnfinished;
    hide CallsIn;
    hide CallIds;
    var b, results := AnswerCalls(s, limit, cutoffs, reply, t, c, summary);
    if b.ending != Returned { return b.ending; }
    if IsUnfinished(reply.stop) && corrected {
      s.AppendUserText(c.say(CutOff(reply.stop, true)));
    } else if IsUnfinished(reply.stop) {
      s.status := Error;
    } else if OnlyAsks(CallsIn(reply.content)) && !AnyError(results) {
      s.status := Blocked;
    }
    ending := Returned;
  }

  /** Keep a reply: its usage, its count, and its content. */
  method TakeReply(s: Session, cutoffs: CutoffLimit?, reply: Reply, ghost limit: ToolCallLimit?)
    returns (corrected: bool)
    modifies s, cutoffs
    ensures corrected == IsCorrected(old(LimitsOf(limit, cutoffs)), reply.stop)
    ensures s.Snapshot() == KeptReply(old(s.Snapshot()), reply, corrected)
    ensures LimitsOf(limit, cutoffs) == CountCutoff(old(LimitsOf(limit, cutoffs)), reply.stop)
  {
    s.usage := s.usage.Plus(reply.usage);
    s.turns := s.turns + 1;
    corrected := false;
    if IsCutoff(reply.stop) {
      s.cutoffs := s.cutoffs + 1;
      if cutoffs != null {
        corrected := cutoffs.used < cutoffs.limit;
        cutoffs.used := cutoffs.used + 1;
      }
    }
    if !(corrected && reply.content == []) {
      s.messages := s.messages + [Message(Assistant, reply.content)];
    }
  }

  /** Keep a reply and act on it. */
  method ActOnReply(
    s: Session, limit: ToolCallLimit?, cutoffs: CutoffLimit?, reply: Reply, t: Turn, c: Config, summary: bool)
    returns (ending: Ending)
    modifies s, limit, cutoffs
    ensures Stepped(s.Snapshot(), LimitsOf(limit, cutoffs), ending)
            == ReplyOf(old(s.Snapshot()), old(LimitsOf(limit, cutoffs)), reply, t, c, summary)
  {
    hide AnswerOf;
    hide CallsOf;
    hide KeptReply;
    hide LimitsOf;
    hide CountCutoff;
    hide IsCorrected;
    hide FinalText;
    var corrected := TakeReply(s, cutoffs, reply, limit);
    if c.schema.Some? && !c.hasCheck && c.schema.value(FinalText(reply.content)).Broken? { return Raised; }
    s.stopReason := Some(Ended(reply.stop));
    if CallsIn(reply.content) == [] {
      ending := TakeAnswer(s, reply, corrected, t, c, summary);
    } else {
      ending := TakeCalls(s, limit, cutoffs, reply, corrected, t, c, summary);
    }
  }

  /** One turn of the loop. */
  method Step(
    s: Session, limit: ToolCallLimit?, cutoffs: CutoffLimit?, t: Turn, c: Config, e: Measure, summary: bool)
    returns (ending: Ending)
    modifies s, limit, cutoffs
    ensures Stepped(s.Snapshot(), LimitsOf(limit, cutoffs), ending)
            == StepOf(old(s.Snapshot()), old(LimitsOf(limit, cutoffs)), t, c, e, summary)
  {
    hide Compact;
    hide AskFrom;
    hide ReplyOf;
    hide LimitsOf;
    var _ := CompactSession(s, e);
    if e.estimate(s.messages) >= e.window as real {
      s.status := Error;
      s.stopReason := Some(ContextFull);
      return Returned;
    }
    var asked := WithRetries(s, t.model, c.retry);
    if asked.reply.None? { return asked.ending; }
    ending := ActOnReply(s, limit, cutoffs, asked.reply.value, t, c, summary);
  }

  method ReadInbox(s: Session, inbox: seq<string>)
    modifies s`messages
    ensures s.Snapshot() == Inboxed(old(s.Snapshot()), inbox)
  {
    for i := 0 to |inbox|
      invariant s.Snapshot() == Inboxed(old(s.Snapshot()), inbox[..i])
    {
      assert inbox[..i + 1][..i] == inbox[..i];
      s.AppendUserText(inbox[i]);
    }
    assert inbox[..|inbox|] == inbox;
  }

  /** Say that the turns are running out, where that is worth saying. */
  method Warn(s: Session, remaining: int, c: Config)
    modifies s`messages
    ensures s.Snapshot() == Warned(old(s.Snapshot()), remaining, c)
  {
    if remaining <= 0 {
      s.AppendUserText(c.say(TurnLimit));
    } else if remaining <= 5 && c.hasTools {
      s.AppendUserText(c.say(TurnsLeft(remaining)));
    }
  }

  /** Act on a turn that is over: its failure, the budget, the tool call limit, the summary. */
  method Settle(
    s: Session, limit: ToolCallLimit?, ghost cutoffs: CutoffLimit?, ending: Ending, c: Config, summary: bool)
    modifies s`status, s`stopReason
    ensures s.Snapshot()
            == Settled(Stepped(old(s.Snapshot()), LimitsOf(limit, cutoffs), ending), c, summary)
  {
    if ending == Raised {
      s.status := Error;
      s.stopReason := None;
    } else if ending == Returned {
      if s.status != Done && s.status != Blocked {
        var _ := CheckBudget(s, c);
      }
      if s.status == Working && limit != null && limit.refusedTurns > 1 {
        s.status := Error;
        s.stopReason := Some(ToolCalls);
      }
    }
    if summary {
      s.status := Error;
      s.stopReason := Some(MaxTurns);
    }
  }

  /** One pass of the run's loop. */
  method RunTurn(
    s: Session, limit: ToolCallLimit?, cutoffs: CutoffLimit?, t: Turn, from: nat, c: Config, window: nat)
    returns (ending: Ending, ghost opening: Option<Opening>)
    modifies s, limit, cutoffs
    ensures Pass(s.Snapshot(), LimitsOf(limit, cutoffs), ending, opening)
            == PassOf(old(s.Snapshot()), old(LimitsOf(limit, cutoffs)), t, from, c, window)
  {
    hide StepOf;
    hide Settled;
    hide Inboxed;
    hide Warned;
    hide LimitsOf;
    ReadInbox(s, t.inbox);
    var spent := CheckBudget(s, c);
    if spent { return Returned, None; }
    var remaining := c.maxTurns - (s.turns - from);
    var summary := remaining <= 0;
    Warn(s, remaining, c);
    opening := Some(Opening(s.Snapshot(), LimitsOf(limit, cutoffs), summary, t));
    ending := Step(s, limit, cutoffs, t, c, MeasureOf(c, t, window), summary);
    Settle(s, limit, cutoffs, ending, c, summary);
  }

  /** Turns until the session is finished or the run is cancelled. */
  method RunTurns(
    s: Session, limit: ToolCallLimit?, cutoffs: CutoffLimit?, c: Config, window: nat, turns: nat -> Turn)
    returns (ending: Ending, ghost openings: seq<Opening>)
    modifies s, limit, cutoffs
    ensures Finish(s.Snapshot(), LimitsOf(limit, cutoffs), ending, openings)
            == TurnsFrom(old(s.Snapshot()), old(LimitsOf(limit, cutoffs)), 0, old(s.turns), c, window, turns)
  {
    hide PassOf;
    hide TurnsFrom;
    hide Left;
    hide LimitsOf;
    hide Started;
    hide After;
    ghost var whole := TurnsFrom(s.Snapshot(), LimitsOf(limit, cutoffs), 0, s.turns, c, window, turns);
    var from := s.turns;
    var n: nat := 0;
    openings := [];
    AfterNone(whole);
    while s.status == Working
      invariant whole == After(openings, TurnsFrom(s.Snapshot(), LimitsOf(limit, cutoffs), n, from, c, window, turns))
      decreases Left(s.Snapshot(), from, c)
    {
      LeftFalls(s.Snapshot(), LimitsOf(limit, cutoffs), turns(n), from, c, window);
      TurnsUnfold(s.Snapshot(), LimitsOf(limit, cutoffs), n, from, c, window, turns);
      ghost var opening;
      ghost var before := openings;
      ending, opening := RunTurn(s, limit, cutoffs, turns(n), from, c, window);
      openings := openings + Started(opening);
      if ending == Cancelled {
        AfterIs(before, Finish(s.Snapshot(), LimitsOf(limit, cutoffs), Cancelled, Started(opening)));
        return;
      }
      AfterJoins(
        before, Started(opening), TurnsFrom(s.Snapshot(), LimitsOf(limit, cutoffs), n + 1, from, c, window, turns));
      n := n + 1;
    }
    TurnsUnfold(s.Snapshot(), LimitsOf(limit, cutoffs), n, from, c, window, turns);
    AfterIs(openings, Finish(s.Snapshot(), LimitsOf(limit, cutoffs), Returned, []));
    assert openings + [] == openings;
    ending := Returned;
  }

  ghost function After(openings: seq<Opening>, f: Finish): Finish
  {
    f.(openings := openings + f.openings)
  }

  lemma AfterJoins(a: seq<Opening>, b: seq<Opening>, f: Finish)
    ensures After(a, f.(openings := b + f.openings)) == After(a + b, f)
  {
    assert a + (b + f.openings) == a + b + f.openings;
  }

  lemma AfterNone(f: Finish)
    ensures After([], f) == f
  {
    assert [] + f.openings == f.openings;
  }

  lemma AfterIs(a: seq<Opening>, f: Finish)
    ensures After(a, f) == f.(openings := a + f.openings)
  {
  }

  /** What a run asks the backend before its first turn. */
  method Discover(s: Session, c: Config, d: Discovery) returns (window: Option<nat>)
    modifies s`status, s`stopReason
    ensures window == if d.Unreachable? then None else Some(WindowOf(c, d))
    ensures s.Snapshot() == if d.Unreachable? then Failing(old(s.Snapshot()), None) else old(s.Snapshot())
  {
    if d.Unreachable? {
      s.status := Error;
      s.stopReason := None;
      return None;
    }
    if c.window.Some? { return c.window; }
    window := if d.window.Some? then d.window else Some(DEFAULT_WINDOW);
  }

  /** State the schema and the drop of thinking that a changed tool set calls for. */
  method Prepare(s: Session, w: World)
    modifies s`messages
    ensures s.Snapshot() == Prepared(old(s.Snapshot()), w)
  {
    hide Appended;
    if w.statement.Some? { s.AppendUserText(w.statement.value); }
    if w.toolsChanged { var _ := s.DropSignedThinking(); }
  }

  method NewLimits(c: Config) returns (limit: ToolCallLimit?, cutoffs: CutoffLimit?)
    ensures fresh({limit, cutoffs} - {null})
    ensures LimitsOf(limit, cutoffs) == FreshLimits(c)
  {
    limit, cutoffs := null, null;
    if c.maxToolCalls.Some? { limit := new ToolCallLimit(c.maxToolCalls.value); }
    if c.maxCutoffs.Some? { cutoffs := new CutoffLimit(c.maxCutoffs.value); }
  }

  /** Advance a session to a terminal status, unless the run is cancelled. */
  method Run(s: Session, c: Config, w: World) returns (ending: Ending, ghost openings: seq<Opening>)
    modifies s
    ensures var f := RunOf(old(s.Snapshot()), c, w);
            s.Snapshot() == f.state && ending == f.ending && openings == f.openings
  {
    hide TurnsFrom;
    hide LimitsOf;
    hide Prepared;
    ending, openings := Returned, [];
    if s.status == Working {
      var spent := CheckBudget(s, c);
      if spent { return; }
    }
    var window := Discover(s, c, w.discovered);
    if window.None? { return; }
    Prepare(s, w);
    var limit, cutoffs := NewLimits(c);
    ending, openings := RunTurns(s, limit, cutoffs, c, window.value, w.turns);
  }
}
