/** One turn of the agent loop: the model request with its retries, the calls of a reply, and
    what a final answer does to the session. Replies, tool outcomes and checks are oracles. */
module AgentTurn {
  import opened Wrappers
  import opened Transcript
  import opened SessionModel
  import opened Compaction
  import opened Corrections

  /** How an operation ended: normally, by an exception, or by cancellation. */
  datatype Ending = Returned | Raised | Cancelled

  // ---- the model request ----

  datatype Reply = Reply(content: seq<Block>, stop: TurnEnd, usage: Usage)

  /** Why a failed request is worth resending as it was. */
  datatype Transient = Transient(retryAfter: Option<real>)

  /** What one attempt does. A failure that is resent is waited for, and the wait can itself
      be cancelled. */
  datatype Attempt =
    | Replied(reply: Reply)
    | Broke(found: Option<Transient>, waitCancelled: bool)
    | Aborted

  datatype RetryPolicy = RetryPolicy(retries: nat, seconds: real)

  const FIRST_WAIT := 2.0
  const MAX_WAIT := 30.0

  function Doubled(k: nat): (r: real)
    ensures r >= FIRST_WAIT
  {
    if k == 0 then FIRST_WAIT else 2.0 * Doubled(k - 1)
  }

  /** Exponential from 2 seconds, capped at 30; the server's word lengthens it. */
  function WaitBefore(attempt: nat, found: Transient): (wait: real)
    requires attempt >= 1
    ensures wait >= FIRST_WAIT
  {
    var wait := if Doubled(attempt - 1) < MAX_WAIT then Doubled(attempt - 1) else MAX_WAIT;
    if found.retryAfter.Some? && found.retryAfter.value > wait then found.retryAfter.value else wait
  }

  /** The end of a request: its reply, how often it was resent, and how long that waited. */
  datatype Asked = Asked(ending: Ending, reply: Option<Reply>, made: nat, waited: real)

  type Model = (seq<Message>, nat) -> Attempt

  function AskFrom(model: Model, history: seq<Message>, p: RetryPolicy, made: nat, waited: real): (r: Asked)
    requires made <= p.retries
    ensures r.ending == Returned <==> r.reply.Some?
    decreases p.retries - made
  {
    match model(history, made)
    case Replied(reply) => Asked(Returned, Some(reply), made, waited)
    case Aborted => Asked(Cancelled, None, made, waited)
    case Broke(found, waitCancelled) =>
      if found.None? || made >= p.retries then Asked(Raised, None, made, waited)
      else
        var wait := WaitBefore(made + 1, found.value);
        if waited + wait > p.seconds then Asked(Raised, None, made, waited)
        else if waitCancelled then Asked(Cancelled, None, made + 1, waited + wait)
        else AskFrom(model, history, p, made + 1, waited + wait)
  }

  // ---- the calls of a reply ----

  datatype Call = Call(id: string, name: string)

  /** A reply's calls are its tool_use blocks, in order. */
  function CallsIn(content: seq<Block>): (calls: seq<Call>)
    ensures |calls| == |CallIds(content)|
    ensures forall i :: 0 <= i < |calls| ==> calls[i].id == CallIds(content)[i]
  {
    if content == [] then []
    else (if content[0].ToolUse? then [Call(content[0].id, content[0].name)] else []) + CallsIn(content[1..])
  }

  /** What running one call does. */
  datatype ToolOutcome = Gave(content: string, isError: bool, image: Option<string>) | Threw | Interrupted

  /** The limits of one invocation, and what it has used of them. */
  datatype Limits = Limits(
    callCap: Option<nat>, callsUsed: nat, refusedTurns: nat, cutoffCap: Option<nat>, cutoffsUsed: nat)

  /** What nare tells the model; the wording is a parameter. */
  datatype Notice =
    | ToolsDisabled | AskedBesideOthers | AskNotDelivered | AtCap(limit: nat) | NotRun(stop: TurnEnd)
    | DispatchFailed | InterruptedByUser
    | CutOff(stop: TurnEnd, callsNotRun: bool) | AskInstead | ReadsOwed(gaps: seq<string>) | Fix(grant: Grant)
    | TurnLimit | TurnsLeft(left: nat)

  type Wording = Notice -> string

  function Refuse(id: string, why: string): Block
  {
    ToolResult(id, Str(why), true, None)
  }

  /** What decides a call's fate besides its name. */
  datatype Desk = Desk(
    tools: nat -> ToolOutcome, cap: Option<nat>, used: nat, summary: bool, onlyAsks: bool, askAllowed: bool,
    say: Wording)

  /** The calls of a turn so far: their results, how many ran, and whether one was refused at
      the cap. */
  datatype Batch = Batch(results: seq<Block>, ran: nat, refused: bool, ending: Ending)

  function OneCall(b: Batch, call: Call, k: nat, d: Desk): Batch
  {
    if d.summary then b.(results := b.results + [Refuse(call.id, d.say(ToolsDisabled))])
    else if call.name == "ask" && !d.onlyAsks && d.askAllowed then
      b.(results := b.results + [Refuse(call.id, d.say(AskedBesideOthers))])
    else if d.cap.Some? && d.used + b.ran >= d.cap.value then
      b.(results := b.results + [Refuse(call.id, d.say(AtCap(d.cap.value)))], refused := true)
    else
      match d.tools(k)
      case Gave(content, isError, image) =>
        b.(results := b.results + [ToolResult(call.id, Str(content), isError, image)], ran := b.ran + 1)
      case Threw => b.(ran := b.ran + 1, ending := Raised)
      case Interrupted => b.(ran := b.ran + 1, ending := Cancelled)
  }

  /** The first n calls, in order, up to the first that raises or is cancelled. */
  function RunCalls(calls: seq<Call>, n: nat, d: Desk): Batch
    requires n <= |calls|
  {
    if n == 0 then Batch([], 0, false, Returned)
    else
      var b := RunCalls(calls, n - 1, d);
      if b.ending != Returned then b else OneCall(b, calls[n - 1], n - 1, d)
  }

  predicate OnlyAsks(calls: seq<Call>)
  {
    forall i :: 0 <= i < |calls| ==> calls[i].name == "ask"
  }

  predicate IsError(b: Block)
  {
    b.ToolResult? && b.isError
  }

  predicate AnyError(results: seq<Block>)
  {
    exists i :: 0 <= i < |results| && IsError(results[i])
  }

  /** No ask of the turn was delivered: those that succeeded say so. */
  function NotDelivered(results: seq<Block>, say: Wording): (r: seq<Block>)
    ensures |r| == |results|
  {
    seq(|results|, i requires 0 <= i < |results| =>
      if results[i].ToolResult? && !results[i].isError then Refuse(results[i].id, say(AskNotDelivered)) else results[i])
  }

  /** Every call gets an answer, even when dispatch died part way. */
  function AnswersFor(ids: seq<string>, b: Batch, say: Wording): seq<Block>
    requires |b.results| <= |ids|
  {
    var why := say(if b.ending == Cancelled then InterruptedByUser else DispatchFailed);
    b.results + ErrorResults(ids[|b.results|..], why)
  }

  // ---- the configuration of a run, and what one turn meets ----

  datatype TokenBudget = TokenBudget(tokens: Option<nat>, usd: Option<real>)
  {
    predicate Exhausted(u: Usage)
    {
      || (tokens.Some? && u.Total() >= tokens.value)
      || (usd.Some? && (u.cost.None? || u.cost.value >= usd.value))
    }
  }

  /** A verdict on an answer: its errors and whether it is JSON at all, or the validator (or
      the caller's check) raised. */
  datatype Verdict = Judged(errors: seq<string>, parses: bool) | Broken

  datatype Config = Config(
    budget: TokenBudget,
    images: bool,
    window: Option<nat>,
    retry: RetryPolicy,
    maxTurns: int,
    maxToolCalls: Option<nat>,
    maxCutoffs: Option<nat>,
    maxCorrections: nat,
    schema: Option<string -> Verdict>,
    hasCheck: bool,
    say: Wording,
    hasTools: bool,
    askAllowed: bool,
    questionNudge: bool,
    asksInProse: string -> bool)

  /** What one turn meets from outside: the person's messages, the size estimate (which moves
      with the last reply's reported input), the model, the tools by position, the caller's
      check, and the reads still owed. */
  datatype Turn = Turn(
    inbox: seq<string>,
    estimate: seq<Message> -> real,
    model: Model,
    tools: nat -> ToolOutcome,
    check: string -> Verdict,
    gaps: seq<string>)

  // ---- a final answer ----

  function Joined(parts: seq<string>, between: string): string
  {
    if parts == [] then ""
    else if |parts| == 1 then parts[0]
    else parts[0] + between + Joined(parts[1..], between)
  }

  function Texts(content: seq<Block>): seq<string>
  {
    if content == [] then []
    else (if content[0].Text? then [content[0].text] else []) + Texts(content[1..])
  }

  function FinalText(content: seq<Block>): string
  {
    Joined(Texts(content), "\n")
  }

  predicate HasThinking(content: seq<Block>)
  {
    exists i :: 0 <= i < |content| && content[i].Thinking?
  }

  predicate IsCutoff(stop: TurnEnd)
  {
    stop == MaxTokens || stop == Repetition
  }

  predicate IsUnfinished(stop: TurnEnd)
  {
    IsCutoff(stop) || stop == Refusal
  }

  predicate IsWrite(ms: seq<Message>, id: string)
  {
    exists i :: 0 <= i < |ms| && ms[i].role == Assistant && CallsWrite(ms[i].content, id)
  }

  predicate CallsWrite(content: seq<Block>, id: string)
  {
    exists j :: 0 <= j < |content| && content[j].ToolUse? && content[j].id == id && content[j].name in ["write", "edit"]
  }

  predicate ReportsWrite(ms: seq<Message>, content: seq<Block>)
  {
    exists j :: 0 <= j < |content| && content[j].ToolResult? && !content[j].isError && IsWrite(ms, content[j].id)
  }

  /** Whether a write or edit has succeeded in this session. */
  predicate WroteAFile(ms: seq<Message>)
  {
    exists i :: 0 <= i < |ms| && ms[i].role == User && ReportsWrite(ms, ms[i].content)
  }

  predicate Nudges(s: State, text: string, c: Config, summary: bool)
  {
    && c.questionNudge && !summary && !s.askNudged && c.askAllowed
    && !WroteAFile(s.messages) && c.asksInProse(text)
  }

  function Failing(s: State, stop: Option<StopReason>): State
  {
    s.(status := Error, stop := stop)
  }

  function Saying(s: State, text: string): State
  {
    s.(messages := Appended(s.messages, text))
  }

  /** Hold a final answer that rests on reads the run still owes: another turn if a correction
      is granted, otherwise the end of the run. */
  function Held(s: State, gaps: seq<string>, c: Config): State
  {
    var charge := ChargeOf(s.corrections.(retried := false), gaps, c.maxCorrections, false, ReadsCorrection);
    var s' := s.(corrections := charge.record);
    if charge.grant.None? then Failing(s', Some(ReadsRequired)) else Saying(s', c.say(ReadsOwed(gaps)))
  }

  function Accepted(s: State, gaps: seq<string>, c: Config): State
  {
    if gaps == [] then s.(status := Done) else Held(s, gaps, c)
  }

  function Corrected(s: State, errors: seq<string>, parses: bool, c: Config): State
  {
    var charge := ChargeOf(s.corrections, errors, c.maxCorrections, parses, SchemaCorrection);
    var s' := s.(corrections := charge.record);
    if charge.grant.None? then Failing(s', Some(SchemaViolation)) else Saying(s', c.say(Fix(charge.grant.value)))
  }

  datatype Judgement = Judgement(state: State, ending: Ending)

  /** An answer under a schema: the schema's verdict, then the caller's check, then the reads. */
  function SchemaAnswer(s: State, text: string, verdict: Verdict, t: Turn, c: Config): Judgement
  {
    if verdict.Broken? then Judgement(s, Raised)
    else if verdict.errors != [] then Judgement(Corrected(s, verdict.errors, verdict.parses, c), Returned)
    else if !verdict.parses then Judgement(s, Raised)
    else if c.hasCheck && t.check(text).Broken? then Judgement(Failing(s, None), Returned)
    else if c.hasCheck && t.check(text).errors != [] then
      Judgement(Corrected(s, t.check(text).errors, true, c), Returned)
    else Judgement(Accepted(s, t.gaps, c), Returned)
  }

  /** A reply that called no tool. */
  function AnswerOf(s: State, reply: Reply, corrected: bool, t: Turn, c: Config, summary: bool): Judgement
  {
    var text := FinalText(reply.content);
    if IsUnfinished(reply.stop) then
      Judgement(if corrected then Saying(s, c.say(CutOff(reply.stop, false))) else s.(status := Error), Returned)
    else if text == "" && HasThinking(reply.content) then Judgement(Failing(s, Some(NoAnswer)), Returned)
    else if c.schema.None? then
      if Nudges(s, text, c, summary) then Judgement(Saying(s.(askNudged := true), c.say(AskInstead)), Returned)
      else Judgement(Accepted(s, t.gaps, c), Returned)
    else if summary then Judgement(s, Returned)
    else SchemaAnswer(s, text, c.schema.value(text), t, c)
  }

  // ---- a reply with calls ----

  datatype Stepped = Stepped(state: State, limits: Limits, ending: Ending)

  /** The calls of a turn that was cut off or refused do not run. */
  function NoneRun(ids: seq<string>, stop: TurnEnd, say: Wording): Batch
  {
    Batch(ErrorResults(ids, say(NotRun(stop))), 0, false, Returned)
  }

  function BatchOf(calls: seq<Call>, reply: Reply, l: Limits, t: Turn, c: Config, summary: bool): Batch
  {
    if IsUnfinished(reply.stop) then NoneRun(CallIds(reply.content), reply.stop, c.say)
    else RunCalls(calls, |calls|, Desk(t.tools, l.callCap, l.callsUsed, summary, OnlyAsks(calls), c.askAllowed, c.say))
  }

  /** The results as the model is sent them. */
  function ResultsOf(calls: seq<Call>, ids: seq<string>, b: Batch, stop: TurnEnd, say: Wording): seq<Block>
    requires |b.results| <= |ids|
  {
    var results := AnswersFor(ids, b, say);
    if OnlyAsks(calls) && AnyError(results) && !IsUnfinished(stop) then NotDelivered(results, say) else results
  }

  function CountCalls(l: Limits, b: Batch): Limits
  {
    l.(callsUsed := if l.callCap.Some? then l.callsUsed + b.ran else l.callsUsed,
       refusedTurns :=
         if b.refused && b.ending == Returned && l.callCap.Some? then l.refusedTurns + 1 else l.refusedTurns)
  }

  /** What a finished batch makes of the session. */
  function AfterCalls(s: State, reply: Reply, corrected: bool, asked: bool, say: Wording): State
  {
    if IsUnfinished(reply.stop) then
      if corrected then Saying(s, say(CutOff(reply.stop, true))) else s.(status := Error)
    else if asked then s.(status := Blocked)
    else s
  }

  lemma BatchFits(calls: seq<Call>, reply: Reply, l: Limits, t: Turn, c: Config, summary: bool)
    requires calls == CallsIn(reply.content)
    ensures |BatchOf(calls, reply, l, t, c, summary).results| <= |CallIds(reply.content)|
  {
    if !IsUnfinished(reply.stop) {
      RunCallsFit(calls, |calls|, Desk(t.tools, l.callCap, l.callsUsed, summary, OnlyAsks(calls), c.askAllowed, c.say));
    }
  }

  /** The results answer the first of these calls, in order. */
  ghost predicate ResultsFor(results: seq<Block>, calls: seq<Call>)
  {
    && |results| <= |calls|
    && forall i :: 0 <= i < |results| ==> results[i].ToolResult? && results[i].id == calls[i].id
  }

  lemma OneCallFits(b: Batch, calls: seq<Call>, n: nat, d: Desk)
    requires n < |calls| && |b.results| == n && ResultsFor(b.results, calls)
    ensures ResultsFor(OneCall(b, calls[n], n, d).results, calls)
  {
  }

  /** A batch answers a prefix of the calls, the whole of what it was given unless it was
      stopped, and runs no call past the cap, nor any for a summary. */
  lemma {:induction false} RunCallsFit(calls: seq<Call>, n: nat, d: Desk)
    requires n <= |calls|
    ensures var b := RunCalls(calls, n, d);
            && ResultsFor(b.results, calls) && |b.results| <= n
            && (b.ending == Returned ==> |b.results| == n)
            && b.ran <= n
            && (d.cap.Some? ==> b.ran == 0 || d.used + b.ran <= d.cap.value)
            && (d.summary ==> b.ran == 0 && !b.refused && b.ending == Returned)
  {
    if n > 0 {
      RunCallsFit(calls, n - 1, d);
      var b := RunCalls(calls, n - 1, d);
      if b.ending == Returned { OneCallFits(b, calls, n - 1, d); }
    }
  }

  function CallsOf(s: State, l: Limits, reply: Reply, corrected: bool, t: Turn, c: Config, summary: bool): Stepped
  {
    var ids := CallIds(reply.content);
    var calls := CallsIn(reply.content);
    var b := BatchOf(calls, reply, l, t, c, summary);
    BatchFits(calls, reply, l, t, c, summary);
    var results := ResultsOf(calls, ids, b, reply.stop, c.say);
    var s' := s.(toolCalls := s.toolCalls + b.ran, messages := s.messages + [Message(User, results)]);
    if b.ending != Returned then Stepped(s', CountCalls(l, b), b.ending)
    else
      var asked := OnlyAsks(calls) && !AnyError(results);
      Stepped(AfterCalls(s', reply, corrected, asked, c.say), CountCalls(l, b), Returned)
  }

  // ---- the step ----

  predicate IsCorrected(l: Limits, stop: TurnEnd)
  {
    IsCutoff(stop) && l.cutoffCap.Some? && l.cutoffsUsed < l.cutoffCap.value
  }

  function CountCutoff(l: Limits, stop: TurnEnd): Limits
  {
    if IsCutoff(stop) && l.cutoffCap.Some? then l.(cutoffsUsed := l.cutoffsUsed + 1) else l
  }

  /** The reply kept: its usage counted, and its content, unless it is an empty one that will
      be corrected. */
  function KeptReply(s: State, reply: Reply, corrected: bool): State
  {
    s.(usage := s.usage.Plus(reply.usage),
       turns := s.turns + 1,
       cutoffs := if IsCutoff(reply.stop) then s.cutoffs + 1 else s.cutoffs,
       messages :=
         if corrected && reply.content == [] then s.messages else s.messages + [Message(Assistant, reply.content)])
  }

  /** Without a check, each reply's text is validated as it arrives, before its calls are
      answered; a validator that raises there leaves them open. */
  predicate ScreenBreaks(reply: Reply, c: Config)
  {
    c.schema.Some? && !c.hasCheck && c.schema.value(FinalText(reply.content)).Broken?
  }

  function ReplyOf(s: State, l: Limits, reply: Reply, t: Turn, c: Config, summary: bool): Stepped
  {
    var corrected := IsCorrected(l, reply.stop);
    var l' := CountCutoff(l, reply.stop);
    var kept := KeptReply(s, reply, corrected);
    if ScreenBreaks(reply, c) then Stepped(kept, l', Raised)
    else
      var s' := kept.(stop := Some(Ended(reply.stop)));
      if CallsIn(reply.content) == [] then
        var judged := AnswerOf(s', reply, corrected, t, c, summary);
        Stepped(judged.state, l', judged.ending)
      else CallsOf(s', l', reply, corrected, t, c, summary)
  }

  /** One turn: compact, ask the model, and act on its reply. */
  function StepOf(s: State, l: Limits, t: Turn, c: Config, e: Measure, summary: bool): Stepped
  {
    var s1 := s.(messages := Compact(s.messages, e).messages);
    if e.estimate(s1.messages) >= e.window as real then Stepped(Failing(s1, Some(ContextFull)), l, Returned)
    else
      var asked := AskFrom(t.model, Sent(s1.messages), c.retry, 0, 0.0);
      var s2 := s1.(retries := s1.retries + asked.made);
      if asked.reply.None? then Stepped(s2, l, asked.ending)
      else ReplyOf(s2, l, asked.reply.value, t, c, summary)
  }
}
