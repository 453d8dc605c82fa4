/** What becomes of each call of a reply, said of the call and its tool. */
module CallOutcomes {
  import opened Wrappers
  import opened Transcript
  import opened SessionModel
  import opened Corrections
  import opened AgentTurn
  import opened TurnLaws

  predicate IsBeside(call: Call, d: Desk)
  {
    call.name == "ask" && !d.onlyAsks && d.askAllowed
  }

  /** The calls before this one that are not asks beside others have used the cap up. */
  predicate IsPastCap(calls: seq<Call>, i: nat, d: Desk)
    requires i < |calls|
  {
    d.cap.Some? && d.used + i - AsksBeside(calls, i, d) >= d.cap.value
  }

  predicate Runs(calls: seq<Call>, i: nat, d: Desk)
    requires i < |calls|
  {
    !d.summary && !IsBeside(calls[i], d) && !IsPastCap(calls, i, d)
  }

  /** A call that runs is answered with what its tool gave, image included; any other with an
      error that says which rule kept it from running. */
  predicate IsResultOf(x: Block, calls: seq<Call>, i: nat, d: Desk)
    requires i < |calls|
  {
    var id := calls[i].id;
    if Runs(calls, i, d) then
      var given := d.tools(i);
      given.Gave? && x == ToolResult(id, Str(given.content), given.isError, given.image)
    else
      && x.ToolResult? && x.id == id && x.isError && x.image.None?
      && (d.summary ==> x.content == Str(d.say(ToolsDisabled)))
      && (!d.summary && IsBeside(calls[i], d) ==> x.content == Str(d.say(AskedBesideOthers)))
      && (!d.summary && !IsBeside(calls[i], d) ==> d.cap.Some? && x.content == Str(d.say(AtCap(d.cap.value))))
  }

  function Smaller(a: int, b: int): int
  {
    if a < b then a else b
  }

  /** How many of the first n calls run, when none of them stops the batch. */
  function RunBefore(calls: seq<Call>, n: nat, d: Desk): int
    requires n <= |calls|
  {
    if d.summary then 0
    else if d.cap.None? then n - AsksBeside(calls, n, d)
    else if d.used >= d.cap.value then 0
    else Smaller(n - AsksBeside(calls, n, d), d.cap.value - d.used)
  }

  lemma {:induction false} AsksAmong(calls: seq<Call>, n: nat, d: Desk)
    requires n <= |calls|
    ensures AsksBeside(calls, n, d) <= n
  {
    if n > 0 { AsksAmong(calls, n - 1, d); }
  }

  lemma {:induction false} RanIs(calls: seq<Call>, n: nat, d: Desk)
    requires n <= |calls| && RunCalls(calls, n, d).ending == Returned
    ensures RunCalls(calls, n, d).ran == RunBefore(calls, n, d)
  {
    AsksAmong(calls, n, d);
    if n > 0 {
      AsksAmong(calls, n - 1, d);
      RanIs(calls, n - 1, d);
    }
  }

  /** How a batch of the first n calls went: each call it got to is answered as its tool or the
      rules say, it is stopped by exactly the first call that runs and gives no result, and that
      one counts as run too. */
  ghost predicate WentSo(b: Batch, calls: seq<Call>, n: nat, d: Desk)
    requires n <= |calls|
  {
    && |b.results| <= n
    && (forall i :: 0 <= i < |b.results| ==> IsResultOf(b.results[i], calls, i, d))
    && (b.ending == Returned <==> |b.results| == n)
    && (|b.results| < n ==>
          var k := |b.results|;
          Runs(calls, k, d) && (if b.ending == Raised then d.tools(k).Threw? else d.tools(k).Interrupted?))
    && b.ran == RunBefore(calls, |b.results|, d) + if b.ending == Returned then 0 else 1
  }

  lemma {:induction false} CallsGoAsTold(calls: seq<Call>, n: nat, d: Desk)
    requires n <= |calls|
    ensures WentSo(RunCalls(calls, n, d), calls, n, d)
  {
    hide AsksBeside;
    AsksAmong(calls, n, d);
    if n > 0 {
      CallsGoAsTold(calls, n - 1, d);
      var b := RunCalls(calls, n - 1, d);
      if b.ending == Returned {
        RanIs(calls, n - 1, d);
        AsksAmong(calls, n - 1, d);
        LastCall(b, calls, n, d);
      }
    }
  }

  lemma LastCall(b: Batch, calls: seq<Call>, n: nat, d: Desk)
    requires 0 < n <= |calls| && b.ending == Returned && WentSo(b, calls, n - 1, d)
    requires b.ran == RunBefore(calls, n - 1, d) && AsksBeside(calls, n - 1, d) <= n - 1
    ensures WentSo(OneCall(b, calls[n - 1], n - 1, d), calls, n, d)
  {
    var r := OneCall(b, calls[n - 1], n - 1, d);
    if |r.results| == n {
      assert IsResultOf(r.results[n - 1], calls, n - 1, d);
      assert forall i :: 0 <= i < n - 1 ==> r.results[i] == b.results[i];
    }
  }

  // ---- the results of a turn ----

  function DeskOf(reply: Reply, l: Limits, t: Turn, c: Config, summary: bool): Desk
  {
    Desk(t.tools, l.callCap, l.callsUsed, summary, OnlyAsks(CallsIn(reply.content)), c.askAllowed, c.say)
  }

  /** The batch of a finished reply, whose calls are run. */
  function BatchRun(reply: Reply, l: Limits, t: Turn, c: Config, summary: bool): Batch
  {
    RunCalls(CallsIn(reply.content), |CallsIn(reply.content)|, DeskOf(reply, l, t, c, summary))
  }

  predicate SomeFailed(results: seq<Block>)
  {
    exists i :: 0 <= i < |results| && results[i].ToolResult? && results[i].isError
  }

  /** What call i of a finished turn is answered with: its own result; a word that its ask was
      not delivered, when a turn of asks alone met an error; or a word on why it never ran, when
      an earlier call stopped the turn. */
  ghost predicate IsAnsweredSo(
    x: Block, i: nat, reply: Reply, l: Limits, t: Turn, c: Config, summary: bool)
    requires i < |CallsIn(reply.content)|
  {
    var calls := CallsIn(reply.content);
    var b := BatchRun(reply, l, t, c, summary);
    var undelivered := OnlyAsks(calls) && (SomeFailed(b.results) || b.ending != Returned);
    if i >= |b.results| then
      x == ToolResult(
             calls[i].id, Str(c.say(if b.ending == Cancelled then InterruptedByUser else DispatchFailed)), true, None)
    else if undelivered && b.results[i].ToolResult? && !b.results[i].isError then
      x == ToolResult(calls[i].id, Str(c.say(AskNotDelivered)), true, None)
    else IsResultOf(x, calls, i, DeskOf(reply, l, t, c, summary))
  }

  lemma AnswersAt(ids: seq<string>, b: Batch, say: Wording, i: nat)
    requires |b.results| <= |ids| && i < |ids|
    ensures var all := AnswersFor(ids, b, say);
            && |all| == |ids|
            && all[i]
               == if i < |b.results| then b.results[i]
                  else
                    ToolResult(
                      ids[i], Str(say(if b.ending == Cancelled then InterruptedByUser else DispatchFailed)), true, None)
  {
  }

  lemma AnyErrorMeans(ids: seq<string>, b: Batch, say: Wording)
    requires |b.results| <= |ids| && (b.ending == Returned <==> |b.results| == |ids|)
    ensures AnyError(AnswersFor(ids, b, say)) <==> SomeFailed(b.results) || b.ending != Returned
  {
    hide AnswersFor;
    var all := AnswersFor(ids, b, say);
    forall i | 0 <= i < |ids| ensures |all| == |ids| && IsError(all[i]) == (i >= |b.results| || IsError(b.results[i])) {
      AnswersAt(ids, b, say, i);
    }
    if |b.results| < |ids| {
      AnswersAt(ids, b, say, |b.results|);
      assert IsError(all[|b.results|]);
    } else {
      AllGiven(ids, b, say);
      assert forall i :: 0 <= i < |all| ==> IsError(all[i]) == (all[i].ToolResult? && all[i].isError);
    }
  }

  lemma AllGiven(ids: seq<string>, b: Batch, say: Wording)
    requires |b.results| == |ids|
    ensures AnswersFor(ids, b, say) == b.results
  {
  }

  lemma NotDeliveredAt(results: seq<Block>, say: Wording, i: nat)
    requires i < |results|
    ensures var x := results[i];
            NotDelivered(results, say)[i]
            == if x.ToolResult? && !x.isError then ToolResult(x.id, Str(say(AskNotDelivered)), true, None) else x
  {
  }

  /** One result as it is sent. */
  lemma ResultAt(reply: Reply, l: Limits, t: Turn, c: Config, summary: bool, i: nat)
    requires !IsUnfinished(reply.stop) && i < |CallsIn(reply.content)|
    requires var b := BatchRun(reply, l, t, c, summary);
             && WentSo(b, CallsIn(reply.content), |CallsIn(reply.content)|, DeskOf(reply, l, t, c, summary))
    ensures var b := BatchRun(reply, l, t, c, summary);
            var results := ResultsOf(CallsIn(reply.content), CallIds(reply.content), b, reply.stop, c.say);
            && |results| == |CallsIn(reply.content)|
            && IsAnsweredSo(results[i], i, reply, l, t, c, summary)
  {
    hide BatchRun;
    hide AnswersFor;
    hide AnyError;
    hide NotDelivered;
    hide SomeFailed;
    hide Runs;
    hide IsResultOf;
    var b := BatchRun(reply, l, t, c, summary);
    var calls, ids := CallsIn(reply.content), CallIds(reply.content);
    AnswersAt(ids, b, c.say, i);
    AnyErrorMeans(ids, b, c.say);
    NotDeliveredAt(AnswersFor(ids, b, c.say), c.say, i);
    if i < |b.results| { ResultNamesItsCall(b.results[i], calls, i, DeskOf(reply, l, t, c, summary)); }
  }

  lemma ResultNamesItsCall(x: Block, calls: seq<Call>, i: nat, d: Desk)
    requires i < |calls| && IsResultOf(x, calls, i, d)
    ensures x.ToolResult? && x.id == calls[i].id
  {
  }

  /** Every call of a finished turn is answered with its own result, in order, in one message
      after the reply. */
  lemma ResultsAreTheTools(
    s: State, l: Limits, reply: Reply, corrected: bool, t: Turn, c: Config, summary: bool)
    requires !IsUnfinished(reply.stop)
    ensures var r := CallsOf(s, l, reply, corrected, t, c, summary);
            var m := r.state.messages;
            && |m| == |s.messages| + 1 && m[..|s.messages|] == s.messages
            && m[|s.messages|].role == User && |m[|s.messages|].content| == |CallsIn(reply.content)|
            && (forall i :: 0 <= i < |CallsIn(reply.content)| ==>
                  IsAnsweredSo(m[|s.messages|].content[i], i, reply, l, t, c, summary))
            && r.ending == BatchRun(reply, l, t, c, summary).ending
            && r.state.toolCalls == s.toolCalls + BatchRun(reply, l, t, c, summary).ran
  {
    hide RunCalls;
    hide IsAnsweredSo;
    hide WentSo;
    hide ResultsOf;
    var calls, ids := CallsIn(reply.content), CallIds(reply.content);
    var b := BatchRun(reply, l, t, c, summary);
    CallsGoAsTold(calls, |calls|, DeskOf(reply, l, t, c, summary));
    RunCallsFit(calls, |calls|, DeskOf(reply, l, t, c, summary));
    var results := ResultsOf(calls, ids, b, reply.stop, c.say);
    ResultsFit(calls, ids, b, reply.stop, c.say);
    forall i | 0 <= i < |calls| ensures |results| == |calls| && IsAnsweredSo(results[i], i, reply, l, t, c, summary) {
      ResultAt(reply, l, t, c, summary, i);
    }
  }

  lemma ResultsFit(calls: seq<Call>, ids: seq<string>, b: Batch, stop: TurnEnd, say: Wording)
    requires |b.results| <= |ids|
    ensures |ResultsOf(calls, ids, b, stop, say)| == |ids|
  {
  }
}
