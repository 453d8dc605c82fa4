/** Safety over whole runs, and over any sequence of runs, saves and resumes. */
module RunLaws {
  import opened Wrappers
  import opened Transcript
  import opened SessionModel
  import opened Compaction
  import opened CompactionLaws
  import opened AgentTurn
  import opened TurnLaws
  import opened AgentRun

  ghost predicate Sound(ms: seq<Message>)
  {
    Paired(ms) && ThinkingValid(ms)
  }

  /** A turn that starts from a transcript the vendors accept, and so does its request. */
  ghost predicate OpensSound(o: Opening, c: Config, window: nat)
  {
    Sound(o.state.messages) && Sound(Compact(o.state.messages, MeasureOf(c, o.turn, window)).messages)
  }

  ghost predicate AllSound(openings: seq<Opening>, c: Config, window: nat)
  {
    forall k :: 0 <= k < |openings| ==> OpensSound(openings[k], c, window)
  }

  predicate OpensLeft(o: Opening, c: Config, window: nat)
  {
    LeavesOpen(o.state, o.turn, c, MeasureOf(c, o.turn, window))
  }

  predicate LeftOpen(openings: seq<Opening>, c: Config, window: nat)
  {
    exists k :: 0 <= k < |openings| && OpensLeft(openings[k], c, window)
  }

  ghost predicate HonestTurns(turns: nat -> Turn)
  {
    forall n :: Honest(turns(n).model)
  }

  lemma SayingSound(s: State, text: string)
    requires Sound(s.messages)
    ensures Sound(Saying(s, text).messages)
  {
    AppendedPaired(s.messages, text);
    AppendedValid(s.messages, text);
  }

  lemma {:induction false} InboxedSound(s: State, texts: seq<string>)
    requires Sound(s.messages)
    ensures Sound(Inboxed(s, texts).messages)
  {
    if texts != [] {
      InboxedSound(s, texts[..|texts| - 1]);
      SayingSound(Inboxed(s, texts[..|texts| - 1]), texts[|texts| - 1]);
    }
  }

  lemma OpeningSound(s: State, texts: seq<string>, remaining: int, c: Config, e: Measure)
    requires Sound(s.messages)
    ensures Sound(Warned(Inboxed(s, texts), remaining, c).messages)
    ensures Sound(Compact(Warned(Inboxed(s, texts), remaining, c).messages, e).messages)
  {
    var read := Inboxed(s, texts);
    InboxedSound(s, texts);
    SayingSound(read, c.say(TurnLimit));
    if remaining > 0 { SayingSound(read, c.say(TurnsLeft(remaining))); }
    CompactKeepsBoth(Warned(read, remaining, c).messages, e);
  }

  lemma TurnSound(s: State, l: Limits, t: Turn, c: Config, e: Measure, summary: bool)
    requires Sound(s.messages) && Honest(t.model)
    ensures var r := StepOf(s, l, t, c, e, summary);
            && PairedSoFar(r.state.messages) && ThinkingValid(r.state.messages)
            && (Paired(r.state.messages) <==> !LeavesOpen(s, t, c, e))
            && (LeavesOpen(s, t, c, e) ==> r.ending == Raised)
  {
    TurnKeepsPaired(s, l, t, c, e, summary);
    TurnKeepsThinking(s, l, t, c, e, summary);
    hide Compact;
    StepSplits(s, l, t, c, e, summary);
  }

  /** A pass starts its turn from a sound transcript. */
  lemma PassSound(s: State, l: Limits, t: Turn, from: nat, c: Config, window: nat)
    requires Sound(s.messages) && Honest(t.model)
    ensures var p := PassOf(s, l, t, from, c, window);
            && PairedSoFar(p.state.messages) && ThinkingValid(p.state.messages)
            && AllSound(Started(p.opening), c, window)
            && (Paired(p.state.messages) <==> !LeftOpen(Started(p.opening), c, window))
            && (LeftOpen(Started(p.opening), c, window) ==> p.state.status == Error && p.ending != Cancelled)
  {
    hide StepOf;
    hide LeavesOpen;
    hide Inboxed;
    hide Warned;
    hide Compact;
    InboxedSound(s, t.inbox);
    var opening := OpeningOf(s, l, t, from, c);
    if opening.Some? {
      var o := opening.value;
      OpeningSound(s, t.inbox, TurnsRemaining(Inboxed(s, t.inbox), from, c), c, MeasureOf(c, t, window));
      TurnSound(o.state, l, t, c, MeasureOf(c, t, window), o.summary);
      assert Started(opening)[0] == o;
    }
  }

  /** Every request of a run carries a transcript with each call answered and no stale
      thinking, whatever the model, the tools and the checks do; and the run leaves such a
      transcript behind, exactly unless a validator raised on a reply that also held calls. */
  lemma {:induction false} TurnsAreSound(
    s: State, l: Limits, n: nat, from: nat, c: Config, window: nat, turns: nat -> Turn)
    requires Sound(s.messages) && HonestTurns(turns)
    ensures var f := TurnsFrom(s, l, n, from, c, window, turns);
            && AllSound(f.openings, c, window)
            && PairedSoFar(f.state.messages) && ThinkingValid(f.state.messages)
            && (Paired(f.state.messages) <==> !LeftOpen(f.openings, c, window))
    decreases Left(s, from, c)
  {
    hide PassOf;
    hide AllSound;
    hide LeftOpen;
    NoneOpened(c, window);
    if s.status == Working {
      var p := PassOf(s, l, turns(n), from, c, window);
      PassSound(s, l, turns(n), from, c, window);
      LeftFalls(s, l, turns(n), from, c, window);
      if p.ending != Cancelled {
        if !LeftOpen(Started(p.opening), c, window) {
          TurnsAreSound(p.state, p.limits, n + 1, from, c, window, turns);
        }
        var rest := TurnsFrom(p.state, p.limits, n + 1, from, c, window, turns);
        OpeningsJoin(Started(p.opening), rest.openings, c, window);
      }
    }
  }

  lemma NoneOpened(c: Config, window: nat)
    ensures AllSound([], c, window) && !LeftOpen([], c, window)
  {
  }

  lemma OpeningsJoin(a: seq<Opening>, b: seq<Opening>, c: Config, window: nat)
    ensures AllSound(a, c, window) && AllSound(b, c, window) ==> AllSound(a + b, c, window)
    ensures LeftOpen(a + b, c, window) <==> LeftOpen(a, c, window) || LeftOpen(b, c, window)
  {
    hide OpensSound;
    hide OpensLeft;
    if LeftOpen(a, c, window) {
      var k :| 0 <= k < |a| && OpensLeft(a[k], c, window);
      assert (a + b)[k] == a[k];
    }
    if LeftOpen(b, c, window) {
      var k :| 0 <= k < |b| && OpensLeft(b[k], c, window);
      assert (a + b)[|a| + k] == b[k];
    }
  }

  // ---- how a run ends ----

  /** A cancelled run is still working, unless it was on the summary turn, which ends it. */
  predicate StandsAfterCancel(s: State, openings: seq<Opening>)
  {
    && openings != []
    && if openings[|openings| - 1].summary then s.status == Error && s.stop == Some(MaxTurns) else s.status == Working
  }

  /** A run ends by returning, in a way the table lists, or by being cancelled. */
  lemma {:induction false} TurnsEndReportably(
    s: State, l: Limits, n: nat, from: nat, c: Config, window: nat, turns: nat -> Turn)
    requires s.status != Working ==> Reportable(s.status, s.stop)
    ensures var f := TurnsFrom(s, l, n, from, c, window, turns);
            && f.ending != Raised
            && (f.ending == Returned ==> f.state.status != Working && Reportable(f.state.status, f.state.stop))
            && (f.ending == Cancelled ==> StandsAfterCancel(f.state, f.openings))
    decreases Left(s, from, c)
  {
    hide PassOf;
    if s.status == Working {
      PassEndsReportably(s, l, turns(n), from, c, window);
      LeftFalls(s, l, turns(n), from, c, window);
      var p := PassOf(s, l, turns(n), from, c, window);
      if p.ending != Cancelled {
        TurnsEndReportably(p.state, p.limits, n + 1, from, c, window, turns);
      }
    }
  }

  lemma PassEndsReportably(s: State, l: Limits, t: Turn, from: nat, c: Config, window: nat)
    requires s.status == Working
    ensures var p := PassOf(s, l, t, from, c, window);
            && (p.ending != Cancelled && p.state.status != Working ==> Reportable(p.state.status, p.state.stop))
            && (p.ending == Cancelled ==> StandsAfterCancel(p.state, Started(p.opening)))
  {
    hide StepOf;
    hide Inboxed;
    hide Warned;
    var opening := OpeningOf(s, l, t, from, c);
    if opening.Some? {
      TurnEndsReportably(opening.value.state, l, t, c, MeasureOf(c, t, window), opening.value.summary);
    }
  }

  /** Whatever its replies, exceptions, budgets, summaries, holds and checks, a run that starts
      working ends with a status and stop reason the table lists, or is cancelled: then the
      session is still working, or stopped as its summary turn stops it. */
  lemma RunEndsReportably(s: State, c: Config, w: World)
    requires s.status == Working
    ensures var f := RunOf(s, c, w);
            && f.ending != Raised
            && (f.ending == Returned ==> f.state.status != Working && Reportable(f.state.status, f.state.stop))
            && (f.ending == Cancelled ==> StandsAfterCancel(f.state, f.openings))
  {
    if !c.budget.Exhausted(s.usage) && w.discovered.Known? {
      var ready := Prepared(s, w);
      TurnsEndReportably(ready, FreshLimits(c), 0, ready.turns, c, WindowOf(c, w.discovered), w.turns);
    }
  }

  // ---- the bounds of a run ----

  /** The turn starts with budget left. */
  predicate OpensInBudget(o: Opening, c: Config)
  {
    !c.budget.Exhausted(o.state.usage)
  }

  predicate AllInBudget(openings: seq<Opening>, c: Config)
  {
    forall k :: 0 <= k < |openings| ==> OpensInBudget(openings[k], c)
  }

  /** A summary is a run's last turn. */
  predicate SummaryIsLast(openings: seq<Opening>)
  {
    forall k :: 0 <= k < |openings| - 1 ==> !openings[k].summary
  }

  /** What a run spends of its limits, from a point where it had spent l of them. */
  predicate Spends(s: State, l: Limits, f: Finish, c: Config)
  {
    && (c.maxToolCalls.Some? ==>
          f.state.toolCalls - s.toolCalls == f.limits.callsUsed - l.callsUsed
          && f.limits.callsUsed <= c.maxToolCalls.value)
    && f.limits.refusedTurns <= 2
    && (c.maxCutoffs.Some? ==>
          f.state.cutoffs - s.cutoffs == f.limits.cutoffsUsed - l.cutoffsUsed
          && f.limits.cutoffsUsed <= c.maxCutoffs.value + 1)
  }

  predicate Carries(l: Limits, c: Config)
  {
    l.callCap == c.maxToolCalls && l.cutoffCap == c.maxCutoffs && (l.callCap.None? ==> l.refusedTurns == 0)
  }

  lemma {:induction false} TurnsAreBounded(
    s: State, l: Limits, n: nat, from: nat, c: Config, window: nat, turns: nat -> Turn)
    requires WithinLimits(l) && Carries(l, c)
    ensures var f := TurnsFrom(s, l, n, from, c, window, turns);
            && |f.openings| <= Left(s, from, c)
            && s.turns <= f.state.turns <= s.turns + |f.openings|
            && AllInBudget(f.openings, c) && SummaryIsLast(f.openings)
            && Spends(s, l, f, c)
    decreases Left(s, from, c)
  {
    hide PassOf;
    if s.status == Working {
      PassIsBounded(s, l, turns(n), from, c, window);
      LeftFalls(s, l, turns(n), from, c, window);
      var p := PassOf(s, l, turns(n), from, c, window);
      if p.ending != Cancelled && p.state.status == Working {
        TurnsAreBounded(p.state, p.limits, n + 1, from, c, window, turns);
      }
    }
  }

  lemma PassIsBounded(s: State, l: Limits, t: Turn, from: nat, c: Config, window: nat)
    requires s.status == Working && WithinLimits(l) && Carries(l, c)
    ensures var p := PassOf(s, l, t, from, c, window);
            && AllInBudget(Started(p.opening), c)
            && s.turns <= p.state.turns <= s.turns + |Started(p.opening)|
            && Spends(s, l, Finish(p.state, p.limits, p.ending, []), c)
            && (p.opening.Some? && p.opening.value.summary && p.ending != Cancelled ==> p.state.status == Error)
            && (p.state.status == Working && p.ending != Cancelled ==> WithinLimits(p.limits) && Carries(p.limits, c))
  {
    hide StepOf;
    hide Inboxed;
    hide Warned;
    var opening := OpeningOf(s, l, t, from, c);
    if opening.Some? {
      TurnCounts(opening.value.state, l, t, c, MeasureOf(c, t, window), opening.value.summary);
      TurnStaysWithin(opening.value.state, l, t, c, MeasureOf(c, t, window), opening.value.summary);
    }
  }

  function AtLeastZero(n: int): nat
  {
    if n > 0 then n else 0
  }

  /** A run starts at most max(maxTurns, 0) + 1 turns, each from usage below the budget; it
      runs no call past the cap, refuses calls in at most two turns, and sees at most one
      cut-off beyond its budget. */
  lemma RunIsBounded(s: State, c: Config, w: World)
    ensures var f := RunOf(s, c, w);
            && |f.openings| <= AtLeastZero(c.maxTurns) + 1
            && s.turns <= f.state.turns <= s.turns + |f.openings|
            && AllInBudget(f.openings, c) && SummaryIsLast(f.openings)
            && Spends(s, FreshLimits(c), f, c)
  {
    if !(s.status == Working && c.budget.Exhausted(s.usage)) && w.discovered.Known? {
      var ready := Prepared(s, w);
      TurnsAreBounded(
        ready, FreshLimits(c), 0, ready.turns, c, WindowOf(c, w.discovered), w.turns);
    }
  }

  // ---- what a run adds up to ----

  function ReplyTo(o: Opening, c: Config, window: nat): Option<Reply>
  {
    ReplyIn(o.state, o.turn, c, MeasureOf(c, o.turn, window))
  }

  /** The tokens of the replies these turns got, and how many replies there were. */
  function TokensSpent(openings: seq<Opening>, c: Config, window: nat): nat
  {
    if openings == [] then 0
    else TokensOf(ReplyTo(openings[0], c, window)) + TokensSpent(openings[1..], c, window)
  }

  function Replies(openings: seq<Opening>, c: Config, window: nat): nat
  {
    if openings == [] then 0
    else
      (if ReplyTo(openings[0], c, window).Some? then 1 else 0) + Replies(openings[1..], c, window)
  }

  /** Usage is conserved: a run adds to the session exactly the tokens, and the count, of the
      replies its turns got. */
  lemma {:induction false} TurnsAddUp(
    s: State, l: Limits, n: nat, from: nat, c: Config, window: nat, turns: nat -> Turn)
    ensures var f := TurnsFrom(s, l, n, from, c, window, turns);
            && f.state.usage.Total() == s.usage.Total() + TokensSpent(f.openings, c, window)
            && f.state.turns == s.turns + Replies(f.openings, c, window)
    decreases Left(s, from, c)
  {
    hide PassOf;
    hide ReplyIn;
    if s.status == Working {
      PassAddsUp(s, l, turns(n), from, c, window);
      LeftFalls(s, l, turns(n), from, c, window);
      var p := PassOf(s, l, turns(n), from, c, window);
      if p.ending != Cancelled {
        TurnsAddUp(p.state, p.limits, n + 1, from, c, window, turns);
        var rest := TurnsFrom(p.state, p.limits, n + 1, from, c, window, turns).openings;
        assert (Started(p.opening) + rest)[|Started(p.opening)|..] == rest;
        if p.opening.None? { assert Started(p.opening) + rest == rest; }
      }
    }
  }

  lemma PassAddsUp(s: State, l: Limits, t: Turn, from: nat, c: Config, window: nat)
    requires s.status == Working
    ensures var p := PassOf(s, l, t, from, c, window);
            && p.state.usage.Total() == s.usage.Total() + TokensSpent(Started(p.opening), c, window)
            && p.state.turns == s.turns + Replies(Started(p.opening), c, window)
  {
    hide StepOf;
    hide ReplyIn;
    hide Inboxed;
    hide Warned;
    var opening := OpeningOf(s, l, t, from, c);
    if opening.Some? {
      TurnSpends(opening.value.state, l, t, c, MeasureOf(c, t, window), opening.value.summary);
      TurnCounts(opening.value.state, l, t, c, MeasureOf(c, t, window), opening.value.summary);
    }
  }

  predicate EndsIn(content: seq<Block>, b: Block)
  {
    content != [] && content[|content| - 1] == b
  }

  /** Kept and sent blocks still end in a text that is not empty. */
  lemma FilterEndsIn(content: seq<Block>, b: Block, keep: Block -> bool)
    requires EndsIn(content, b) && keep(b)
    ensures EndsIn(Filter(content, keep), b)
  {
    var n := |content| - 1;
    assert content == content[..n] + [b];
    FilterConcat(content[..n], [b], keep);
  }

  /** Compaction leaves the last message alone, apart from sealed thinking. */
  lemma LastIsKept(ms: seq<Message>, e: Measure)
    requires ms != [] && ms[|ms| - 1].role == User
    ensures var r := Compact(ms, e).messages;
            && |r| == |ms| && r[|ms| - 1].role == User
            && r[|ms| - 1].content in {ms[|ms| - 1].content, WithoutSealed(ms[|ms| - 1].content)}
  {
    hide Compact;
    hide WithoutSealed;
    hide Filter;
    hide ThinkingValid;
    hide Paired;
    hide PairedSoFar;
    var r := Compact(ms, e).messages;
    CompactKeeps(ms, e);
    var f: nat :| Kept(ms, r, f, e);
    FrameProtects(ms, r, f, e);
    assert FrameAt(ms[|ms| - 1], r[|ms| - 1], f, |ms| - 1, OutlineOf(ms), e);
  }

  /** A request made from a compacted transcript ends in the text the transcript ends in. */
  lemma LastTextIsSent(ms: seq<Message>, e: Measure, text: string)
    requires ms != [] && ms[|ms| - 1].role == User && EndsIn(ms[|ms| - 1].content, Text(text)) && text != ""
    ensures var request := Sent(Compact(ms, e).messages);
            request != [] && request[|request| - 1].role == User && EndsIn(request[|request| - 1].content, Text(text))
  {
    hide Compact;
    hide Filter;
    LastIsKept(ms, e);
    FilterEndsIn(ms[|ms| - 1].content, Text(text), Unsealed);
    FilterEndsIn(Compact(ms, e).messages[|ms| - 1].content, Text(text), SentBack);
  }

  /** A summary turn is told that it is one: its request ends in the instruction, whatever
      compaction took out of it. */
  lemma SummaryIsTold(s: State, l: Limits, t: Turn, from: nat, c: Config, window: nat)
    requires c.say(TurnLimit) != ""
    ensures var opening := OpeningOf(s, l, t, from, c);
            opening.Some? && opening.value.summary ==>
              var request := Sent(Compact(opening.value.state.messages, MeasureOf(c, t, window)).messages);
              && request != [] && request[|request| - 1].role == User
              && EndsIn(request[|request| - 1].content, Text(c.say(TurnLimit)))
  {
    hide Inboxed;
    hide Compact;
    var opening := OpeningOf(s, l, t, from, c);
    if opening.Some? && opening.value.summary {
      LastTextIsSent(opening.value.state.messages, MeasureOf(c, t, window), c.say(TurnLimit));
    }
  }

  // ---- a whole run, from start to finish ----

  lemma PreparedSound(s: State, w: World)
    requires Sound(s.messages)
    ensures Sound(Prepared(s, w).messages)
  {
    var stated := if w.statement.Some? then Saying(s, w.statement.value) else s;
    if w.statement.Some? { SayingSound(s, w.statement.value); }
    DroppedKeeps(stated.messages);
  }

  /** The run and its requests are sound, and it ends paired exactly unless calls were left
      open. */
  lemma RunIsSound(s: State, c: Config, w: World)
    requires Sound(s.messages) && HonestTurns(w.turns)
    ensures var f := RunOf(s, c, w);
            && PairedSoFar(f.state.messages) && ThinkingValid(f.state.messages)
            && (c.schema.None? || c.hasCheck ==> Sound(f.state.messages))
            && (w.discovered.Known? ==>
                  && AllSound(f.openings, c, WindowOf(c, w.discovered))
                  && (Paired(f.state.messages) <==> !LeftOpen(f.openings, c, WindowOf(c, w.discovered))))
  {
    if !(s.status == Working && c.budget.Exhausted(s.usage)) && w.discovered.Known? {
      var window := WindowOf(c, w.discovered);
      var ready := Prepared(s, w);
      PreparedSound(s, w);
      TurnsAreSound(ready, FreshLimits(c), 0, ready.turns, c, window, w.turns);
    }
  }

  // ---- the life of a session ----

  /** What a caller may do with a session: resume it for a run, save and load it, drop its
      signed thinking. A fork copies the session and leaves it as it was. */
  datatype Deed =
    | Resume(text: Option<string>, c: Config, w: World)
    | SaveAndLoad(r: Redactor)
    | DropThinking

  function After(s: State, d: Deed): State
  {
    match d
    case Resume(text, c, w) => RunOf(Reopened(s, text), c, w).state
    case SaveAndLoad(r) => s.(messages := Saved(s.messages, r))
    case DropThinking => s.(messages := DroppedMessages(s.messages))
  }

  function Lived(s: State, deeds: seq<Deed>): State
  {
    if deeds == [] then s else After(Lived(s, deeds[..|deeds| - 1]), deeds[|deeds| - 1])
  }

  ghost predicate HonestDeed(d: Deed)
  {
    d.Resume? ==> HonestTurns(d.w.turns)
  }

  /** Every request the deed makes is one the vendors accept. */
  ghost predicate RequestsSound(s: State, d: Deed)
  {
    d.Resume? && d.w.discovered.Known? ==>
      AllSound(RunOf(Reopened(s, d.text), d.c, d.w).openings, d.c, WindowOf(d.c, d.w.discovered))
  }

  ghost predicate Resumable(s: State)
  {
    PairedSoFar(s.messages) && ThinkingValid(s.messages)
  }

  lemma DeedKeeps(s: State, d: Deed)
    requires Resumable(s) && HonestDeed(d)
    ensures Resumable(After(s, d)) && RequestsSound(s, d)
  {
    match d
    case Resume(text, c, w) =>
      ReopenedPaired(s.messages, text);
      ReopenedValid(s.messages, text);
      RunIsSound(Reopened(s, text), c, w);
    case SaveAndLoad(r) =>
      SavedPaired(s.messages, r);
      SavedValid(s.messages, r);
    case DropThinking =>
      DroppedKeeps(s.messages);
  }

  /** Over any sequence of resumed runs, saves and loads, however each run ended, every request
      ever made carries a paired transcript with no stale thinking, and the session can always
      be resumed again. */
  lemma {:induction false} LifeIsSound(s: State, deeds: seq<Deed>)
    requires Resumable(s) && forall k :: 0 <= k < |deeds| ==> HonestDeed(deeds[k])
    ensures Resumable(Lived(s, deeds))
    ensures forall k :: 0 <= k < |deeds| ==> RequestsSound(Lived(s, deeds[..k]), deeds[k])
  {
    hide Resumable;
    hide RequestsSound;
    hide HonestDeed;
    hide After;
    if deeds != [] {
      var n := |deeds| - 1;
      LifeIsSound(s, deeds[..n]);
      DeedKeeps(Lived(s, deeds[..n]), deeds[n]);
      forall k | 0 <= k < n ensures RequestsSound(Lived(s, deeds[..k]), deeds[k]) {
        assert deeds[..n][..k] == deeds[..k];
      }
    }
  }
}
