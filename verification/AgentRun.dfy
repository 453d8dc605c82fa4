/** A whole run: turns until the session is finished, within the limits of the invocation. */
module AgentRun {
  import opened Wrappers
  import opened Transcript
  import opened SessionModel
  import opened Compaction
  import opened AgentTurn
  import opened TurnLaws

  const DEFAULT_WINDOW: nat := 32000

  /** What the backend says of its context window and prices, unless asking it fails. */
  datatype Discovery = Known(window: Option<nat>) | Unreachable

  /** What a run meets from outside: the backend's word, the schema to state if any, whether
      the tool set changed since the session was saved, and its turns. */
  datatype World = World(discovered: Discovery, statement: Option<string>, toolsChanged: bool, turns: nat -> Turn)

  /** A turn about to start. */
  datatype Opening = Opening(state: State, limits: Limits, summary: bool, turn: Turn)

  /** The end of a run, and the turns it started. */
  datatype Finish = Finish(state: State, limits: Limits, ending: Ending, openings: seq<Opening>)

  function MeasureOf(c: Config, t: Turn, window: nat): Measure
  {
    Measure(t.estimate, window, c.images)
  }

  /** What a person typed while the last turn ran. */
  function Inboxed(s: State, texts: seq<string>): (r: State)
    ensures r == s.(messages := r.messages)
  {
    if texts == [] then s else Saying(Inboxed(s, texts[..|texts| - 1]), texts[|texts| - 1])
  }

  function TurnsRemaining(s: State, from: nat, c: Config): int
  {
    c.maxTurns - (s.turns - from)
  }

  /** The session as its next turn starts, told when its turns run out. */
  function Warned(s: State, remaining: int, c: Config): (r: State)
    ensures r == s.(messages := r.messages)
  {
    if remaining <= 0 then Saying(s, c.say(TurnLimit))
    else if remaining <= 5 && c.hasTools then Saying(s, c.say(TurnsLeft(remaining)))
    else s
  }

  function BudgetChecked(s: State, c: Config): State
  {
    if c.budget.Exhausted(s.usage) then Failing(s, Some(Budget)) else s
  }

  /** What a run makes of a turn that is over. */
  function Settled(r: Stepped, c: Config, summary: bool): State
  {
    var after :=
      if r.ending == Raised then Failing(r.state, None)
      else if r.ending == Cancelled then r.state
      else
        var s := if r.state.status in {Done, Blocked} then r.state else BudgetChecked(r.state, c);
        if s.status == Working && r.limits.callCap.Some? && r.limits.refusedTurns > 1 then Failing(s, Some(ToolCalls))
        else s;
    if summary then Failing(after, Some(MaxTurns)) else after
  }

  /** How many turns a run can still start. */
  function Left(s: State, from: nat, c: Config): nat
  {
    if s.status != Working then 0 else if TurnsRemaining(s, from, c) > 0 then TurnsRemaining(s, from, c) + 1 else 1
  }

  /** A pass of the run's loop: the turn it started, unless the budget stopped it first. */
  datatype Pass = Pass(state: State, limits: Limits, ending: Ending, opening: Option<Opening>)

  /** The turn a working session starts, if its budget allows one. */
  function OpeningOf(s: State, l: Limits, t: Turn, from: nat, c: Config): Option<Opening>
  {
    var read := Inboxed(s, t.inbox);
    if c.budget.Exhausted(read.usage) then None
    else
      var remaining := TurnsRemaining(read, from, c);
      Some(Opening(Warned(read, remaining, c), l, remaining <= 0, t))
  }

  function PassOf(s: State, l: Limits, t: Turn, from: nat, c: Config, window: nat): Pass
  {
    var opening := OpeningOf(s, l, t, from, c);
    if opening.None? then Pass(Failing(Inboxed(s, t.inbox), Some(Budget)), l, Returned, None)
    else
      var r := StepOf(opening.value.state, l, t, c, MeasureOf(c, t, window), opening.value.summary);
      Pass(Settled(r, c, opening.value.summary), r.limits, r.ending, opening)
  }

  lemma LeftFalls(s: State, l: Limits, t: Turn, from: nat, c: Config, window: nat)
    requires s.status == Working
    ensures var p := PassOf(s, l, t, from, c, window);
            p.ending != Cancelled ==> Left(p.state, from, c) < Left(s, from, c)
  {
    hide StepOf;
    var opening := OpeningOf(s, l, t, from, c);
    if opening.Some? {
      TurnCounts(opening.value.state, l, t, c, MeasureOf(c, t, window), opening.value.summary);
    }
  }

  /** The turns of a run, from turn n on. */
  function TurnsFrom(s: State, l: Limits, n: nat, from: nat, c: Config, window: nat, turns: nat -> Turn): Finish
    decreases Left(s, from, c)
  {
    if s.status != Working then Finish(s, l, Returned, [])
    else
      var p := PassOf(s, l, turns(n), from, c, window);
      if p.ending == Cancelled then Finish(p.state, p.limits, Cancelled, Started(p.opening))
      else
        LeftFalls(s, l, turns(n), from, c, window);
        var rest := TurnsFrom(p.state, p.limits, n + 1, from, c, window, turns);
        rest.(openings := Started(p.opening) + rest.openings)
  }

  /** One pass, then the rest of the run. */
  lemma TurnsUnfold(s: State, l: Limits, n: nat, from: nat, c: Config, window: nat, turns: nat -> Turn)
    ensures var f := TurnsFrom(s, l, n, from, c, window, turns);
            var p := PassOf(s, l, turns(n), from, c, window);
            if s.status != Working then f == Finish(s, l, Returned, [])
            else if p.ending == Cancelled then f == Finish(p.state, p.limits, Cancelled, Started(p.opening))
            else
              var rest := TurnsFrom(p.state, p.limits, n + 1, from, c, window, turns);
              f == rest.(openings := Started(p.opening) + rest.openings)
  {
    hide PassOf;
  }

  function Started(opening: Option<Opening>): seq<Opening>
  {
    if opening.Some? then [opening.value] else []
  }

  /** The session as a run's first turn finds it. */
  function Prepared(s: State, w: World): (r: State)
    ensures r == s.(messages := r.messages)
  {
    var stated := if w.statement.Some? then Saying(s, w.statement.value) else s;
    if w.toolsChanged then stated.(messages := DroppedMessages(stated.messages)) else stated
  }

  function FreshLimits(c: Config): Limits
  {
    Limits(c.maxToolCalls, 0, 0, c.maxCutoffs, 0)
  }

  function WindowOf(c: Config, d: Discovery): nat
    requires d.Known?
  {
    if c.window.Some? then c.window.value else if d.window.Some? then d.window.value else DEFAULT_WINDOW
  }

  /** A run of a session, to a terminal status or a cancellation. */
  function RunOf(s: State, c: Config, w: World): Finish
  {
    if s.status == Working && c.budget.Exhausted(s.usage) then
      Finish(Failing(s, Some(Budget)), FreshLimits(c), Returned, [])
    else if w.discovered.Unreachable? then Finish(Failing(s, None), FreshLimits(c), Returned, [])
    else
      var ready := Prepared(s, w);
      TurnsFrom(ready, FreshLimits(c), 0, ready.turns, c, WindowOf(c, w.discovered), w.turns)
  }
}
