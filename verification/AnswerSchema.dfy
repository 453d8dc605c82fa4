/** A run under a JSON schema: the loop's verdict on a text is what parsing and validation make
    of it. What that gives a run, and the one way it leaves calls open. */
module AnswerSchema {
  import opened Wrappers
  import opened Json
  import opened SchemaCheck
  import opened RefCycles
  import opened Validator
  import opened SchemaMeaning
  import opened SchemaRaises
  import opened Transcript
  import opened SessionModel
  import opened Compaction
  import opened AgentTurn
  import opened TurnLaws
  import opened AgentRun
  import opened RunLaws

  /** A text read as JSON: the one document it holds, or the complaints about it. */
  datatype Parse = Parsed(value: Json) | NotJson(first: string, rest: seq<string>)

  /** A run's schema, how texts are read, and how the validator's errors are put to the model. */
  datatype AnswerRule = AnswerRule(
    root: Json, py: Python, parse: string -> Parse, describe: SchemaError -> string)

  function Described(errors: seq<SchemaError>, describe: SchemaError -> string): (r: seq<string>)
    ensures |r| == |errors|
  {
    seq(|errors|, i requires 0 <= i < |errors| => describe(errors[i]))
  }

  /** A text that is no JSON document is complained of without being validated. Validation
      raises on a document of a schema the gate refuses, and where a check of it raises. */
  ghost function VerdictOf(rule: AnswerRule, text: string): AgentTurn.Verdict
  {
    match rule.parse(text)
    case NotJson(first, rest) => Judged([first] + rest, false)
    case Parsed(value) =>
      if !Acceptable(rule.root, rule.py) then Broken
      else
        assert Belongs(rule.root, rule.root, rule.py) by { RootBelongs(rule.root, rule.py); }
        match Validate(value, rule.root, [], rule.root, rule.py)
        case Found(errors) => Judged(Described(errors, rule.describe), true)
        case Raised => Broken
  }

  lemma RootBelongs(root: Json, py: Python)
    requires Acceptable(root, py)
    ensures Belongs(root, root, py)
  {
    assert Checked([root][0], MeaningOf(root, py).known, py);
  }

  ghost predicate JudgedBy(c: Config, rule: AnswerRule)
  {
    c.schema.Some? && forall text :: c.schema.value(text) == VerdictOf(rule, text)
  }

  /** The schemas validation can be trusted with: the gate accepts them, and no walk from the
      root comes to a name that cannot be looked up. */
  ghost predicate Trusted(rule: AnswerRule)
  {
    Acceptable(rule.root, rule.py) && SafeDocument(rule.root, rule.py)
  }

  /** Documents of objects and arrays can be written down. */
  ghost predicate ReadsBare(parse: string -> Parse)
  {
    forall v :: Bare(v) ==> exists text :: parse(text) == Parsed(v)
  }

  // ---- what a verdict means ----

  /** Under a trusted schema no text breaks validation, and without one some text does. */
  lemma TrustedNeverBreaks(rule: AnswerRule, text: string)
    requires Trusted(rule)
    ensures VerdictOf(rule, text).Judged?
  {
    hide Validate;
    RootBelongs(rule.root, rule.py);
    if rule.parse(text).Parsed? {
      SafeNeverRaises(rule.parse(text).value, rule.root, [], rule.root, rule.py);
    }
  }

  lemma BreakingText(rule: AnswerRule) returns (text: string)
    requires ReadsBare(rule.parse) && !Trusted(rule)
    ensures VerdictOf(rule, text).Broken?
  {
    hide Validate;
    hide SafeDocument;
    hide Bare;
    var v := Obj([]);
    EmptyIsBare();
    if Acceptable(rule.root, rule.py) {
      RootBelongs(rule.root, rule.py);
      RaisesExactlyWhen(rule.root, rule.py);
      v :| Bare(v) && Validate(v, rule.root, [], rule.root, rule.py).Raised?;
    }
    text :| rule.parse(text) == Parsed(v);
  }

  /** A run that is done under a schema has an answer that is a document satisfying it. */
  lemma DoneMeansSatisfied(
    s: State, l: Limits, reply: Reply, t: Turn, c: Config, summary: bool, rule: AnswerRule)
    requires JudgedBy(c, rule) && WellFormed(rule.root)
    requires forall text :: rule.parse(text).Parsed? ==> WellFormed(rule.parse(text).value)
    requires s.status == Working && ReplyOf(s, l, reply, t, c, summary).state.status == SessionModel.Done
    ensures var parsed := rule.parse(FinalText(reply.content));
            && parsed.Parsed? && Belongs(rule.root, rule.root, rule.py)
            && Satisfies(parsed.value, rule.root, rule.root, rule.py)
  {
    hide ReplyOf;
    hide Validate;
    hide Satisfies;
    DoneMeansAccepted(s, l, reply, t, c, summary);
    var text := FinalText(reply.content);
    assert VerdictOf(rule, text) == Judged([], true);
    RootBelongs(rule.root, rule.py);
    CleanMeansSatisfied(rule.parse(text).value, rule.root, [], rule.root, rule.py);
  }

  // ---- calls left open ----

  lemma TrustedLeavesNothingOpen(s: State, t: Turn, c: Config, e: Measure, rule: AnswerRule)
    requires JudgedBy(c, rule) && (Trusted(rule) || c.hasCheck)
    ensures !LeavesOpen(s, t, c, e)
  {
    hide VerdictOf;
    hide ReplyIn;
    hide Trusted;
    var reply := ReplyIn(s, t, c, e);
    if reply.Some? && !c.hasCheck { TrustedNeverBreaks(rule, FinalText(reply.value.content)); }
  }

  lemma TrustedTurnStaysPaired(
    s: State, l: Limits, t: Turn, c: Config, e: Measure, summary: bool, rule: AnswerRule)
    requires Paired(s.messages) && Honest(t.model)
    requires JudgedBy(c, rule) && (Trusted(rule) || c.hasCheck)
    ensures Paired(StepOf(s, l, t, c, e, summary).state.messages)
  {
    hide StepOf;
    hide LeavesOpen;
    TurnKeepsPaired(s, l, t, c, e, summary);
    TrustedLeavesNothingOpen(s, t, c, e, rule);
  }

  /** A run under a schema validation can be trusted with, or with a check, ends with every
      call answered and no stale thinking, however it ends. */
  lemma TrustedRunIsSound(s: State, c: Config, w: World, rule: AnswerRule)
    requires Sound(s.messages) && HonestTurns(w.turns)
    requires JudgedBy(c, rule) && (Trusted(rule) || c.hasCheck)
    ensures Sound(RunOf(s, c, w).state.messages)
  {
    hide LeavesOpen;
    hide JudgedBy;
    hide Trusted;
    hide TurnsFrom;
    RunIsSound(s, c, w);
    if w.discovered.Known? {
      var window := WindowOf(c, w.discovered);
      var openings := RunOf(s, c, w).openings;
      forall k | 0 <= k < |openings| ensures !OpensLeft(openings[k], c, window) {
        TrustedLeavesNothingOpen(
          openings[k].state, openings[k].turn, c, MeasureOf(c, openings[k].turn, window), rule);
      }
    }
  }

  /** A reply of this text beside one call, whatever it is asked. */
  function TextBesideCall(text: string): Reply
  {
    Reply([Text(text), ToolUse("a", "bash", None)], ToolUseTurn, Usage(0, 0, 0, 0, None, false))
  }

  function Replying(text: string): Turn
  {
    Turn([], _ => 0.0, (_, _) => Replied(TextBesideCall(text)), _ => Threw, _ => AgentTurn.Broken, [])
  }

  function WorldReplying(text: string): World
  {
    World(Known(None), None, false, _ => Replying(text))
  }

  lemma ReplyingIsHonest(text: string)
    ensures HonestTurns(WorldReplying(text).turns)
  {
    var content := TextBesideCall(text).content;
    assert Answers(content, []);
    assert forall b :: b in SentContent(content) ==> !IsSealed(b);
  }

  lemma WhatItHolds(text: string)
    ensures FinalText(TextBesideCall(text).content) == text
    ensures CallIds(TextBesideCall(text).content) != []
  {
    var said, call := Text(text), ToolUse("a", "bash", None);
    var content := TextBesideCall(text).content;
    assert content == [said, call] && content[1..] == [call] && [call][1..] == [];
    assert Texts([call]) == [];
    assert Texts(content) == [text] + Texts([call]);
    assert CallIds([call]) == ["a"];
    assert CallIds(content) == CallIds(content[1..]);
  }

  lemma ReplyingLeavesOpen(s: State, c: Config, window: nat, text: string)
    requires c.schema.Some? && !c.hasCheck && c.schema.value(text).Broken? && window > 0
    ensures LeavesOpen(s, Replying(text), c, MeasureOf(c, Replying(text), window))
  {
    hide Compact;
    hide Sent;
    WhatItHolds(text);
    assert ReplyIn(s, Replying(text), c, MeasureOf(c, Replying(text), window)) == Some(TextBesideCall(text));
  }

  lemma FirstOpening(s: State, c: Config, text: string)
    requires s.status == Working && !c.budget.Exhausted(s.usage)
    ensures var w := WorldReplying(text);
            var opening := OpeningOf(s, FreshLimits(c), Replying(text), s.turns, c);
            && opening.Some? && opening.value.turn == Replying(text) && w.discovered.Known?
            && RunOf(s, c, w).openings != [] && RunOf(s, c, w).openings[0] == opening.value
  {
    hide StepOf;
    hide Replying;
    assert Inboxed(s, []) == s;
  }

  /** A run whose first reply holds a call beside a text that breaks validation leaves that
      call without an answer. */
  lemma BreakingRunLeavesOpen(s: State, c: Config, text: string)
    requires Sound(s.messages) && s.status == Working && !c.budget.Exhausted(s.usage)
    requires c.window != Some(0) && c.schema.Some? && !c.hasCheck && c.schema.value(text).Broken?
    ensures HonestTurns(WorldReplying(text).turns)
    ensures !Paired(RunOf(s, c, WorldReplying(text)).state.messages)
  {
    hide LeavesOpen;
    hide StepOf;
    hide HonestTurns;
    hide Sound;
    hide Paired;
    hide RunOf;
    hide OpeningOf;
    var w := WorldReplying(text);
    var window := WindowOf(c, w.discovered);
    ReplyingIsHonest(text);
    RunIsSound(s, c, w);
    var f := RunOf(s, c, w);
    var opening := OpeningOf(s, FreshLimits(c), Replying(text), s.turns, c);
    FirstOpening(s, c, text);
    ReplyingLeavesOpen(opening.value.state, c, window, text);
    assert OpensLeft(f.openings[0], c, window);
  }

  /** The schema {"required": [[]]} passes the gate, and under it a run whose model replies {}
      beside a call ends with that call unanswered. */
  lemma CallsCanBeLeftOpen(s: State, c: Config, rule: AnswerRule)
    requires Sound(s.messages) && s.status == Working && !c.budget.Exhausted(s.usage)
    requires c.window != Some(0) && !c.hasCheck && JudgedBy(c, rule)
    requires rule.root == Obj([Entry("required", Arr([Arr([])]))]) && rule.parse("{}") == Parsed(Obj([]))
    ensures Acceptable(rule.root, rule.py)
    ensures !Paired(RunOf(s, c, WorldReplying("{}")).state.messages)
  {
    hide Validate;
    hide RunOf;
    UnhashableNameRaises(rule.py);
    BreakingRunLeavesOpen(s, c, "{}");
  }

  /** Without a check, some honest model can make a run leave calls open exactly when its
      schema is one validation cannot be trusted with. */
  lemma CallsLeftOpenExactlyWhen(s: State, c: Config, rule: AnswerRule)
    requires Sound(s.messages) && s.status == Working && !c.budget.Exhausted(s.usage)
    requires c.window != Some(0) && !c.hasCheck && JudgedBy(c, rule) && ReadsBare(rule.parse)
    ensures (exists w: World :: HonestTurns(w.turns) && !Paired(RunOf(s, c, w).state.messages)) <==> !Trusted(rule)
  {
    hide RunOf;
    hide VerdictOf;
    hide Trusted;
    hide ReadsBare;
    if Trusted(rule) {
      forall w: World | HonestTurns(w.turns) ensures Paired(RunOf(s, c, w).state.messages) {
        TrustedRunIsSound(s, c, w, rule);
      }
    } else {
      var text := BreakingText(rule);
      BreakingRunLeavesOpen(s, c, text);
    }
  }
}
