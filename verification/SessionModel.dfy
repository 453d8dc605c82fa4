/** The serializable session: what a run carries between steps, and the operations a caller
    has between runs. */
module SessionModel {
  import opened Wrappers
  import opened Transcript

  datatype Status = Working | Blocked | Done | Error

  /** How the provider says a turn ended. */
  datatype TurnEnd = EndTurn | StopSequence | ToolUseTurn | MaxTokens | Repetition | Refusal

  /** Why a run stopped: the provider's word for its last turn, or nare's own. */
  datatype StopReason =
    | Ended(how: TurnEnd)
    | MaxTurns | ContextFull | Budget | Timeout | ToolCalls
    | SchemaViolation | ReadsRequired | NoAnswer | Interrupted | Mcp | SessionWrite

  datatype Usage = Usage(
    input: nat, output: nat, cacheRead: nat, cacheWrite: nat, cost: Option<real>, estimated: bool)
  {
    function Total(): nat
    {
      input + output + cacheRead + cacheWrite
    }

    /** Counters add; a cost is known only while every part of it is. */
    function Plus(other: Usage): (r: Usage)
      ensures r.Total() == Total() + other.Total()
      ensures r.cost.Some? <==> cost.Some? && other.cost.Some?
      ensures r.cost.Some? ==> r.cost.value - cost.value == other.cost.value
      ensures !r.estimated <==> !estimated && !other.estimated
    {
      Usage(
        input + other.input, output + other.output, cacheRead + other.cacheRead, cacheWrite + other.cacheWrite,
        if cost.Some? && other.cost.Some? then Some(cost.value + other.cost.value) else None,
        estimated || other.estimated)
    }
  }

  datatype CorrectionKind = SchemaCorrection | ReadsCorrection

  datatype LogEntry = LogEntry(kind: CorrectionKind, charged: bool, codes: seq<string>)

  /** The correction record of a run. */
  datatype CorrectionState = CorrectionState(
    charged: nat, log: seq<LogEntry>, seen: seq<string>, fewest: Option<nat>, retried: bool)

  const NO_CORRECTIONS := CorrectionState(0, [], [], None, false)

  /** A session's fields, as one value. */
  datatype State = State(
    messages: seq<Message>, usage: Usage, status: Status, stop: Option<StopReason>,
    turns: nat, toolCalls: nat, cutoffs: nat, retries: nat, askNudged: bool, corrections: CorrectionState)

  // ---- the operations, as functions of the transcript ----

  /** Add user text, merging into a trailing user message rather than following it. */
  function Appended(ms: seq<Message>, text: string): (r: seq<Message>)
  {
    if ms != [] && ms[|ms| - 1].role == User then
      ms[..|ms| - 1] + [Message(User, ms[|ms| - 1].content + [Text(text)])]
    else ms + [Message(User, [Text(text)])]
  }

  /** The calls of a final assistant message, which have no results yet. */
  function Unanswered(ms: seq<Message>): seq<string>
  {
    Pending(ms, |ms|)
  }

  const STOPPED := "no result: the run stopped before this call returned"

  function ErrorResults(ids: seq<string>, text: string): (r: seq<Block>)
    ensures Answers(r, ids) && |r| == |ids| && NoSealed(r)
  {
    seq(|ids|, i requires 0 <= i < |ids| => ToolResult(ids[i], Str(text), true, None))
  }

  /** Answer the open calls of a stopped run, then add the caller's text if any. */
  function ReopenedMessages(ms: seq<Message>, text: Option<string>): seq<Message>
  {
    var ids := Unanswered(ms);
    var answered := if ids == [] then ms else ms + [Message(User, ErrorResults(ids, STOPPED))];
    if text.Some? && text.value != "" then Appended(answered, text.value) else answered
  }

  function Reopened(s: State, text: Option<string>): State
  {
    s.(messages := ReopenedMessages(s.messages, text), status := Working, stop := None, corrections := NO_CORRECTIONS)
  }

  function DroppedMessages(ms: seq<Message>): (r: seq<Message>)
    ensures |r| == |ms|
    ensures forall i :: 0 <= i < |ms| ==> r[i] == Message(ms[i].role, WithoutSealed(ms[i].content))
  {
    seq(|ms|, i requires 0 <= i < |ms| => Message(ms[i].role, WithoutSealed(ms[i].content)))
  }

  /** What redaction does to the strings of a block. A seal is a string too, so redaction can
      rewrite what it stands for; image data is exempt by a rule of its own. */
  datatype Redactor = Redactor(
    text: string -> string, seal: seq<Message> -> seq<Message>, image: string -> string)

  function RedactValue(v: Value, r: Redactor): Value
  {
    match v
    case Str(s) => Str(r.text(s))
    case NonStr(raw) => NonStr(r.text(raw))
  }

  function RedactBlock(b: Block, r: Redactor): Block
  {
    match b
    case Text(text) => Text(r.text(text))
    case Thinking(thinking, Unsigned) => Thinking(r.text(thinking), Unsigned)
    case Thinking(thinking, Signed(after)) => Thinking(r.text(thinking), Signed(r.seal(after)))
    case RedactedThinking(after) => RedactedThinking(r.seal(after))
    case ToolUse(id, name, args) =>
      ToolUse(
        r.text(id), r.text(name),
        if args.Some? then Some(map k | k in args.value :: RedactValue(args.value[k], r)) else None)
    case ToolResult(id, content, isError, image) =>
      ToolResult(
        r.text(id), RedactValue(content, r), isError, if image.Some? then Some(r.image(image.value)) else None)
  }

  function RedactContent(content: seq<Block>, r: Redactor): (out: seq<Block>)
    ensures |out| == |content|
    ensures forall i :: 0 <= i < |content| ==> out[i] == RedactBlock(content[i], r)
  {
    if content == [] then [] else [RedactBlock(content[0], r)] + RedactContent(content[1..], r)
  }

  function RedactMessages(ms: seq<Message>, r: Redactor): (out: seq<Message>)
    ensures |out| == |ms|
    ensures forall i :: 0 <= i < |ms| ==> out[i] == Message(ms[i].role, RedactContent(ms[i].content, r))
  {
    seq(|ms|, i requires 0 <= i < |ms| => Message(ms[i].role, RedactContent(ms[i].content, r)))
  }

  predicate SentAlike(a: Message, b: Message)
  {
    SentContent(a.content) == SentContent(b.content)
  }

  function ChangeFrom(ms: seq<Message>, redacted: seq<Message>, i: nat): (n: nat)
    requires |ms| == |redacted| && i <= |ms|
    ensures i <= n <= |ms|
    ensures forall k :: i <= k < n ==> SentAlike(ms[k], redacted[k])
    ensures n < |ms| ==> !SentAlike(ms[n], redacted[n])
    decreases |ms| - i
  {
    if i == |ms| || !SentAlike(ms[i], redacted[i]) then i else ChangeFrom(ms, redacted, i + 1)
  }

  /** The first message redaction changes as sent, or the length. */
  function FirstChange(ms: seq<Message>, redacted: seq<Message>): (n: nat)
    requires |ms| == |redacted|
    ensures n <= |ms|
    ensures forall i :: 0 <= i < n ==> SentAlike(ms[i], redacted[i])
    ensures n < |ms| ==> !SentAlike(ms[n], redacted[n])
  {
    ChangeFrom(ms, redacted, 0)
  }

  function DropFrom(ms: seq<Message>, n: nat): (r: seq<Message>)
    requires n <= |ms|
    ensures |r| == |ms|
    ensures forall i :: 0 <= i < n ==> r[i] == ms[i]
    ensures forall i :: n <= i < |ms| ==> r[i] == Message(ms[i].role, WithoutSealed(ms[i].content))
  {
    ms[..n] + DroppedMessages(ms[n..])
  }

  /** The transcript as a save writes it, and a load of that file reads it. */
  function Saved(ms: seq<Message>, r: Redactor): (out: seq<Message>)
    ensures |out| == |ms|
  {
    var redacted := RedactMessages(ms, r);
    DropFrom(redacted, FirstChange(ms, redacted))
  }

  // ---- what the operations keep ----

  lemma AppendedValid(ms: seq<Message>, text: string)
    requires ThinkingValid(ms)
    ensures ThinkingValid(Appended(ms, text))
  {
    if ms != [] && ms[|ms| - 1].role == User {
      TailGrowsValid(ms, [Text(text)]);
    } else {
      ValidUpTo(ms, Appended(ms, text), |ms|);
    }
  }

  lemma AppendedPaired(ms: seq<Message>, text: string)
    requires Paired(ms)
    ensures Paired(Appended(ms, text))
  {
    NoCalls([Text(text)]);
    if ms != [] && ms[|ms| - 1].role == User {
      var last := ms[|ms| - 1];
      LastGrows(ms, Message(User, last.content + [Text(text)]), [Text(text)]);
    } else {
      PairedAppend(ms, Message(User, [Text(text)]));
    }
  }

  lemma ReopenedPaired(ms: seq<Message>, text: Option<string>)
    requires PairedSoFar(ms)
    ensures Paired(ReopenedMessages(ms, text))
  {
    var ids := Unanswered(ms);
    if ids != [] {
      NoCalls(ErrorResults(ids, STOPPED));
      PairedAppend(ms, Message(User, ErrorResults(ids, STOPPED)));
    }
    var answered := if ids == [] then ms else ms + [Message(User, ErrorResults(ids, STOPPED))];
    if text.Some? && text.value != "" { AppendedPaired(answered, text.value); }
  }

  lemma ReopenedValid(ms: seq<Message>, text: Option<string>)
    requires ThinkingValid(ms)
    ensures ThinkingValid(ReopenedMessages(ms, text))
  {
    var ids := Unanswered(ms);
    var answered := if ids == [] then ms else ms + [Message(User, ErrorResults(ids, STOPPED))];
    if ids != [] { ValidUpTo(ms, answered, |ms|); }
    if text.Some? && text.value != "" { AppendedValid(answered, text.value); }
  }

  lemma DropFromKeeps(ms: seq<Message>, n: nat)
    requires n <= |ms|
    ensures PairedSoFar(ms) ==> PairedSoFar(DropFrom(ms, n))
    ensures Paired(ms) ==> Paired(DropFrom(ms, n))
    ensures ThinkingValid(ms) ==> ThinkingValid(DropFrom(ms, n))
  {
    forall i | 0 <= i < |ms| ensures MessageKeeps(ms[i], DropFrom(ms, n)[i]) {
      if i >= n { WithoutSealedKeeps(ms[i]); }
    }
    EditsKeepPaired(ms, DropFrom(ms, n));
    if ThinkingValid(ms) { ValidUpTo(ms, DropFrom(ms, n), n); }
  }

  lemma DroppedKeeps(ms: seq<Message>)
    ensures PairedSoFar(ms) ==> PairedSoFar(DroppedMessages(ms))
    ensures Paired(ms) ==> Paired(DroppedMessages(ms))
    ensures ThinkingValid(DroppedMessages(ms))
  {
    forall i | 0 <= i < |ms| ensures MessageKeeps(ms[i], DroppedMessages(ms)[i]) { WithoutSealedKeeps(ms[i]); }
    EditsKeepPaired(ms, DroppedMessages(ms));
    ValidUpTo([], DroppedMessages(ms), 0);
  }

  /** Whatever redaction rewrites, even a signature, a saved transcript is valid to resume. */
  lemma SavedValid(ms: seq<Message>, r: Redactor)
    requires ThinkingValid(ms)
    ensures ThinkingValid(Saved(ms, r))
  {
    var redacted := RedactMessages(ms, r);
    ValidUpTo(ms, Saved(ms, r), FirstChange(ms, redacted));
  }

  function RedactIds(ids: seq<string>, r: Redactor): (out: seq<string>)
    ensures |out| == |ids| && forall i :: 0 <= i < |ids| ==> out[i] == r.text(ids[i])
  {
    seq(|ids|, i requires 0 <= i < |ids| => r.text(ids[i]))
  }

  lemma {:induction false} RedactedCalls(content: seq<Block>, r: Redactor)
    ensures CallIds(RedactContent(content, r)) == RedactIds(CallIds(content), r)
  {
    if content != [] {
      var first := RedactBlock(content[0], r);
      assert RedactContent(content, r) == [first] + RedactContent(content[1..], r);
      RedactedCalls(content[1..], r);
      CallIdsConcat([first], RedactContent(content[1..], r));
      CallIdsConcat([content[0]], content[1..]);
      assert content == [content[0]] + content[1..];
      assert first.ToolUse? <==> content[0].ToolUse?;
    }
  }

  lemma RedactedAnswers(content: seq<Block>, ids: seq<string>, r: Redactor)
    requires Answers(content, ids)
    ensures Answers(RedactContent(content, r), RedactIds(ids, r))
  {
  }

  lemma RedactedFollows(pending: seq<string>, m: Message, r: Redactor)
    requires Follows(pending, m)
    ensures Follows(RedactIds(pending, r), Message(m.role, RedactContent(m.content, r)))
  {
    RedactedAnswers(m.content, pending, r);
    RedactedCalls(m.content, r);
  }

  /** Redaction maps a call's id and its result's id alike, so the transcript stays paired. */
  lemma SavedPaired(ms: seq<Message>, r: Redactor)
    requires PairedSoFar(ms)
    ensures PairedSoFar(Saved(ms, r))
    ensures Paired(ms) ==> Paired(Saved(ms, r))
  {
    var redacted := RedactMessages(ms, r);
    forall i | 0 <= i <= |ms| ensures Pending(redacted, i) == RedactIds(Pending(ms, i), r) {
      if i > 0 { RedactedCalls(ms[i - 1].content, r); }
    }
    forall i | 0 <= i < |ms| ensures PairedAt(redacted, i) {
      assert PairedAt(ms, i);
      RedactedFollows(Pending(ms, i), ms[i], r);
    }
    DropFromKeeps(redacted, FirstChange(ms, redacted));
  }

  /** Redaction that finds nothing new in its own output. */
  ghost predicate Settles(r: Redactor)
  {
    && (forall s :: r.text(r.text(s)) == r.text(s))
    && (forall h :: r.seal(r.seal(h)) == r.seal(h))
    && (forall d :: r.image(r.image(d)) == r.image(d))
  }

  lemma RedactTwice(b: Block, r: Redactor)
    requires Settles(r)
    ensures RedactBlock(RedactBlock(b, r), r) == RedactBlock(b, r)
  {
    if b.ToolUse? && b.args.Some? {
      var once := RedactBlock(b, r).args.value;
      var twice := RedactBlock(RedactBlock(b, r), r).args.value;
      forall k | k in once ensures twice[k] == once[k] {}
      assert once == twice;
    }
  }

  /** Once a session has been saved and loaded, saving and loading it again changes nothing. */
  lemma SaveIsStable(ms: seq<Message>, r: Redactor)
    requires Settles(r)
    ensures Saved(Saved(ms, r), r) == Saved(ms, r)
  {
    hide RedactBlock;
    hide Settles;
    hide Filter;
    hide SentBack;
    var once := Saved(ms, r);
    var again := RedactMessages(once, r);
    forall i | 0 <= i < |ms| ensures again[i] == once[i] {
      forall b | b in once[i].content ensures RedactBlock(b, r) == b {
        assert b in RedactMessages(ms, r)[i].content;
        var j :| 0 <= j < |ms[i].content| && b == RedactBlock(ms[i].content[j], r);
        RedactTwice(ms[i].content[j], r);
      }
      assert again[i].content == once[i].content;
    }
    assert again == once;
    assert FirstChange(once, again) == |ms|;
    assert Saved(once, r) == once;
  }

  /** A save keeps the transcript exactly when redaction has nothing to change in it. */
  lemma SaveIsExact(ms: seq<Message>, r: Redactor)
    ensures Saved(ms, r) == ms <==> RedactMessages(ms, r) == ms
  {
    hide RedactContent;
    hide SentContent;
    hide WithoutSealed;
    var redacted := RedactMessages(ms, r);
    var n := FirstChange(ms, redacted);
    if redacted == ms {
      assert n == |ms|;
    } else if Saved(ms, r) == ms {
      assert forall i :: 0 <= i < n ==> redacted[i] == ms[i];
      assert n < |ms|;
      WithoutSealedLength(redacted[n].content);
    }
  }

  lemma WithoutSealedLength(content: seq<Block>)
    ensures |WithoutSealed(content)| <= |content|
    ensures |WithoutSealed(content)| == |content| ==> WithoutSealed(content) == content
  {
    FilterLength(content, Unsealed);
  }

  lemma {:induction false} FilterLength(content: seq<Block>, keep: Block -> bool)
    ensures |Filter(content, keep)| == |content| ==> Filter(content, keep) == content
  {
    if content != [] { FilterLength(content[1..], keep); }
  }

  // ---- the session object ----

  method FindFirstChange(ms: seq<Message>, redacted: seq<Message>) returns (first: nat)
    requires |ms| == |redacted|
    ensures first == FirstChange(ms, redacted)
  {
    first := 0;
    while first < |ms| && SentContent(ms[first].content) == SentContent(redacted[first].content)
      invariant first <= |ms|
      invariant ChangeFrom(ms, redacted, first) == FirstChange(ms, redacted)
    {
      first := first + 1;
    }
  }

  /** How many blocks a transcript holds. */
  function BlockCount(ms: seq<Message>): nat
  {
    if ms == [] then 0 else BlockCount(ms[..|ms| - 1]) + |ms[|ms| - 1].content|
  }

  lemma {:induction false} CountUpdated(ms: seq<Message>, i: nat, m: Message)
    requires i < |ms|
    ensures BlockCount(ms[i := m]) + |ms[i].content| == BlockCount(ms) + |m.content|
  {
    var n := |ms| - 1;
    if i < n {
      assert ms[i := m][..n] == ms[..n][i := m];
      CountUpdated(ms[..n], i, m);
    } else {
      assert ms[i := m][..n] == ms[..n];
    }
  }

  method DropStale(redacted: seq<Message>, first: nat) returns (saved: seq<Message>)
    requires first <= |redacted|
    ensures saved == DropFrom(redacted, first)
  {
    saved := redacted;
    for i := first to |saved|
      invariant |saved| == |redacted|
      invariant forall k :: 0 <= k < i ==> saved[k] == DropFrom(redacted, first)[k]
      invariant forall k :: i <= k < |saved| ==> saved[k] == redacted[k]
    {
      saved := saved[i := Message(saved[i].role, WithoutSealed(saved[i].content))];
    }
  }

  class Session {
    var messages: seq<Message>
    var usage: Usage
    var status: Status
    var stopReason: Option<StopReason>
    var turns: nat
    var toolCalls: nat
    var cutoffs: nat
    var retries: nat
    var askNudged: bool
    var schemaCorrections: nat
    var schemaCorrectionLog: seq<LogEntry>
    var schemaErrorsSeen: seq<string>
    var schemaFewestErrors: Option<nat>
    var schemaRetried: bool

    /** The whole session, as one value. */
    ghost function Snapshot(): State
      reads this
    {
      State(
        messages, usage, status, stopReason, turns, toolCalls, cutoffs, retries, askNudged,
        CorrectionState(
          schemaCorrections, schemaCorrectionLog, schemaErrorsSeen, schemaFewestErrors, schemaRetried))
    }

    constructor (prompt: string)
      ensures messages == Appended([], prompt) && Paired(messages) && ThinkingValid(messages)
      ensures status == Working && stopReason == None && usage.Total() == 0
      ensures Snapshot().corrections == NO_CORRECTIONS
    {
      messages := Appended([], prompt);
      usage := Usage(0, 0, 0, 0, Some(0.0), false);
      status, stopReason := Working, None;
      turns, toolCalls, cutoffs, retries, askNudged := 0, 0, 0, 0, false;
      schemaCorrections, schemaCorrectionLog, schemaErrorsSeen := 0, [], [];
      schemaFewestErrors, schemaRetried := None, false;
      new;
      AppendedPaired([], prompt);
      AppendedValid([], prompt);
    }

    constructor Copy(from: Session)
      ensures Snapshot() == from.Snapshot()
    {
      messages, usage, status, stopReason := from.messages, from.usage, from.status, from.stopReason;
      turns, toolCalls, cutoffs := from.turns, from.toolCalls, from.cutoffs;
      retries, askNudged := from.retries, from.askNudged;
      schemaCorrections, schemaCorrectionLog := from.schemaCorrections, from.schemaCorrectionLog;
      schemaErrorsSeen, schemaFewestErrors := from.schemaErrorsSeen, from.schemaFewestErrors;
      schemaRetried := from.schemaRetried;
    }

    method AppendUserText(text: string)
      modifies this`messages
      ensures messages == Appended(old(messages), text)
    {
      var n := |messages|;
      if n > 0 && messages[n - 1].role == User {
        messages := messages[n - 1 := Message(User, messages[n - 1].content + [Text(text)])];
        assert messages == Appended(old(messages), text);
      } else {
        messages := messages + [Message(User, [Text(text)])];
      }
    }

    method AnswerOpenCalls(text: Option<string>)
      modifies this`messages
      ensures messages == ReopenedMessages(old(messages), text)
    {
      var calls := Unanswered(messages);
      if calls != [] {
        messages := messages + [Message(User, ErrorResults(calls, STOPPED))];
      }
      if text.Some? && text.value != "" {
        AppendUserText(text.value);
      }
    }

    /** Make a finished session runnable again. */
    method Reopen(text: Option<string>)
      modifies this
      ensures Snapshot() == Reopened(old(Snapshot()), text)
    {
      AnswerOpenCalls(text);
      status := Working;
      ForgetCorrections();
      stopReason := None;
    }

    /** Per-run state: a resume starts with its own correction budget. */
    method ForgetCorrections()
      modifies `schemaCorrections, `schemaCorrectionLog, `schemaErrorsSeen, `schemaFewestErrors, `schemaRetried
      ensures Snapshot() == old(Snapshot()).(corrections := NO_CORRECTIONS)
    {
      schemaRetried := false;
      schemaCorrections := 0;
      schemaCorrectionLog := [];
      schemaErrorsSeen := [];
      schemaFewestErrors := None;
    }

    /** Drop the signed thinking from the live history; returns how many blocks went. */
    method DropSignedThinking() returns (dropped: nat)
      modifies this`messages
      ensures messages == DroppedMessages(old(messages))
      ensures BlockCount(messages) + dropped == BlockCount(old(messages))
      ensures dropped == 0 ==> messages == old(messages)
    {
      hide BlockCount;
      dropped := 0;
      for i := 0 to |messages|
        invariant |messages| == |old(messages)|
        invariant forall k :: 0 <= k < i ==> messages[k] == DroppedMessages(old(messages))[k]
        invariant forall k :: i <= k < |messages| ==> messages[k] == old(messages)[k]
        invariant BlockCount(messages) + dropped == BlockCount(old(messages))
        invariant dropped == 0 ==> messages == old(messages)
      {
        var kept := WithoutSealed(messages[i].content);
        WithoutSealedLength(messages[i].content);
        CountUpdated(messages, i, Message(messages[i].role, kept));
        dropped := dropped + |messages[i].content| - |kept|;
        messages := messages[i := Message(messages[i].role, kept)];
      }
    }

    /** The transcript as the session file holds it. The live session keeps its thinking. */
    method Dumps(r: Redactor) returns (saved: seq<Message>)
      ensures saved == Saved(messages, r)
    {
      var redacted := RedactMessages(messages, r);
      var first := FindFirstChange(messages, redacted);
      saved := DropStale(redacted, first);
    }

    /** A new session that starts from this transcript, and leaves this one alone. */
    method Fork() returns (child: Session)
      ensures fresh(child) && child.Snapshot() == Snapshot()
    {
      child := new Session.Copy(this);
    }
  }
}
