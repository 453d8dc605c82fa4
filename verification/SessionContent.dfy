/** What a saved and a reopened transcript say, word for word. */
module SessionContent {
  import opened Wrappers
  import opened Transcript
  import opened SessionModel

  // ---- saving ----

  /** The strings of a block that redaction reads, in order. Seals and image data are exempt. */
  function Words(b: Block): seq<string>
  {
    match b
    case Text(text) => [text]
    case Thinking(thinking, _) => [thinking]
    case RedactedThinking(_) => []
    case ToolUse(id, name, _) => [id, name]
    case ToolResult(id, content, _, _) => [id, if content.Str? then content.s else content.raw]
  }

  /** The strings of a call's arguments, by name. */
  function ArgWords(b: Block): map<string, string>
  {
    if b.ToolUse? && b.args.Some? then
      map k | k in b.args.value :: if b.args.value[k].Str? then b.args.value[k].s else b.args.value[k].raw
    else map[]
  }

  /** The two blocks are of one kind, and differ in their strings only. */
  predicate OfOneKind(a: Block, b: Block)
  {
    match a
    case Text(_) => b.Text?
    case Thinking(_, seal) => b.Thinking? && b.signature.Signed? == seal.Signed?
    case RedactedThinking(_) => b.RedactedThinking?
    case ToolUse(_, _, args) =>
      && b.ToolUse? && b.args.Some? == args.Some?
      && (args.Some? ==>
            forall k :: k in args.value && k in b.args.value ==> b.args.value[k].Str? == args.value[k].Str?)
    case ToolResult(_, content, isError, image) =>
      && b.ToolResult? && b.content.Str? == content.Str? && b.isError == isError && b.image.Some? == image.Some?
  }

  /** Block b is block a with each of its strings redacted. */
  predicate IsRedacted(a: Block, b: Block, r: Redactor)
  {
    && OfOneKind(a, b)
    && |Words(b)| == |Words(a)| && (forall k :: 0 <= k < |Words(a)| ==> Words(b)[k] == r.text(Words(a)[k]))
    && ArgWords(b).Keys == ArgWords(a).Keys
    && (forall k :: k in ArgWords(a) ==> ArgWords(b)[k] == r.text(ArgWords(a)[k]))
    && (a.ToolResult? && a.image.Some? ==> b.image == Some(r.image(a.image.value)))
  }

  lemma BlockIsRedacted(b: Block, r: Redactor)
    ensures IsRedacted(b, RedactBlock(b, r), r)
  {
  }

  /** Strings redacted one by one make up the block: no two blocks are a's redaction, seals apart. */
  lemma RedactedOneWay(a: Block, b: Block, r: Redactor)
    requires IsRedacted(a, b, r) && Unsealed(a)
    ensures b == RedactBlock(a, r)
  {
    if a.ToolUse? && a.args.Some? {
      var given, redacted := a.args.value, b.args.value;
      assert ArgWords(a).Keys == given.Keys && ArgWords(b).Keys == redacted.Keys;
      forall k | k in given ensures redacted[k] == RedactValue(given[k], r) {
        assert ArgWords(b)[k] == r.text(ArgWords(a)[k]);
      }
      assert redacted == map k | k in given :: RedactValue(given[k], r);
    }
    if |Words(a)| > 0 { assert Words(b)[0] == r.text(Words(a)[0]); }
    if |Words(a)| > 1 { assert Words(b)[1] == r.text(Words(a)[1]); }
  }

  ghost predicate SpeaksOf(b: Block, said: string -> bool)
  {
    (exists k :: 0 <= k < |Words(b)| && said(Words(b)[k])) || (exists k :: k in ArgWords(b) && said(ArgWords(b)[k]))
  }

  /** What redaction takes out of every string is in no string of a saved transcript. */
  lemma NoSecretIsSaved(ms: seq<Message>, r: Redactor, secret: string -> bool)
    requires forall s: string :: !secret(r.text(s))
    ensures forall i, b :: 0 <= i < |ms| && b in Saved(ms, r)[i].content ==> !SpeaksOf(b, secret)
  {
    hide RedactBlock;
    hide IsRedacted;
    hide SpeaksOf;
    forall i, b | 0 <= i < |ms| && b in Saved(ms, r)[i].content ensures !SpeaksOf(b, secret) {
      var redacted := RedactContent(ms[i].content, r);
      assert b in redacted;
      var j :| 0 <= j < |redacted| && redacted[j] == b;
      RedactedSpeaksOfNone(ms[i].content[j], r, secret);
    }
  }

  lemma RedactedSpeaksOfNone(b: Block, r: Redactor, secret: string -> bool)
    requires forall s: string :: !secret(r.text(s))
    ensures !SpeaksOf(RedactBlock(b, r), secret)
  {
    hide RedactBlock;
    BlockIsRedacted(b, r);
  }

  /** A save writes each message under its role, with each of its blocks redacted, in order; only
      sealed thinking is ever missing, and only from the first changed message on. */
  lemma SavedSaysTheSame(ms: seq<Message>, r: Redactor, i: nat)
    returns (kept: seq<Block>)
    requires i < |ms|
    ensures Saved(ms, r)[i].role == ms[i].role
    ensures kept
            == if i < FirstChange(ms, RedactMessages(ms, r)) then ms[i].content else Filter(ms[i].content, Unsealed)
    ensures |Saved(ms, r)[i].content| == |kept|
    ensures forall j :: 0 <= j < |kept| ==> IsRedacted(kept[j], Saved(ms, r)[i].content[j], r)
  {
    hide RedactBlock;
    hide IsRedacted;
    if i < FirstChange(ms, RedactMessages(ms, r)) {
      kept := ms[i].content;
    } else {
      kept := Filter(ms[i].content, Unsealed);
      FilterRedacts(ms[i].content, r);
    }
    forall j | 0 <= j < |kept| ensures IsRedacted(kept[j], RedactBlock(kept[j], r), r) { BlockIsRedacted(kept[j], r); }
  }

  lemma {:induction false} FilterRedacts(content: seq<Block>, r: Redactor)
    ensures Filter(RedactContent(content, r), Unsealed) == RedactContent(Filter(content, Unsealed), r)
  {
    if content != [] {
      FilterRedacts(content[1..], r);
      var redacted := RedactContent(content, r);
      assert redacted[1..] == RedactContent(content[1..], r);
      if Unsealed(content[0]) { RedactCons(content[0], Filter(content[1..], Unsealed), r); }
    }
  }

  lemma RedactCons(b: Block, rest: seq<Block>, r: Redactor)
    ensures RedactContent([b] + rest, r) == [RedactBlock(b, r)] + RedactContent(rest, r)
  {
    assert ([b] + rest)[1..] == rest;
  }

  // ---- reopening ----

  predicate EndsInCalls(ms: seq<Message>)
  {
    ms != [] && ms[|ms| - 1].role == Assistant && HoldsCalls(ms[|ms| - 1].content)
  }

  predicate HoldsCalls(content: seq<Block>)
  {
    exists j :: 0 <= j < |content| && content[j].ToolUse?
  }

  /** The words nare answers an open call with. */
  predicate SaysStopped(b: Block, id: string)
  {
    b == ToolResult(id, Str(STOPPED), true, None)
  }

  lemma {:induction false} OpenMeans(content: seq<Block>)
    ensures CallIds(content) != [] <==> HoldsCalls(content)
  {
    if content != [] {
      OpenMeans(content[1..]);
      if j :| 0 <= j < |content| && content[j].ToolUse? {
        if j > 0 { assert content[1..][j - 1] == content[j]; }
      }
    }
  }

  /** Reopening keeps the history and adds to its end alone: an answer to each open call, in
      order, then the caller's text if there is any, in one user message, which is the last one
      if that was the user's. */
  lemma ReopenedSays(ms: seq<Message>, text: Option<string>)
    ensures var r := ReopenedMessages(ms, text);
            var said := if text.Some? && text.value != "" then [Text(text.value)] else [];
            if EndsInCalls(ms) then
              var ids := CallIds(ms[|ms| - 1].content);
              && |r| == |ms| + 1 && r[..|ms|] == ms && r[|ms|].role == User
              && var answer := r[|ms|].content;
                 && |answer| == |ids| + |said| && answer[|ids|..] == said
                 && forall k :: 0 <= k < |ids| ==> SaysStopped(answer[k], ids[k])
            else if said == [] then r == ms
            else if ms != [] && ms[|ms| - 1].role == User then
              r == ms[..|ms| - 1] + [Message(User, ms[|ms| - 1].content + said)]
            else r == ms + [Message(User, said)]
  {
    if ms != [] { OpenMeans(ms[|ms| - 1].content); }
  }

  /** A reopened session works again, with no reason to have stopped and nothing charged to its
      corrections; whatever else it held it keeps. */
  lemma ReopenedStartsAfresh(s: State, text: Option<string>)
    ensures var r := Reopened(s, text);
            && r.status == Working && r.stop == None
            && r.corrections == CorrectionState(0, [], [], None, false)
            && r.usage == s.usage && r.turns == s.turns && r.toolCalls == s.toolCalls && r.cutoffs == s.cutoffs
            && r.retries == s.retries && r.askNudged == s.askNudged
  {
    hide ReopenedMessages;
  }
}
