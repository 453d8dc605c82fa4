/** The transcript a session carries, and the two properties every vendor demands of it: each
    tool call is answered at once and in order, and signed thinking still stands behind
    exactly the history it was made after. */
module Transcript {
  import opened Wrappers

  datatype Role = User | Assistant

  /** A string, or a value of some other type that nare leaves alone. */
  datatype Value = Str(s: string) | NonStr(raw: string)

  /** A vendor's signature is opaque to nare, except that a block may have none. It is valid
      only behind the history it was issued for, so it is modelled by that history: the
      messages sent before the block, the last one being the part of the block's own message
      that precedes it. */
  datatype Signature = Unsigned | Signed(after: seq<Message>)

  datatype Block =
    | Text(text: string)
    | Thinking(thinking: string, signature: Signature)
    | RedactedThinking(after: seq<Message>)
    | ToolUse(id: string, name: string, args: Option<map<string, Value>>)
    | ToolResult(id: string, content: Value, isError: bool, image: Option<string>)

  datatype Message = Message(role: Role, content: seq<Block>)

  // ---- what is sent back ----

  /** Whether a saved block goes back to the model. */
  predicate SentBack(b: Block)
  {
    match b
    case Thinking(_, signature) => signature.Signed?
    case Text(text) => text != ""
    case _ => true
  }

  /** Thinking the vendor holds us to: signed, or redacted by the vendor. */
  predicate IsSealed(b: Block)
  {
    (b.Thinking? && b.signature.Signed?) || b.RedactedThinking?
  }

  predicate Unsealed(b: Block)
  {
    !IsSealed(b)
  }

  function SealedAfter(b: Block): seq<Message>
    requires IsSealed(b)
  {
    if b.Thinking? then b.signature.after else b.after
  }

  function Filter(content: seq<Block>, keep: Block -> bool): (r: seq<Block>)
    ensures |r| <= |content|
    ensures forall b :: b in r <==> b in content && keep(b)
  {
    if content == [] then []
    else (if keep(content[0]) then [content[0]] else []) + Filter(content[1..], keep)
  }

  lemma {:induction false} FilterConcat(a: seq<Block>, b: seq<Block>, keep: Block -> bool)
    ensures Filter(a + b, keep) == Filter(a, keep) + Filter(b, keep)
  {
    if a == [] {
      assert a + b == b;
    } else {
      assert (a + b)[0] == a[0] && (a + b)[1..] == a[1..] + b;
      FilterConcat(a[1..], b, keep);
    }
  }

  lemma {:induction false} FilterAll(content: seq<Block>, keep: Block -> bool)
    requires forall b :: b in content ==> keep(b)
    ensures Filter(content, keep) == content
  {
    if content != [] { FilterAll(content[1..], keep); }
  }

  function SentContent(content: seq<Block>): seq<Block>
  {
    Filter(content, SentBack)
  }

  /** The blocks minus the thinking that goes back to the model. */
  function WithoutSealed(content: seq<Block>): (r: seq<Block>)
  {
    Filter(content, Unsealed)
  }

  function SentMessage(m: Message): Message
  {
    Message(m.role, SentContent(m.content))
  }

  /** The history as the vendor is sent it. */
  function Sent(ms: seq<Message>): (r: seq<Message>)
    ensures |r| == |ms|
    ensures forall i :: 0 <= i < |ms| ==> r[i] == SentMessage(ms[i])
  {
    seq(|ms|, i requires 0 <= i < |ms| => SentMessage(ms[i]))
  }

  // ---- thinking validity ----

  /** What the block at position j of message k of a sent history is preceded by. */
  function Before(sent: seq<Message>, k: nat, j: nat): seq<Message>
    requires k < |sent| && j <= |sent[k].content|
  {
    sent[..k] + [Message(sent[k].role, sent[k].content[..j])]
  }

  /** Every sealed block of message k stands behind the history it was made after. */
  ghost predicate SealsHold(sent: seq<Message>, k: nat)
    requires k < |sent|
  {
    forall j :: 0 <= j < |sent[k].content| && IsSealed(sent[k].content[j]) ==>
      SealedAfter(sent[k].content[j]) == Before(sent, k, j)
  }

  /** No request built from this transcript carries stale thinking. */
  ghost predicate ThinkingValid(ms: seq<Message>)
  {
    forall k :: 0 <= k < |ms| ==> SealsHold(Sent(ms), k)
  }

  /** Sealed thinking in a reply was issued for the history it answers. */
  ghost predicate Issued(content: seq<Block>, history: seq<Message>)
  {
    var sent := SentContent(content);
    forall j :: 0 <= j < |sent| && IsSealed(sent[j]) ==>
      SealedAfter(sent[j]) == history + [Message(Assistant, sent[..j])]
  }

  ghost predicate NoSealed(content: seq<Block>)
  {
    forall b :: b in content ==> !IsSealed(b)
  }

  /** Messages a longer transcript shares with a valid one keep their seals. */
  lemma SealsOfPrefix(a: seq<Message>, b: seq<Message>, n: nat)
    requires ThinkingValid(a) && n <= |a| && n <= |b|
    requires forall i :: 0 <= i < n ==> SentMessage(a[i]) == SentMessage(b[i])
    ensures forall k :: 0 <= k < n ==> SealsHold(Sent(b), k)
  {
    forall k | 0 <= k < n ensures SealsHold(Sent(b), k) {
      assert SealsHold(Sent(a), k);
      assert Sent(a)[..k + 1] == Sent(b)[..k + 1];
      assert Sent(a)[..k] == Sent(a)[..k + 1][..k] && Sent(b)[..k] == Sent(b)[..k + 1][..k];
      assert Sent(a)[k] == Sent(b)[k];
    }
  }

  /** The general rule: a transcript that agrees with a valid one, as sent, up to some
      message, and has no sealed thinking from there on, is valid. */
  lemma ValidUpTo(a: seq<Message>, b: seq<Message>, n: nat)
    requires ThinkingValid(a) && n <= |a| && n <= |b|
    requires forall i :: 0 <= i < n ==> SentMessage(a[i]) == SentMessage(b[i])
    requires forall i :: n <= i < |b| ==> NoSealed(b[i].content)
    ensures ThinkingValid(b)
  {
    SealsOfPrefix(a, b, n);
    forall k | n <= k < |b| ensures SealsHold(Sent(b), k) {
      forall j | 0 <= j < |Sent(b)[k].content| ensures !IsSealed(Sent(b)[k].content[j]) {
        assert Sent(b)[k].content[j] in b[k].content;
      }
    }
  }

  /** A reply issued for the history keeps it valid. */
  lemma ReplyValid(ms: seq<Message>, content: seq<Block>)
    requires ThinkingValid(ms) && Issued(content, Sent(ms))
    ensures ThinkingValid(ms + [Message(Assistant, content)])
  {
    var more := ms + [Message(Assistant, content)];
    var n := |ms|;
    SealsOfPrefix(ms, more, n);
    assert Sent(more)[..n] == Sent(ms);
  }

  /** Blocks appended to the last message, none of them sealed, leave the seals alone. */
  lemma TailGrowsValid(ms: seq<Message>, more: seq<Block>)
    requires ThinkingValid(ms) && ms != [] && NoSealed(more)
    ensures ThinkingValid(ms[..|ms| - 1] + [Message(ms[|ms| - 1].role, ms[|ms| - 1].content + more)])
  {
    hide SealsHold;
    hide Filter;
    var n := |ms| - 1;
    var last := ms[n];
    var grown := ms[..n] + [Message(last.role, last.content + more)];
    SealsOfPrefix(ms, grown, n);
    FilterConcat(last.content, more, SentBack);
    assert SealsHold(Sent(ms), n);
    assert Sent(grown)[..n] == Sent(ms)[..n];
    SealsGrow(Sent(ms), Sent(grown), n, SentContent(more));
  }

  lemma SealsGrow(sent: seq<Message>, grown: seq<Message>, n: nat, more: seq<Block>)
    requires n < |sent| && n < |grown| && sent[..n] == grown[..n] && SealsHold(sent, n)
    requires grown[n] == Message(sent[n].role, sent[n].content + more) && NoSealed(more)
    ensures SealsHold(grown, n)
  {
    var had := |sent[n].content|;
    assert forall i :: had <= i < |grown[n].content| ==> grown[n].content[i] in more;
    forall j | 0 <= j < |grown[n].content| && IsSealed(grown[n].content[j])
      ensures SealedAfter(grown[n].content[j]) == Before(grown, n, j)
    {
      assert j < had;
      assert grown[n].content[..j] == sent[n].content[..j];
    }
  }

  // ---- pairing ----

  /** The ids of a message's tool calls, in order. */
  function CallIds(content: seq<Block>): (ids: seq<string>)
    ensures |ids| <= |content|
  {
    if content == [] then []
    else (if content[0].ToolUse? then [content[0].id] else []) + CallIds(content[1..])
  }

  lemma {:induction false} CallIdsConcat(a: seq<Block>, b: seq<Block>)
    ensures CallIds(a + b) == CallIds(a) + CallIds(b)
  {
    if a == [] {
      assert a + b == b;
    } else {
      assert (a + b)[0] == a[0] && (a + b)[1..] == a[1..] + b;
      CallIdsConcat(a[1..], b);
    }
  }

  lemma {:induction false} NoCalls(content: seq<Block>)
    requires forall j :: 0 <= j < |content| ==> !content[j].ToolUse?
    ensures CallIds(content) == []
  {
    if content != [] { NoCalls(content[1..]); }
  }

  /** The ids a message at position i has to answer: the calls of the message before it. */
  function Pending(ms: seq<Message>, i: nat): seq<string>
    requires i <= |ms|
  {
    if i > 0 && ms[i - 1].role == Assistant then CallIds(ms[i - 1].content) else []
  }

  /** The content opens with one result for each call, in order, and holds no other. */
  ghost predicate Answers(content: seq<Block>, ids: seq<string>)
  {
    && |ids| <= |content|
    && (forall i :: 0 <= i < |ids| ==> content[i].ToolResult? && content[i].id == ids[i])
    && (forall i :: |ids| <= i < |content| ==> !content[i].ToolResult?)
  }

  ghost predicate PairedAt(ms: seq<Message>, i: nat)
    requires i < |ms|
  {
    Follows(Pending(ms, i), ms[i])
  }

  /** A user message answers what is pending and calls nothing; an assistant message comes when
      nothing is pending, and answers nothing. */
  ghost predicate Follows(pending: seq<string>, m: Message)
  {
    if m.role == User then Answers(m.content, pending) && CallIds(m.content) == []
    else pending == [] && Answers(m.content, [])
  }

  /** Every message answers the calls before it; the calls of the last message may be open. */
  ghost predicate PairedSoFar(ms: seq<Message>)
  {
    forall i :: 0 <= i < |ms| ==> PairedAt(ms, i)
  }

  /** Each assistant message with n calls is followed at once by a user message whose first n
      blocks are their results, with the same ids in the same order; no message holds any other
      result, and no user message a call. */
  ghost predicate Paired(ms: seq<Message>)
  {
    PairedSoFar(ms) && Pending(ms, |ms|) == []
  }

  lemma PairedAppend(ms: seq<Message>, m: Message)
    requires PairedSoFar(ms)
    requires Follows(Pending(ms, |ms|), m)
    ensures PairedSoFar(ms + [m])
    ensures m.role == User || CallIds(m.content) == [] ==> Paired(ms + [m])
  {
    var more := ms + [m];
    forall i | 0 <= i < |more| ensures PairedAt(more, i) {
      if i < |ms| { assert PairedAt(ms, i); }
      assert Pending(more, i) == Pending(ms, i);
    }
  }

  lemma FollowsWithMore(pending: seq<string>, m: Message, more: seq<Block>)
    requires Follows(pending, m) && Answers(more, []) && (m.role == User ==> CallIds(more) == [])
    ensures Follows(pending, Message(m.role, m.content + more))
  {
    CallIdsConcat(m.content, more);
    var all := m.content + more;
    forall i | |m.content| <= i < |all| ensures !all[i].ToolResult? { assert all[i] == more[i - |m.content|]; }
  }

  lemma LastGrows(output: seq<Message>, joined: Message, more: seq<Block>)
    requires output != [] && PairedSoFar(output)
    requires var last := output[|output| - 1];
             joined == Message(last.role, last.content + more) && Answers(more, [])
             && (last.role == User ==> CallIds(more) == [])
    ensures PairedSoFar(output[..|output| - 1] + [joined])
  {
    hide Follows;
    hide Answers;
    var n := |output| - 1;
    var all := output[..n] + [joined];
    forall i | 0 <= i < |all| ensures PairedAt(all, i) {
      assert PairedAt(output, i);
      assert Pending(all, i) == Pending(output, i);
      if i == n { FollowsWithMore(Pending(output, n), output[n], more); }
    }
  }

  /** What an edit of one message must keep: its role, its calls, and what it answers. */
  ghost predicate MessageKeeps(a: Message, b: Message)
  {
    && a.role == b.role
    && CallIds(a.content) == CallIds(b.content)
    && forall ids :: Answers(a.content, ids) ==> Answers(b.content, ids)
  }

  lemma EditsKeepPaired(a: seq<Message>, b: seq<Message>)
    requires |a| == |b| && forall i :: 0 <= i < |a| ==> MessageKeeps(a[i], b[i])
    ensures PairedSoFar(a) ==> PairedSoFar(b)
    ensures Paired(a) ==> Paired(b)
  {
    forall i | 0 <= i <= |a| ensures Pending(a, i) == Pending(b, i) {
      if i > 0 { assert MessageKeeps(a[i - 1], b[i - 1]); }
    }
    if PairedSoFar(a) {
      forall i | 0 <= i < |b| ensures PairedAt(b, i) {
        assert PairedAt(a, i) && MessageKeeps(a[i], b[i]);
      }
    }
  }

  /** Dropping sealed thinking keeps calls, results and their order. */
  lemma {:induction false} WithoutSealedCalls(content: seq<Block>)
    ensures CallIds(WithoutSealed(content)) == CallIds(content)
  {
    if content != [] {
      WithoutSealedCalls(content[1..]);
      CallIdsConcat(if IsSealed(content[0]) then [] else [content[0]], WithoutSealed(content[1..]));
    }
  }

  lemma {:induction false} WithoutSealedAnswers(content: seq<Block>, ids: seq<string>)
    requires Answers(content, ids)
    ensures Answers(WithoutSealed(content), ids)
  {
    if ids == [] {
      forall b | b in WithoutSealed(content) ensures !b.ToolResult? {
        var i :| 0 <= i < |content| && content[i] == b;
      }
    } else {
      AnswersRest(content, ids);
      WithoutSealedAnswers(content[1..], ids[1..]);
      AnswersCons(content[0], WithoutSealed(content[1..]), ids);
    }
  }

  lemma AnswersRest(content: seq<Block>, ids: seq<string>)
    requires Answers(content, ids) && ids != []
    ensures content[0].ToolResult? && content[0].id == ids[0] && Answers(content[1..], ids[1..])
  {
  }

  lemma AnswersCons(first: Block, rest: seq<Block>, ids: seq<string>)
    requires ids != [] && first.ToolResult? && first.id == ids[0] && Answers(rest, ids[1..])
    ensures Answers([first] + rest, ids)
  {
  }

  lemma WithoutSealedKeeps(m: Message)
    ensures MessageKeeps(m, Message(m.role, WithoutSealed(m.content)))
  {
    WithoutSealedCalls(m.content);
    forall ids | Answers(m.content, ids) ensures Answers(WithoutSealed(m.content), ids) {
      WithoutSealedAnswers(m.content, ids);
    }
  }

  /** Replacing one block by another of its kind and id keeps a message's calls and answers. */
  ghost predicate SameSlot(a: Block, b: Block)
  {
    && (a.ToolUse? <==> b.ToolUse?) && (a.ToolResult? <==> b.ToolResult?)
    && (a.ToolUse? || a.ToolResult? ==> a.id == b.id)
  }

  lemma {:induction false} SameSlotsCalls(a: seq<Block>, b: seq<Block>)
    requires |a| == |b| && forall i :: 0 <= i < |a| ==> SameSlot(a[i], b[i])
    ensures CallIds(a) == CallIds(b)
  {
    if a != [] {
      assert SameSlot(a[0], b[0]);
      SameSlotsCalls(a[1..], b[1..]);
    }
  }

  lemma SameSlotsKeep(a: Message, b: Message)
    requires a.role == b.role && |a.content| == |b.content|
    requires forall i :: 0 <= i < |a.content| ==> SameSlot(a.content[i], b.content[i])
    ensures MessageKeeps(a, b)
  {
    SameSlotsCalls(a.content, b.content);
    forall ids | Answers(a.content, ids) ensures Answers(b.content, ids) {
      forall i | 0 <= i < |a.content| ensures SameSlot(a.content[i], b.content[i]) {}
    }
  }
}
