/** The transcript as the Anthropic rail sends it. */
module AnthropicWire {
  import opened Wrappers
  import opened Transcript

  /** A block on the wire. An image travels inside its result, or is withheld with a note. */
  datatype WireBlock =
    | Plain(block: Block)
    | Pictured(id: string, text: Value, isError: bool, image: string)
    | Withheld(id: string, text: Value, isError: bool, note: string)

  datatype WireMessage = WireMessage(role: Role, content: seq<WireBlock>)

  function OnWire(b: Block, images: bool, note: string): WireBlock
  {
    if b.ToolResult? && b.image.Some? then
      if images then Pictured(b.id, b.content, b.isError, b.image.value)
      else Withheld(b.id, b.content, b.isError, note)
    else Plain(b)
  }

  function ContentOnWire(content: seq<Block>, images: bool, note: string): (r: seq<WireBlock>)
    ensures |r| == |content|
    ensures forall i :: 0 <= i < |content| ==> r[i] == OnWire(content[i], images, note)
  {
    seq(|content|, i requires 0 <= i < |content| => OnWire(content[i], images, note))
  }

  function MessagesOnWire(ms: seq<Message>, images: bool, note: string): (r: seq<WireMessage>)
    ensures |r| == |ms|
    ensures forall i :: 0 <= i < |ms| ==> r[i] == WireMessage(ms[i].role, ContentOnWire(ms[i].content, images, note))
  {
    seq(|ms|, i requires 0 <= i < |ms| => WireMessage(ms[i].role, ContentOnWire(ms[i].content, images, note)))
  }

  /** Add one message: an assistant turn with nothing to send is dropped, and a message joins
      the one before it when the roles are the same. */
  function MergeOne(output: seq<Message>, m: Message): seq<Message>
  {
    var sent := SentContent(m.content);
    var n := |output|;
    if sent == [] && m.role == Assistant then output
    else if n > 0 && output[n - 1].role == m.role then
      output[..n - 1] + [Message(m.role, output[n - 1].content + sent)]
    else output + [Message(m.role, sent)]
  }

  function Merged(ms: seq<Message>): seq<Message>
  {
    if ms == [] then [] else MergeOne(Merged(ms[..|ms| - 1]), ms[|ms| - 1])
  }

  method Merge(messages: seq<Message>) returns (output: seq<Message>)
    ensures output == Merged(messages)
  {
    hide SentContent;
    output := [];
    for i := 0 to |messages|
      invariant output == Merged(messages[..i])
    {
      assert messages[..i + 1][..i] == messages[..i];
      var turn := messages[i];
      var sent := SentContent(turn.content);
      if !(sent == [] && turn.role == Assistant) {
        var n := |output|;
        if n > 0 && output[n - 1].role == turn.role {
          output := output[n - 1 := Message(turn.role, output[n - 1].content + sent)];
          assert output == MergeOne(Merged(messages[..i]), turn);
        } else {
          output := output + [Message(turn.role, sent)];
        }
      }
    }
    assert messages[..|messages|] == messages;
  }

  method MessagesFrom(messages: seq<Message>, images: bool, note: string) returns (wire: seq<WireMessage>)
    ensures wire == MessagesOnWire(Merged(messages), images, note)
  {
    hide Merged;
    hide OnWire;
    var output := Merge(messages);
    wire := [];
    for i := 0 to |output|
      invariant |wire| == i
      invariant forall k :: 0 <= k < i ==> wire[k] == MessagesOnWire(output, images, note)[k]
    {
      var content: seq<WireBlock> := [];
      for j := 0 to |output[i].content|
        invariant |content| == j
        invariant forall k :: 0 <= k < j ==> content[k] == OnWire(output[i].content[k], images, note)
      {
        content := content + [OnWire(output[i].content[j], images, note)];
      }
      assert content == ContentOnWire(output[i].content, images, note);
      wire := wire + [WireMessage(output[i].role, content)];
    }
  }

  // ---- roles alternate ----

  predicate Alternates(ms: seq<Message>)
  {
    forall i :: 0 <= i < |ms| - 1 ==> ms[i].role != ms[i + 1].role
  }

  predicate NoEmptyAssistant(ms: seq<Message>)
  {
    forall i :: 0 <= i < |ms| ==> ms[i].role == Assistant ==> ms[i].content != []
  }

  /** Whatever the transcript, the request's roles alternate and no assistant turn is empty. */
  lemma {:induction false} RolesAlternate(ms: seq<Message>)
    ensures Alternates(Merged(ms)) && NoEmptyAssistant(Merged(ms))
  {
    hide MergeOne;
    if ms != [] {
      RolesAlternate(ms[..|ms| - 1]);
      OneAlternates(Merged(ms[..|ms| - 1]), ms[|ms| - 1]);
    }
  }

  lemma OneAlternates(output: seq<Message>, m: Message)
    requires Alternates(output) && NoEmptyAssistant(output)
    ensures Alternates(MergeOne(output, m)) && NoEmptyAssistant(MergeOne(output, m))
  {
    hide SentContent;
  }

  // ---- nothing is lost, added or reordered ----

  datatype Tagged = Tagged(role: Role, block: Block)

  function Tag(role: Role, content: seq<Block>): (r: seq<Tagged>)
    ensures |r| == |content|
    ensures forall i :: 0 <= i < |content| ==> r[i] == Tagged(role, content[i])
  {
    seq(|content|, i requires 0 <= i < |content| => Tagged(role, content[i]))
  }

  /** A transcript as one sequence of blocks, each with the role that said it. */
  function Flat(ms: seq<Message>): seq<Tagged>
  {
    if ms == [] then [] else Flat(ms[..|ms| - 1]) + Tag(ms[|ms| - 1].role, ms[|ms| - 1].content)
  }

  lemma FlatSnoc(ms: seq<Message>, m: Message)
    ensures Flat(ms + [m]) == Flat(ms) + Tag(m.role, m.content)
  {
  }

  lemma MergeOneFlat(output: seq<Message>, m: Message)
    ensures Flat(MergeOne(output, m)) == Flat(output) + Tag(m.role, SentContent(m.content))
  {
    hide SentContent;
    var content := SentContent(m.content);
    var n := |output| - 1;
    if n >= 0 && output[n].role == m.role {
      assert Tag(m.role, output[n].content + content) == Tag(m.role, output[n].content) + Tag(m.role, content);
      FlatSnoc(output[..n], Message(m.role, output[n].content + content));
    } else {
      FlatSnoc(output, Message(m.role, content));
    }
  }

  lemma SentSnoc(ms: seq<Message>)
    requires ms != []
    ensures Sent(ms)[..|ms| - 1] == Sent(ms[..|ms| - 1])
  {
  }

  /** Merging keeps the meaning: block for block, and role for role, the request is the
      transcript without the blocks that are not sent back. */
  lemma {:induction false} MergedIsWhatIsSent(ms: seq<Message>)
    ensures Flat(Merged(ms)) == Flat(Sent(ms))
  {
    if ms != [] {
      var n := |ms| - 1;
      MergedIsWhatIsSent(ms[..n]);
      MergeOneFlat(Merged(ms[..n]), ms[n]);
      SentSnoc(ms);
    }
  }

  lemma {:induction false} FlatHas(ms: seq<Message>, x: Tagged)
    ensures x in Flat(ms) <==> exists i :: 0 <= i < |ms| && ms[i].role == x.role && x.block in ms[i].content
  {
    if ms != [] {
      var n := |ms| - 1;
      FlatHas(ms[..n], x);
      forall i | 0 <= i < n ensures ms[..n][i] == ms[i] {}
      if ms[n].role == x.role && x.block in ms[n].content {
        var j :| 0 <= j < |ms[n].content| && ms[n].content[j] == x.block;
        assert Tag(ms[n].role, ms[n].content)[j] == x;
      }
    }
  }

  /** A request holds every block of the transcript but empty texts and thinking without a
      signature, and no other. */
  lemma SentIsAllThatCounts(ms: seq<Message>, x: Tagged)
    ensures x in Flat(Merged(ms))
            <==> && x.block != Text("") && !(x.block.Thinking? && x.block.signature == Unsigned)
                 && exists i :: 0 <= i < |ms| && ms[i].role == x.role && x.block in ms[i].content
  {
    MergedIsWhatIsSent(ms);
    FlatHas(Sent(ms), x);
    hide Merged;
    hide Flat;
    forall i | 0 <= i < |ms|
      ensures x.block in Sent(ms)[i].content <==> x.block in ms[i].content && SentBack(x.block)
    {
      assert Sent(ms)[i] == SentMessage(ms[i]);
    }
  }

  // ---- images ----

  /** A block of the wire with its image put back where it was, and any note on it taken out. */
  function ReadBack(w: WireBlock): Block
  {
    match w
    case Plain(block) => block
    case Pictured(id, text, isError, image) => ToolResult(id, text, isError, Some(image))
    case Withheld(id, text, isError, _) => ToolResult(id, text, isError, None)
  }

  function ReadBackAll(content: seq<WireBlock>): seq<Block>
  {
    if content == [] then [] else [ReadBack(content[0])] + ReadBackAll(content[1..])
  }

  function WithoutImage(b: Block): Block
  {
    if b.ToolResult? then b.(image := None) else b
  }

  /** Where a block is not plain, it says what became of the image. */
  predicate TellsImage(w: WireBlock, b: Block, images: bool, note: string)
  {
    && (w.Plain? <==> !(b.ToolResult? && b.image.Some?))
    && (w.Pictured? ==> images) && (w.Withheld? ==> !images && w.note == note)
  }

  lemma {:induction false} ContentReadsBack(content: seq<Block>, images: bool, note: string)
    ensures var back := ReadBackAll(ContentOnWire(content, images, note));
            && |back| == |content|
            && forall j :: 0 <= j < |content| ==> back[j] == if images then content[j] else WithoutImage(content[j])
  {
    if content != [] {
      var wire := ContentOnWire(content, images, note);
      assert wire[1..] == ContentOnWire(content[1..], images, note);
      ContentReadsBack(content[1..], images, note);
    }
  }

  /** With images the request reads back as the merged transcript, and without them as the same
      with no images, a note in the place of each. */
  lemma RequestReadsBack(ms: seq<Message>, images: bool, note: string, i: nat)
    requires i < |Merged(ms)|
    ensures var wire := MessagesOnWire(Merged(ms), images, note)[i];
            var m := Merged(ms)[i];
            var back := ReadBackAll(wire.content);
            && wire.role == m.role && |wire.content| == |back| == |m.content|
            && (images ==> back == m.content)
            && (forall j :: 0 <= j < |back| ==> !images ==> back[j] == WithoutImage(m.content[j]))
            && (forall j :: 0 <= j < |back| ==> TellsImage(wire.content[j], m.content[j], images, note))
  {
    hide Merged;
    ContentReadsBack(Merged(ms)[i].content, images, note);
  }

  // ---- seals on the wire ----

  lemma {:induction false} FlatPrefix(ms: seq<Message>, k: nat)
    requires k <= |ms|
    ensures Flat(ms[..k]) <= Flat(ms)
  {
    if k < |ms| {
      FlatPrefix(ms[..|ms| - 1], k);
      assert ms[..|ms| - 1][..k] == ms[..k];
    } else {
      assert ms[..k] == ms;
    }
  }

  /** Where block j of message k of a sent history stands in the request. */
  function Position(sent: seq<Message>, k: nat, j: nat): nat
    requires k < |sent| && j <= |sent[k].content|
  {
    |Flat(sent[..k])| + j
  }

  lemma FlatAt(sent: seq<Message>, k: nat, j: nat)
    requires k < |sent| && j < |sent[k].content|
    ensures var p := Position(sent, k, j);
            && p < |Flat(sent)|
            && Flat(sent)[p] == Tagged(sent[k].role, sent[k].content[j])
            && Flat(sent)[..p] == Flat(Before(sent, k, j))
  {
    hide Flat;
    var m := sent[k];
    var p := Position(sent, k, j);
    var upTo := Flat(sent[..k + 1]);
    FlatPrefix(sent, k + 1);
    assert sent[..k + 1] == sent[..k] + [m];
    FlatSnoc(sent[..k], m);
    FlatSnoc(sent[..k], Message(m.role, m.content[..j]));
    assert Tag(m.role, m.content)[..j] == Tag(m.role, m.content[..j]);
    assert upTo == Flat(sent)[..|upTo|];
    assert upTo[..p] == Flat(sent)[..p];
    assert upTo[p] == Flat(sent)[p];
  }

  /** On the wire too, every sealed block stands behind exactly the blocks it was made after. */
  lemma SealsHoldOnWire(ms: seq<Message>, k: nat, j: nat)
    requires ThinkingValid(ms) && k < |ms| && j < |Sent(ms)[k].content| && IsSealed(Sent(ms)[k].content[j])
    ensures var p := Position(Sent(ms), k, j);
            && p < |Flat(Merged(ms))|
            && Flat(Merged(ms))[p] == Tagged(ms[k].role, Sent(ms)[k].content[j])
            && Flat(Merged(ms))[..p] == Flat(SealedAfter(Sent(ms)[k].content[j]))
  {
    hide Flat;
    hide Merged;
    MergedIsWhatIsSent(ms);
    assert SealsHold(Sent(ms), k);
    FlatAt(Sent(ms), k, j);
  }

  // ---- pairing on the wire ----

  lemma {:induction false} SentCalls(content: seq<Block>)
    ensures CallIds(SentContent(content)) == CallIds(content)
  {
    if content != [] {
      SentCalls(content[1..]);
      CallIdsConcat(if SentBack(content[0]) then [content[0]] else [], SentContent(content[1..]));
    }
  }

  lemma {:induction false} SentAnswers(content: seq<Block>, ids: seq<string>)
    requires Answers(content, ids)
    ensures Answers(SentContent(content), ids)
  {
    if ids == [] {
      forall b | b in SentContent(content) ensures !b.ToolResult? {
        var i :| 0 <= i < |content| && content[i] == b;
      }
    } else {
      AnswersRest(content, ids);
      SentAnswers(content[1..], ids[1..]);
      AnswersCons(content[0], SentContent(content[1..]), ids);
    }
  }

  lemma MergeOnePaired(output: seq<Message>, m: Message)
    requires PairedSoFar(output)
    requires Follows(Pending(output, |output|), m)
    ensures PairedSoFar(MergeOne(output, m))
    ensures Pending(MergeOne(output, m), |MergeOne(output, m)|)
            == if m.role == Assistant then CallIds(m.content) else []
  {
    var sent := SentContent(m.content);
    var n := |output|;
    SentCalls(m.content);
    SentAnswers(m.content, Pending(output, n));
    if sent == [] && m.role == Assistant {
    } else if n > 0 && output[n - 1].role == m.role {
      var joined := Message(m.role, output[n - 1].content + sent);
      CallIdsConcat(output[n - 1].content, sent);
      LastGrows(output, joined, sent);
    } else {
      PairedAppend(output, Message(m.role, sent));
    }
  }

  /** A paired transcript makes a paired request, through every drop and merge. */
  lemma {:induction false} MergedIsPaired(ms: seq<Message>)
    requires PairedSoFar(ms)
    ensures PairedSoFar(Merged(ms))
    ensures Pending(Merged(ms), |Merged(ms)|) == Pending(ms, |ms|)
    ensures Paired(ms) ==> Paired(Merged(ms))
  {
    hide MergeOne;
    hide Follows;
    hide CallIds;
    if ms != [] {
      var n := |ms| - 1;
      forall i | 0 <= i < n ensures PairedAt(ms[..n], i) {
        assert PairedAt(ms, i);
        assert Pending(ms[..n], i) == Pending(ms, i);
      }
      MergedIsPaired(ms[..n]);
      assert PairedAt(ms, n);
      assert Pending(ms[..n], n) == Pending(ms, n);
      MergeOnePaired(Merged(ms[..n]), ms[n]);
    }
  }
}
