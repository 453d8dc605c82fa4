/** What a Chat Completions request says: every text, call, result and image of the transcript,
    in order, and nothing else. */
module OpenAiContent {
  import opened Wrappers
  import opened Transcript
  import opened OpenAiWire

  const TEXT := (b: Block) => b.Text?
  const CALL := (b: Block) => b.ToolUse?
  const RESULT := (b: Block) => b.ToolResult?
  const PICTURED := (b: Block) => b.ToolResult? && b.image.Some?

  /** The parts of one message are its blocks of each kind, in order. */
  ghost predicate Tells(p: Parts, content: seq<Block>, sendImages: bool, note: string)
  {
    && TellsTexts(p.texts, Filter(content, TEXT))
    && TellsCalls(p.calls, Filter(content, CALL))
    && TellsResults(p.results, Filter(content, RESULT), sendImages, note)
    && TellsImages(p.images, if sendImages then Filter(content, PICTURED) else [])
  }

  ghost predicate TellsTexts(texts: seq<string>, blocks: seq<Block>)
  {
    |texts| == |blocks| && forall k :: 0 <= k < |blocks| ==> blocks[k] == Text(texts[k])
  }

  ghost predicate TellsCalls(calls: seq<CallSpec>, blocks: seq<Block>)
  {
    && |calls| == |blocks|
    && forall k :: 0 <= k < |blocks| ==> blocks[k] == ToolUse(calls[k].id, calls[k].name, calls[k].args)
  }

  ghost predicate TellsResults(results: seq<Chat>, blocks: seq<Block>, sendImages: bool, note: string)
  {
    |results| == |blocks| && forall k :: 0 <= k < |blocks| ==> IsToolMessage(results[k], blocks[k], sendImages, note)
  }

  ghost predicate TellsImages(images: seq<Picture>, blocks: seq<Block>)
  {
    |images| == |blocks| && forall k :: 0 <= k < |blocks| ==> IsPicture(images[k], blocks[k])
  }

  /** A result goes with its text; one whose image is not sent says so. */
  predicate IsToolMessage(chat: Chat, b: Block, sendImages: bool, note: string)
  {
    && b.ToolResult? && chat.ToolMessage? && chat.id == b.id
    && (b.image.Some? && !sendImages ==> chat.content == WordsOf(b.content) + note)
    && (b.image.None? || sendImages ==> chat.content == WordsOf(b.content))
  }

  function WordsOf(v: Value): string
  {
    if v.Str? then v.s else v.raw
  }

  predicate IsPicture(picture: Picture, b: Block)
  {
    && b.ToolResult? && b.image.Some?
    && picture == Picture(b.id, WordsOf(b.content), b.image.value)
  }

  lemma AddTells(p: Parts, content: seq<Block>, b: Block, sendImages: bool, note: string)
    requires Tells(p, content, sendImages, note)
    ensures Tells(Add(p, b, sendImages, note), content + [b], sendImages, note)
  {
    hide TellsTexts;
    hide TellsCalls;
    hide TellsResults;
    hide TellsImages;
    hide Filter;
    FilterSnoc(content, b, TEXT);
    FilterSnoc(content, b, CALL);
    FilterSnoc(content, b, RESULT);
    FilterSnoc(content, b, PICTURED);
    if b.Text? {
      OneMoreText(p.texts, Filter(content, TEXT), b);
    } else if b.ToolUse? {
      OneMoreCall(p.calls, Filter(content, CALL), b);
    } else if b.ToolResult? {
      var q := Add(p, b, sendImages, note);
      OneMoreResult(p.results, Filter(content, RESULT), q.results[|p.results|], b, sendImages, note);
      if sendImages && b.image.Some? {
        OneMoreImage(p.images, Filter(content, PICTURED), q.images[|p.images|], b);
      }
    }
  }

  lemma FilterSnoc(content: seq<Block>, b: Block, keep: Block -> bool)
    ensures Filter(content + [b], keep) == if keep(b) then Filter(content, keep) + [b] else Filter(content, keep)
  {
    FilterConcat(content, [b], keep);
    assert Filter([b], keep) == if keep(b) then [b] else [];
  }

  lemma OneMoreText(texts: seq<string>, blocks: seq<Block>, b: Block)
    requires TellsTexts(texts, blocks) && b.Text?
    ensures TellsTexts(texts + [b.text], blocks + [b])
  {
  }

  lemma OneMoreCall(calls: seq<CallSpec>, blocks: seq<Block>, b: Block)
    requires TellsCalls(calls, blocks) && b.ToolUse?
    ensures TellsCalls(calls + [CallSpec(b.id, b.name, b.args)], blocks + [b])
  {
  }

  lemma OneMoreResult(results: seq<Chat>, blocks: seq<Block>, chat: Chat, b: Block, sendImages: bool, note: string)
    requires TellsResults(results, blocks, sendImages, note) && IsToolMessage(chat, b, sendImages, note)
    ensures TellsResults(results + [chat], blocks + [b], sendImages, note)
  {
  }

  lemma OneMoreImage(images: seq<Picture>, blocks: seq<Block>, picture: Picture, b: Block)
    requires TellsImages(images, blocks) && IsPicture(picture, b)
    ensures TellsImages(images + [picture], blocks + [b])
  {
  }

  lemma {:induction false} PartsTell(content: seq<Block>, sendImages: bool, note: string)
    ensures Tells(PartsOf(content, sendImages, note), content, sendImages, note)
  {
    hide Add;
    if content != [] {
      var n := |content| - 1;
      PartsTell(content[..n], sendImages, note);
      AddTells(PartsOf(content[..n], sendImages, note), content[..n], content[n], sendImages, note);
      assert content == content[..n] + [content[n]];
    }
  }

  /** Lines put together: each of them in order, a line break between two. */
  function Lines(parts: seq<string>): string
    requires parts != []
  {
    if |parts| == 1 then parts[0] else parts[0] + "\n" + Lines(parts[1..])
  }

  lemma {:induction false} LinesSnoc(parts: seq<string>, last: string)
    requires parts != []
    ensures Lines(parts + [last]) == Lines(parts) + "\n" + last
  {
    assert (parts + [last])[0] == parts[0] && (parts + [last])[1..] == parts[1..] + [last];
    if |parts| > 1 { LinesSnoc(parts[1..], last); }
  }

  lemma {:induction false} JoinedInOrder(parts: seq<string>)
    requires parts != []
    ensures JoinLines(parts) == Lines(parts)
  {
    var n := |parts| - 1;
    if n > 0 {
      JoinedInOrder(parts[..n]);
      LinesSnoc(parts[..n], parts[n]);
      assert parts == parts[..n] + [parts[n]];
    }
  }

  /** One message of the transcript, as chats: its results one by one; then its texts, as lines of
      one message that carries its calls if it made any; then its images, for the user. */
  ghost predicate Renders(chats: seq<Chat>, m: Message, sendImages: bool, note: string)
  {
    exists p: Parts ::
      && Tells(p, m.content, sendImages, note)
      && |p.results| <= |chats| && chats[..|p.results|] == p.results
      && var rest := chats[|p.results|..];
         var said := p.texts != [] || p.calls != [];
         && |rest| == (if said then 1 else 0) + (if p.images != [] then 1 else 0)
         && (said ==> SaysAll(rest[0], m.role, p.texts, p.calls))
         && (p.images != [] ==> rest[|rest| - 1] == ImageMessage(p.images))
  }

  predicate SaysAll(chat: Chat, role: Role, texts: seq<string>, calls: seq<CallSpec>)
  {
    if calls != [] then
      chat.CallMessage? && chat.role == role && chat.calls == calls
      && (texts == [] ==> chat.text == None) && (texts != [] ==> chat.text == Some(Lines(texts)))
    else texts != [] && chat == TextMessage(role, Lines(texts))
  }

  lemma MessageRenders(m: Message, sendImages: bool, note: string)
    ensures Renders(Emitted(m.role, PartsOf(m.content, sendImages, note)), m, sendImages, note)
  {
    hide Tells;
    hide PartsOf;
    var p := PartsOf(m.content, sendImages, note);
    PartsTell(m.content, sendImages, note);
    if p.texts != [] { JoinedInOrder(p.texts); }
    var chats := Emitted(m.role, p);
    assert chats[..|p.results|] == p.results;
    assert chats[|p.results|..] == Spoken(m.role, p) + if p.images == [] then [] else [ImageMessage(p.images)];
  }

  lemma {:induction false} ChatsConcat(a: seq<Message>, b: seq<Message>, sendImages: bool, note: string)
    ensures Chats(a + b, sendImages, note) == Chats(a, sendImages, note) + Chats(b, sendImages, note)
  {
    hide Emitted;
    if b == [] {
      assert a + b == a;
    } else {
      var n := |b| - 1;
      assert (a + b)[..|a + b| - 1] == a + b[..n] && (a + b)[|a + b| - 1] == b[n];
      ChatsConcat(a, b[..n], sendImages, note);
    }
  }

  /** Every message of the transcript is rendered whole, in its place: nothing of it is lost,
      changed or put in another order, but for the thinking, which is not sent. */
  lemma EveryMessageIsSent(before: seq<Message>, m: Message, after: seq<Message>, sendImages: bool, note: string)
    returns (chats: seq<Chat>)
    ensures Renders(chats, m, sendImages, note)
    ensures Chats(before + [m] + after, sendImages, note)
            == Chats(before, sendImages, note) + chats + Chats(after, sendImages, note)
  {
    hide Emitted;
    hide Renders;
    chats := Emitted(m.role, PartsOf(m.content, sendImages, note));
    MessageRenders(m, sendImages, note);
    ChatsConcat(before + [m], after, sendImages, note);
    assert (before + [m])[..|before|] == before;
  }
}
