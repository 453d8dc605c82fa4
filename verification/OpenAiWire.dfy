/** The transcript as Chat Completions messages. */
module OpenAiWire {
  import opened Wrappers
  import opened Transcript

  datatype CallSpec = CallSpec(id: string, name: string, args: Option<map<string, Value>>)

  /** A tool result is a message of its own, a call rides on its message, thinking is not sent,
      and images follow in a user message. */
  datatype Chat =
    | ToolMessage(id: string, content: string)
    | CallMessage(role: Role, text: Option<string>, calls: seq<CallSpec>)
    | TextMessage(role: Role, line: string)
    | ImageMessage(images: seq<Picture>)

  datatype Picture = Picture(id: string, text: string, image: string)

  function TextOf(v: Value): string
  {
    match v
    case Str(s) => s
    case NonStr(raw) => raw
  }

  function JoinLines(parts: seq<string>): string
  {
    if parts == [] then ""
    else if |parts| == 1 then parts[0]
    else JoinLines(parts[..|parts| - 1]) + "\n" + parts[|parts| - 1]
  }

  /** What the blocks of a message so far have come to. */
  datatype Parts = Parts(texts: seq<string>, calls: seq<CallSpec>, results: seq<Chat>, images: seq<Picture>)

  function Add(p: Parts, b: Block, sendImages: bool, note: string): Parts
  {
    match b
    case Text(text) => p.(texts := p.texts + [text])
    case ToolResult(id, content, _, image) =>
      var withheld := image.Some? && !sendImages;
      p.(results := p.results + [ToolMessage(id, TextOf(content) + if withheld then note else "")],
         images :=
           if image.Some? && sendImages then p.images + [Picture(id, TextOf(content), image.value)] else p.images)
    case ToolUse(id, name, args) => p.(calls := p.calls + [CallSpec(id, name, args)])
    case Thinking(_, _) => p
    case RedactedThinking(_) => p
  }

  function PartsOf(content: seq<Block>, sendImages: bool, note: string): Parts
  {
    if content == [] then Parts([], [], [], [])
    else Add(PartsOf(content[..|content| - 1], sendImages, note), content[|content| - 1], sendImages, note)
  }

  function Spoken(role: Role, p: Parts): seq<Chat>
  {
    if p.calls != [] then
      [CallMessage(role, if p.texts == [] then None else Some(JoinLines(p.texts)), p.calls)]
    else if p.texts != [] then [TextMessage(role, JoinLines(p.texts))]
    else []
  }

  function Emitted(role: Role, p: Parts): seq<Chat>
  {
    p.results + Spoken(role, p) + if p.images == [] then [] else [ImageMessage(p.images)]
  }

  function Chats(ms: seq<Message>, sendImages: bool, note: string): seq<Chat>
  {
    if ms == [] then []
    else
      var m := ms[|ms| - 1];
      Chats(ms[..|ms| - 1], sendImages, note) + Emitted(m.role, PartsOf(m.content, sendImages, note))
  }

  method Translate(m: Message, sendImages: bool, note: string) returns (chats: seq<Chat>)
    ensures chats == Emitted(m.role, PartsOf(m.content, sendImages, note))
  {
    var texts: seq<string> := [];
    var calls: seq<CallSpec> := [];
    var images: seq<Picture> := [];
    chats := [];
    for j := 0 to |m.content|
      invariant Parts(texts, calls, chats, images) == PartsOf(m.content[..j], sendImages, note)
    {
      assert m.content[..j + 1][..j] == m.content[..j];
      match m.content[j] {
        case Text(text) => texts := texts + [text];
        case ToolResult(id, content, _, image) =>
          var text := TextOf(content);
          if image.Some? {
            if sendImages { images := images + [Picture(id, text, image.value)]; }
          }
          chats := chats + [ToolMessage(id, text + if image.Some? && !sendImages then note else "")];
        case ToolUse(id, name, args) => calls := calls + [CallSpec(id, name, args)];
        case _ =>
      }
    }
    assert m.content[..|m.content|] == m.content;
    if calls != [] {
      chats := chats + [CallMessage(m.role, if texts == [] then None else Some(JoinLines(texts)), calls)];
    } else if texts != [] {
      chats := chats + [TextMessage(m.role, JoinLines(texts))];
    }
    if images != [] { chats := chats + [ImageMessage(images)]; }
  }

  method MessagesFrom(messages: seq<Message>, sendImages: bool, note: string) returns (chats: seq<Chat>)
    ensures chats == Chats(messages, sendImages, note)
  {
    chats := [];
    for i := 0 to |messages|
      invariant chats == Chats(messages[..i], sendImages, note)
    {
      assert messages[..i + 1][..i] == messages[..i];
      var more := Translate(messages[i], sendImages, note);
      chats := chats + more;
    }
    assert messages[..|messages|] == messages;
  }

  // ---- calls and results on the wire ----

  function Ids(calls: seq<CallSpec>): (ids: seq<string>)
    ensures |ids| == |calls|
    ensures forall i :: 0 <= i < |calls| ==> ids[i] == calls[i].id
  {
    seq(|calls|, i requires 0 <= i < |calls| => calls[i].id)
  }

  /** The calls still unanswered after these messages, when `owed` were unanswered before them;
      none at all once a message is out of place. */
  function Owed(chats: seq<Chat>, owed: seq<string>): Option<seq<string>>
  {
    if chats == [] then Some(owed)
    else
      var before := Owed(chats[..|chats| - 1], owed);
      if before.None? then None else Answer(before.value, chats[|chats| - 1])
  }

  function Answer(owed: seq<string>, chat: Chat): Option<seq<string>>
  {
    match chat
    case ToolMessage(id, _) => if owed != [] && owed[0] == id then Some(owed[1..]) else None
    case CallMessage(_, _, calls) => if owed == [] then Some(Ids(calls)) else None
    case _ => if owed == [] then Some([]) else None
  }

  lemma {:induction false} OwedConcat(a: seq<Chat>, b: seq<Chat>, owed: seq<string>)
    ensures Owed(a + b, owed) == if Owed(a, owed).None? then None else Owed(b, Owed(a, owed).value)
  {
    if b == [] {
      assert a + b == a;
    } else {
      assert (a + b)[..|a + b| - 1] == a + b[..|b| - 1];
      OwedConcat(a, b[..|b| - 1], owed);
    }
  }

  /** Each message with n calls is followed at once by n tool messages with the same ids in the
      same order. */
  ghost predicate CallsAnswered(chats: seq<Chat>)
  {
    forall i :: 0 <= i < |chats| && chats[i].CallMessage? ==> AnsweredAt(chats, i)
  }

  ghost predicate AnsweredAt(chats: seq<Chat>, i: nat)
    requires i < |chats| && chats[i].CallMessage?
  {
    var calls := chats[i].calls;
    && i + |calls| < |chats|
    && forall j :: i < j <= i + |calls| ==> chats[j].ToolMessage? && chats[j].id == calls[j - i - 1].id
  }

  /** Each tool message answers a call: going back over tool messages one finds the message
      that made it. */
  ghost predicate ResultsCalledFor(chats: seq<Chat>)
  {
    forall j :: 0 <= j < |chats| && chats[j].ToolMessage? ==> CalledFor(chats, j)
  }

  ghost predicate CalledFor(chats: seq<Chat>, j: nat)
    requires j < |chats| && chats[j].ToolMessage?
  {
    exists i :: 0 <= i < j && Makes(chats, i, j)
  }

  ghost predicate Makes(chats: seq<Chat>, i: nat, j: nat)
    requires i < j < |chats| && chats[j].ToolMessage?
  {
    chats[i].CallMessage? && j - i - 1 < |chats[i].calls| && chats[i].calls[j - i - 1].id == chats[j].id
  }

  /** Where the calls still owed after n messages come from. */
  ghost predicate OwedFrom(chats: seq<Chat>, n: nat, owed: seq<string>)
    requires n <= |chats|
  {
    owed == [] || exists i :: 0 <= i < n && OwedSince(chats, i, n, owed)
  }

  ghost predicate OwedSince(chats: seq<Chat>, i: nat, n: nat, owed: seq<string>)
    requires i < n <= |chats|
  {
    && chats[i].CallMessage?
    && n - i - 1 <= |chats[i].calls|
    && owed == Ids(chats[i].calls)[n - i - 1..]
    && forall j :: i < j < n ==> chats[j].ToolMessage? && chats[j].id == chats[i].calls[j - i - 1].id
  }

  /** Every call among the first n messages is answered among them, or is the one being
      answered. */
  ghost predicate AnsweredSoFar(chats: seq<Chat>, n: nat, owed: seq<string>)
    requires n <= |chats|
  {
    forall i :: 0 <= i < n && chats[i].CallMessage? ==> AnsweredAt(chats, i) || OwedSince(chats, i, n, owed)
  }

  lemma {:induction false} OwedMeans(chats: seq<Chat>, n: nat)
    requires n <= |chats| && Owed(chats[..n], []).Some?
    ensures var owed := Owed(chats[..n], []).value;
            && OwedFrom(chats, n, owed) && AnsweredSoFar(chats, n, owed)
            && (forall j :: 0 <= j < n && chats[j].ToolMessage? ==> CalledFor(chats, j))
  {
    if n > 0 {
      assert chats[..n][..n - 1] == chats[..n - 1];
      OwedMeans(chats, n - 1);
      OwedStep(chats, n - 1, Owed(chats[..n - 1], []).value);
    }
  }

  lemma SinceDone(chats: seq<Chat>, i: nat, n: nat)
    requires i < n <= |chats| && OwedSince(chats, i, n, [])
    ensures AnsweredAt(chats, i)
  {
  }

  lemma SinceStep(chats: seq<Chat>, i: nat, n: nat, owed: seq<string>)
    requires i < n < |chats| && OwedSince(chats, i, n, owed) && owed != []
    requires chats[n].ToolMessage? && chats[n].id == owed[0]
    ensures Makes(chats, i, n) && OwedSince(chats, i, n + 1, owed[1..])
  {
  }

  lemma OwedStep(chats: seq<Chat>, n: nat, owed: seq<string>)
    requires n < |chats| && OwedFrom(chats, n, owed) && AnsweredSoFar(chats, n, owed)
    requires Answer(owed, chats[n]).Some?
    ensures OwedFrom(chats, n + 1, Answer(owed, chats[n]).value)
    ensures AnsweredSoFar(chats, n + 1, Answer(owed, chats[n]).value)
    ensures chats[n].ToolMessage? ==> CalledFor(chats, n)
  {
    hide OwedSince;
    hide AnsweredAt;
    hide Makes;
    var owed' := Answer(owed, chats[n]).value;
    if chats[n].ToolMessage? {
      var i :| 0 <= i < n && OwedSince(chats, i, n, owed);
      SinceStep(chats, i, n, owed);
    } else if chats[n].CallMessage? {
      SinceStart(chats, n);
    }
    forall i | 0 <= i < n && chats[i].CallMessage? ensures AnsweredAt(chats, i) || OwedSince(chats, i, n + 1, owed') {
      if !AnsweredAt(chats, i) {
        if owed == [] { SinceDone(chats, i, n); } else { SinceStep(chats, i, n, owed); }
      }
    }
  }

  lemma SinceStart(chats: seq<Chat>, n: nat)
    requires n < |chats| && chats[n].CallMessage?
    ensures OwedSince(chats, n, n + 1, Ids(chats[n].calls))
  {
  }

  // ---- from a paired transcript ----

  /** The blocks of one message, on the wire: its results in order, then its calls. */
  ghost predicate Emits(content: seq<Block>, p: Parts)
  {
    && Ids(p.calls) == CallIds(content)
    && (forall k :: 0 <= k < |p.results| ==> p.results[k].ToolMessage?)
    && ResultIds(p.results) == ResultIdsIn(content)
  }

  function ResultIdsIn(content: seq<Block>): seq<string>
  {
    if content == [] then []
    else
      ResultIdsIn(content[..|content| - 1])
      + if content[|content| - 1].ToolResult? then [content[|content| - 1].id] else []
  }

  function ResultIds(results: seq<Chat>): (ids: seq<string>)
    requires forall k :: 0 <= k < |results| ==> results[k].ToolMessage?
    ensures |ids| == |results|
    ensures forall k :: 0 <= k < |results| ==> ids[k] == results[k].id
  {
    seq(|results|, k requires 0 <= k < |results| => results[k].id)
  }

  lemma AddEmits(p: Parts, b: Block, sendImages: bool, note: string)
    requires forall k :: 0 <= k < |p.results| ==> p.results[k].ToolMessage?
    ensures var q := Add(p, b, sendImages, note);
            && Ids(q.calls) == Ids(p.calls) + (if b.ToolUse? then [b.id] else [])
            && (forall k :: 0 <= k < |q.results| ==> q.results[k].ToolMessage?)
            && ResultIds(q.results) == ResultIds(p.results) + if b.ToolResult? then [b.id] else []
  {
  }

  lemma {:induction false} PartsEmit(content: seq<Block>, sendImages: bool, note: string)
    ensures Emits(content, PartsOf(content, sendImages, note))
  {
    hide Add;
    if content != [] {
      var n := |content| - 1;
      PartsEmit(content[..n], sendImages, note);
      AddEmits(PartsOf(content[..n], sendImages, note), content[n], sendImages, note);
      assert content == content[..n] + [content[n]];
      CallIdsConcat(content[..n], [content[n]]);
    }
  }

  /** A user message that answers its calls opens with exactly their results. */
  lemma {:induction false} AnswersAreResults(content: seq<Block>, ids: seq<string>)
    requires Answers(content, ids)
    ensures ResultIdsIn(content) == ids
  {
    if content != [] {
      var n := |content| - 1;
      var last := content[n];
      if last.ToolResult? {
        assert |ids| == |content|;
        assert Answers(content[..n], ids[..n]);
        AnswersAreResults(content[..n], ids[..n]);
        assert ids == ids[..n] + [ids[n]];
      } else {
        assert |ids| <= n;
        assert Answers(content[..n], ids);
        AnswersAreResults(content[..n], ids);
      }
    }
  }

  lemma {:induction false} ResultsAnswer(results: seq<Chat>, owed: seq<string>)
    requires forall k :: 0 <= k < |results| ==> results[k].ToolMessage?
    requires ResultIds(results) <= owed
    ensures Owed(results, owed) == Some(owed[|results|..])
  {
    if results != [] {
      var n := |results| - 1;
      assert ResultIds(results[..n]) == ResultIds(results)[..n];
      ResultsAnswer(results[..n], owed);
      assert ResultIds(results)[n] == owed[n];
    }
  }

  lemma OwedOne(chat: Chat, owed: seq<string>)
    ensures Owed([chat], owed) == Answer(owed, chat)
  {
  }

  /** One message answers what is owed, and leaves its own calls owed. */
  lemma EmittedAnswers(m: Message, owed: seq<string>, sendImages: bool, note: string)
    requires ResultIdsIn(m.content) == owed
    requires CallIds(m.content) == [] || PartsOf(m.content, sendImages, note).images == []
    ensures Owed(Emitted(m.role, PartsOf(m.content, sendImages, note)), owed) == Some(CallIds(m.content))
  {
    hide Owed;
    hide PartsOf;
    var p := PartsOf(m.content, sendImages, note);
    PartsEmit(m.content, sendImages, note);
    ResultsAnswer(p.results, owed);
    assert owed[|p.results|..] == [];
    SpokenOwes(m.role, p);
    OwedConcat(p.results, Spoken(m.role, p), owed);
    if p.images == [] {
      assert Emitted(m.role, p) == p.results + Spoken(m.role, p);
    } else {
      OwedConcat(p.results + Spoken(m.role, p), [ImageMessage(p.images)], owed);
      OwedOne(ImageMessage(p.images), []);
    }
  }

  lemma SpokenOwes(role: Role, p: Parts)
    ensures Owed(Spoken(role, p), []) == Some(Ids(p.calls))
  {
  }

  lemma {:induction false} ImagesAreResults(content: seq<Block>, sendImages: bool, note: string)
    requires ResultIdsIn(content) == []
    ensures PartsOf(content, sendImages, note).images == []
  {
    if content != [] { ImagesAreResults(content[..|content| - 1], sendImages, note); }
  }

  lemma {:induction false} ChatsOwe(ms: seq<Message>, sendImages: bool, note: string)
    requires PairedSoFar(ms)
    ensures Owed(Chats(ms, sendImages, note), []) == Some(Pending(ms, |ms|))
  {
    if ms != [] {
      var n := |ms| - 1;
      var m := ms[n];
      PrefixPaired(ms, n);
      ChatsOwe(ms[..n], sendImages, note);
      assert PairedAt(ms, n);
      assert Pending(ms[..n], n) == Pending(ms, n);
      AnswersAreResults(m.content, Pending(ms, n));
      if m.role == Assistant { ImagesAreResults(m.content, sendImages, note); }
      EmittedAnswers(m, Pending(ms, n), sendImages, note);
      OwedConcat(Chats(ms[..n], sendImages, note), Emitted(m.role, PartsOf(m.content, sendImages, note)), []);
    }
  }

  lemma PrefixPaired(ms: seq<Message>, n: nat)
    requires n <= |ms| && PairedSoFar(ms)
    ensures PairedSoFar(ms[..n])
  {
    forall i | 0 <= i < n ensures PairedAt(ms[..n], i) {
      assert PairedAt(ms, i);
      assert Pending(ms[..n], i) == Pending(ms, i);
    }
  }

  /** From a paired transcript, each message with n calls is followed at once by n tool messages
      whose ids match in order, and there is no other tool message. */
  lemma CallsStayAnswered(ms: seq<Message>, sendImages: bool, note: string)
    requires Paired(ms)
    ensures CallsAnswered(Chats(ms, sendImages, note)) && ResultsCalledFor(Chats(ms, sendImages, note))
  {
    hide OwedSince;
    hide AnsweredAt;
    var chats := Chats(ms, sendImages, note);
    ChatsOwe(ms, sendImages, note);
    assert chats[..|chats|] == chats;
    OwedMeans(chats, |chats|);
    forall i | 0 <= i < |chats| && chats[i].CallMessage? ensures AnsweredAt(chats, i) {
      if !AnsweredAt(chats, i) { SinceDone(chats, i, |chats|); }
    }
  }
}
