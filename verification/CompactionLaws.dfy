/** What compaction keeps, exactly what it changes, and when it stops. */
module CompactionLaws {
  import opened Wrappers
  import opened Transcript
  import opened SessionModel
  import opened Compaction

  // ---- an edit keeps the outline ----

  lemma {:induction false} SlotsConcat(a: seq<Block>, b: seq<Block>)
    ensures Slots(a + b) == Slots(a) + Slots(b)
  {
    if a == [] {
      assert a + b == b;
    } else {
      assert (a + b)[0] == a[0] && (a + b)[1..] == a[1..] + b;
      SlotsConcat(a[1..], b);
    }
  }

  lemma {:induction false} WithoutSealedSlots(content: seq<Block>)
    ensures Slots(WithoutSealed(content)) == Slots(content)
  {
    if content != [] {
      WithoutSealedSlots(content[1..]);
      SlotsConcat(if IsSealed(content[0]) then [] else [content[0]], WithoutSealed(content[1..]));
    }
  }

  lemma ReplacedSlots(content: seq<Block>, j: nat, b: Block)
    requires j < |content| && SlotOf(b) == SlotOf(content[j])
    ensures Slots(content[j := b]) == Slots(content)
  {
    assert content == (content[..j] + [content[j]]) + content[j + 1..];
    assert content[j := b] == (content[..j] + [b]) + content[j + 1..];
    SlotsConcat(content[..j] + [content[j]], content[j + 1..]);
    SlotsConcat(content[..j] + [b], content[j + 1..]);
    SlotsConcat(content[..j], [content[j]]);
    SlotsConcat(content[..j], [b]);
  }

  lemma EditKeepsOutline(ms: seq<Message>, i: nat, j: nat, b: Block)
    requires i < |ms| && j < |ms[i].content| && SlotOf(b) == SlotOf(ms[i].content[j])
    ensures OutlineOf(EditBlock(ms, i, j, b)) == OutlineOf(ms)
  {
    hide Slots;
    hide SlotOf;
    hide Filter;
    var r := EditBlock(ms, i, j, b);
    forall k | 0 <= k < |ms| ensures r[k].role == ms[k].role && Slots(r[k].content) == Slots(ms[k].content) {
      if k == i {
        ReplacedSlots(ms[i].content, j, b);
        WithoutSealedSlots(ms[i].content[j := b]);
      } else if k > i {
        WithoutSealedSlots(ms[k].content);
      }
    }
  }

  // ---- an edit keeps pairing and thinking ----

  lemma SlotIsShape(a: Block, b: Block)
    requires SlotOf(a) == SlotOf(b)
    ensures SameSlot(a, b)
  {
  }

  lemma EditKeepsPaired(ms: seq<Message>, i: nat, j: nat, b: Block)
    requires i < |ms| && j < |ms[i].content| && SlotOf(b) == SlotOf(ms[i].content[j])
    ensures PairedSoFar(ms) ==> PairedSoFar(EditBlock(ms, i, j, b))
    ensures Paired(ms) ==> Paired(EditBlock(ms, i, j, b))
  {
    var swapped := ms[i := Message(ms[i].role, ms[i].content[j := b])];
    forall k | 0 <= k < |ms| ensures MessageKeeps(ms[k], swapped[k]) {
      SlotIsShape(ms[i].content[j], b);
      if k == i { SameSlotsKeep(ms[i], swapped[i]); }
    }
    EditsKeepPaired(ms, swapped);
    forall k | 0 <= k < |ms| ensures MessageKeeps(swapped[k], DropFrom(swapped, i)[k]) {
      if k >= i { WithoutSealedKeeps(swapped[k]); }
    }
    EditsKeepPaired(swapped, DropFrom(swapped, i));
  }

  /** An edited message drops the sealed thinking from itself on, so what is left is valid. */
  lemma EditKeepsThinking(ms: seq<Message>, i: nat, j: nat, b: Block)
    requires i < |ms| && j < |ms[i].content| && ThinkingValid(ms)
    ensures ThinkingValid(EditBlock(ms, i, j, b))
  {
    ValidUpTo(ms, EditBlock(ms, i, j, b), i);
  }

  // ---- the frame ----

  /** A block is as it was, or is exactly the stub of what it was. */
  ghost predicate BlockElided(a: Block, b: Block, i: nat, o: seq<Outline>, e: Measure)
    requires i < |o|
  {
    || b == a
    || (ResultsOpen(o, i) && ResultElides(a, i, o, e) && b == ElidedResult(a, i, o, e))
    || (InputsOpen(o, i) && InputElides(a, i, o) && b == ElidedInput(a, i, o))
  }

  ghost predicate ContentElided(a: seq<Block>, b: seq<Block>, i: nat, o: seq<Outline>, e: Measure)
    requires i < |o|
  {
    |a| == |b| && forall k :: 0 <= k < |a| ==> BlockElided(a[k], b[k], i, o, e)
  }

  /** Message i of orig and what became of it, when f is the first message with a stub:
      before f nothing changed, and from f on the sealed thinking is gone. */
  ghost predicate FrameAt(a: Message, b: Message, f: nat, i: nat, o: seq<Outline>, e: Measure)
    requires i < |o|
  {
    && b.role == a.role
    && (i < f ==> b == a)
    && (i >= f ==> NoSealed(b.content) && ContentElided(WithoutSealed(a.content), b.content, i, o, e))
    && (i == f ==> b.content != WithoutSealed(a.content))
  }

  /** ms is orig with some blocks turned into their stubs. */
  ghost predicate Frame(orig: seq<Message>, ms: seq<Message>, f: nat, o: seq<Outline>, e: Measure)
    requires |o| == |orig|
  {
    && |ms| == |orig| && f <= |orig|
    && forall i :: 0 <= i < |orig| ==> FrameAt(orig[i], ms[i], f, i, o, e)
  }

  lemma FrameVisible(orig: seq<Message>, ms: seq<Message>, f: nat, o: seq<Outline>, e: Measure, i: nat)
    requires |o| == |orig| && Frame(orig, ms, f, o, e) && i < |orig|
    ensures FrameAt(orig[i], ms[i], f, i, o, e)
    ensures ContentElided(WithoutSealed(orig[i].content), WithoutSealed(ms[i].content), i, o, e)
    ensures f <= i ==> WithoutSealed(ms[i].content) == ms[i].content
  {
    if i >= f { FilterAll(ms[i].content, Unsealed); }
  }

  /** An elided block is never elided again. */
  lemma ElidedOnce(a: Block, b: Block, i: nat, o: seq<Outline>, e: Measure)
    requires i < |o| && BlockElided(a, b, i, o, e)
    requires (ResultsOpen(o, i) && ResultElides(b, i, o, e)) || (InputsOpen(o, i) && InputElides(b, i, o))
    ensures b == a
  {
    if InputsOpen(o, i) && InputElides(a, i, o) && b != a { ElidedInputIsDone(a, i, o); }
  }

  /** The two ways a scan edits. */
  ghost predicate Elision(b: Block, b': Block, i: nat, o: seq<Outline>, e: Measure)
    requires i < |o|
  {
    || (ResultsOpen(o, i) && ResultElides(b, i, o, e) && b' == ElidedResult(b, i, o, e))
    || (InputsOpen(o, i) && InputElides(b, i, o) && b' == ElidedInput(b, i, o))
  }

  lemma ElisionChanges(b: Block, b': Block, i: nat, o: seq<Outline>, e: Measure)
    requires i < |o| && Elision(b, b', i, o, e)
    ensures b' != b && !IsSealed(b') && SlotOf(b') == SlotOf(b) && !IsSealed(b)
  {
    if InputsOpen(o, i) && InputElides(b, i, o) { ElidedInputIsDone(b, i, o); }
  }

  /** The edited message is its visible blocks with one of them replaced. */
  lemma EditedVisible(content: seq<Block>, j: nat, b: Block) returns (p: nat)
    requires j < |content| && !IsSealed(b) && !IsSealed(content[j])
    ensures p == |WithoutSealed(content[..j])| && p < |WithoutSealed(content)|
    ensures WithoutSealed(content)[p] == content[j]
    ensures WithoutSealed(content[j := b]) == WithoutSealed(content)[p := b]
  {
    p := |WithoutSealed(content[..j])|;
    ReplacedContent(content, j, content[j]);
    ReplacedContent(content, j, b);
    assert content[j := content[j]] == content;
  }

  lemma EditKeepsFrame(
    orig: seq<Message>, ms: seq<Message>, f: nat, i: nat, j: nat, b: Block, o: seq<Outline>, e: Measure)
    requires |o| == |orig| && Frame(orig, ms, f, o, e)
    requires i < |ms| && j < |ms[i].content| && Elision(ms[i].content[j], b, i, o, e)
    ensures Frame(orig, EditBlock(ms, i, j, b), if i < f then i else f, o, e)
  {
    var r := EditBlock(ms, i, j, b);
    var g := if i < f then i else f;
    forall k | 0 <= k < |orig| ensures FrameAt(orig[k], r[k], g, k, o, e) {
      FrameVisible(orig, ms, f, o, e, k);
      if k == i {
        EditedMessageFrame(orig, ms, f, i, j, b, o, e);
      } else if k > i {
        NoSealedLeft(ms[k].content);
      }
    }
  }

  lemma NoSealedLeft(content: seq<Block>)
    ensures NoSealed(WithoutSealed(content))
  {
  }

  lemma EditedMessageFrame(
    orig: seq<Message>, ms: seq<Message>, f: nat, i: nat, j: nat, b: Block, o: seq<Outline>, e: Measure)
    requires |o| == |orig| && Frame(orig, ms, f, o, e)
    requires i < |ms| && j < |ms[i].content| && Elision(ms[i].content[j], b, i, o, e)
    ensures NoSealed(EditBlock(ms, i, j, b)[i].content)
    ensures ContentElided(WithoutSealed(orig[i].content), EditBlock(ms, i, j, b)[i].content, i, o, e)
    ensures i <= f ==> EditBlock(ms, i, j, b)[i].content != WithoutSealed(orig[i].content)
  {
    ElisionChanges(ms[i].content[j], b, i, o, e);
    FrameVisible(orig, ms, f, o, e, i);
    NoSealedLeft(ms[i].content[j := b]);
    var was := WithoutSealed(orig[i].content);
    var c := WithoutSealed(ms[i].content);
    var p := EditedVisible(ms[i].content, j, b);
    ElidedOnce(was[p], c[p], i, o, e);
    assert BlockElided(was[p], b, i, o, e);
    assert c[p := b][p] != was[p];
  }

  // ---- every scan keeps them all ----

  /** Everything an elided transcript still has in common with the one it came from. */
  ghost predicate Kept(orig: seq<Message>, ms: seq<Message>, f: nat, e: Measure)
  {
    && Frame(orig, ms, f, OutlineOf(orig), e)
    && OutlineOf(ms) == OutlineOf(orig)
    && (PairedSoFar(orig) ==> PairedSoFar(ms))
    && (Paired(orig) ==> Paired(ms))
    && (ThinkingValid(orig) ==> ThinkingValid(ms))
  }

  lemma EditKept(orig: seq<Message>, ms: seq<Message>, f: nat, i: nat, j: nat, b: Block, e: Measure)
    requires Kept(orig, ms, f, e) && i < |ms| && j < |ms[i].content|
    requires Elision(ms[i].content[j], b, i, OutlineOf(orig), e)
    ensures Kept(orig, EditBlock(ms, i, j, b), if i < f then i else f, e)
  {
    ElisionChanges(ms[i].content[j], b, i, OutlineOf(orig), e);
    EditKeepsFrame(orig, ms, f, i, j, b, OutlineOf(orig), e);
    EditKeepsOutline(ms, i, j, b);
    EditKeepsPaired(ms, i, j, b);
    if ThinkingValid(ms) { EditKeepsThinking(ms, i, j, b); }
  }

  /** A property of transcripts that no elision breaks. */
  ghost predicate ClosedUnderElision(p: seq<Message> -> bool, o: seq<Outline>, e: Measure)
  {
    forall ms: seq<Message>, i: nat, j: nat, b: Block ::
      |ms| == |o| && i < |ms| && j < |ms[i].content| && Elision(ms[i].content[j], b, i, o, e) && p(ms) ==>
        p(EditBlock(ms, i, j, b))
  }

  /** A scan keeps any such property, and returns the transcript itself when it counts none. */
  lemma {:induction false} ResultsKeep(
    p: seq<Message> -> bool, ms: seq<Message>, i: nat, j: nat, o: seq<Outline>, e: Measure)
    requires |o| == |ms| && i <= |ms| && (i < |ms| ==> j <= |ms[i].content|)
    requires ClosedUnderElision(p, o, e) && p(ms)
    ensures p(ElideResults(ms, i, j, o, e).messages)
    ensures ElideResults(ms, i, j, o, e).count == 0 ==> ElideResults(ms, i, j, o, e).messages == ms
    decreases |ms| - i, Remaining(ms, i, j)
  {
    if i == |ms| {
    } else if !ResultsOpen(o, i) || j == |ms[i].content| || e.Relieved(ms) {
      ResultsKeep(p, ms, i + 1, 0, o, e);
    } else if !ResultElides(ms[i].content[j], i, o, e) {
      ResultsKeep(p, ms, i, j + 1, o, e);
    } else {
      var b := ElidedResult(ms[i].content[j], i, o, e);
      EditedContent(ms, i, j, b);
      assert Elision(ms[i].content[j], b, i, o, e);
      ResultsKeep(p, EditBlock(ms, i, j, b), i, NextPosition(ms[i].content, j), o, e);
    }
  }

  lemma {:induction false} InputsKeep(
    p: seq<Message> -> bool, ms: seq<Message>, i: nat, j: nat, o: seq<Outline>, e: Measure)
    requires |o| == |ms| && i <= |ms| && (i < |ms| ==> j <= |ms[i].content|)
    requires ClosedUnderElision(p, o, e) && p(ms)
    ensures p(ElideInputs(ms, i, j, o, e).messages)
    ensures ElideInputs(ms, i, j, o, e).count == 0 ==> ElideInputs(ms, i, j, o, e).messages == ms
    decreases |ms| - i, Remaining(ms, i, j)
  {
    if i == |ms| {
    } else if !InputsOpen(o, i) || j == |ms[i].content| {
      InputsKeep(p, ms, i + 1, 0, o, e);
    } else if !InputElides(ms[i].content[j], i, o) {
      InputsKeep(p, ms, i, j + 1, o, e);
    } else if !e.Relieved(ms) {
      var b := ElidedInput(ms[i].content[j], i, o);
      EditedContent(ms, i, j, b);
      assert Elision(ms[i].content[j], b, i, o, e);
      InputsKeep(p, EditBlock(ms, i, j, b), i, NextPosition(ms[i].content, j), o, e);
    }
  }

  ghost predicate KeptSomehow(orig: seq<Message>, ms: seq<Message>, e: Measure)
  {
    exists f: nat :: Kept(orig, ms, f, e)
  }

  lemma KeptIsClosed(orig: seq<Message>, e: Measure)
    ensures ClosedUnderElision(ms => KeptSomehow(orig, ms, e), OutlineOf(orig), e)
  {
    forall ms: seq<Message>, i: nat, j: nat, b: Block |
      |ms| == |OutlineOf(orig)| && i < |ms| && j < |ms[i].content|
      && Elision(ms[i].content[j], b, i, OutlineOf(orig), e) && KeptSomehow(orig, ms, e)
      ensures KeptSomehow(orig, EditBlock(ms, i, j, b), e)
    {
      var f: nat :| Kept(orig, ms, f, e);
      EditKept(orig, ms, f, i, j, b, e);
    }
  }

  /** Compaction keeps pairing and thinking, changes nothing when it reports nothing, and
      otherwise changes the transcript exactly as its frame says. */
  lemma CompactKeeps(ms: seq<Message>, e: Measure)
    ensures KeptSomehow(ms, Compact(ms, e).messages, e)
    ensures Compact(ms, e).elided + Compact(ms, e).inputs == 0 ==> Compact(ms, e).messages == ms
  {
    assert Kept(ms, ms, |ms|, e);
    if e.Crowded(ms) {
      var o := OutlineOf(ms);
      var p := x => KeptSomehow(ms, x, e);
      KeptIsClosed(ms, e);
      ResultsKeep(p, ms, 0, 0, o, e);
      var mid := ElideResults(ms, 0, 0, o, e).messages;
      assert KeptSomehow(ms, mid, e);
      assert OutlineOf(mid) == o;
      InputsKeep(p, mid, 0, 0, o, e);
    }
  }

  /** The frame in the words of the design: the first user message, the last two assistant
      turns, error results, ask results and the inputs of failed calls are never elided. */
  lemma FrameProtects(ms: seq<Message>, r: seq<Message>, f: nat, e: Measure)
    requires Frame(ms, r, f, OutlineOf(ms), e)
    ensures ms != [] && ms[0].role == User ==> r[0] == ms[0]
    ensures forall i :: ProtectedFrom(OutlineOf(ms)) <= i < |ms| ==>
              r[i].content == (if i < f then ms[i].content else WithoutSealed(ms[i].content))
    ensures forall i :: f <= i < |ms| ==> |r[i].content| == |WithoutSealed(ms[i].content)|
    ensures forall i, k :: f <= i < |ms| && 0 <= k < |r[i].content| ==>
              var a := WithoutSealed(ms[i].content)[k];
              var names := NamesOf(OutlineOf(ms));
              && (a.ToolResult? && (a.isError || (a.id in names && names[a.id] == "ask")) ==> r[i].content[k] == a)
              && (a.ToolUse? && a.id in FailedIds(OutlineOf(ms)) ==> r[i].content[k] == a)
              && (!a.ToolResult? && !a.ToolUse? ==> r[i].content[k] == a)
  {
  }

  // ---- where a scan stops ----

  ghost predicate NoResultIn(content: seq<Block>, i: nat, o: seq<Outline>, e: Measure)
    requires i < |o|
  {
    ResultsOpen(o, i) ==> forall b :: b in content ==> !ResultElides(b, i, o, e)
  }

  /** No result before block j of message i is left to elide. */
  ghost predicate ResultsDone(ms: seq<Message>, i: nat, j: nat, o: seq<Outline>, e: Measure)
    requires |o| == |ms| && i <= |ms| && (i < |ms| ==> j <= |ms[i].content|)
  {
    && (forall k :: 0 <= k < i ==> NoResultIn(ms[k].content, k, o, e))
    && (i < |ms| ==> NoResultIn(ms[i].content[..j], i, o, e))
  }

  ghost predicate NoInputIn(content: seq<Block>, i: nat, o: seq<Outline>)
    requires i < |o|
  {
    InputsOpen(o, i) ==> forall b :: b in content ==> !InputElides(b, i, o)
  }

  ghost predicate InputsDone(ms: seq<Message>, i: nat, j: nat, o: seq<Outline>)
    requires |o| == |ms| && i <= |ms| && (i < |ms| ==> j <= |ms[i].content|)
  {
    && (forall k :: 0 <= k < i ==> NoInputIn(ms[k].content, k, o))
    && (i < |ms| ==> NoInputIn(ms[i].content[..j], i, o))
  }

  /** Once relieved, the first tier changes nothing more. */
  lemma {:induction false} RelievedResults(ms: seq<Message>, i: nat, j: nat, o: seq<Outline>, e: Measure)
    requires |o| == |ms| && i <= |ms| && (i < |ms| ==> j <= |ms[i].content|) && e.Relieved(ms)
    ensures ElideResults(ms, i, j, o, e) == Scan(ms, 0)
    decreases |ms| - i
  {
    if i < |ms| { RelievedResults(ms, i + 1, 0, o, e); }
  }

  lemma {:induction false} RelievedInputs(ms: seq<Message>, i: nat, j: nat, o: seq<Outline>, e: Measure)
    requires |o| == |ms| && i <= |ms| && (i < |ms| ==> j <= |ms[i].content|) && e.Relieved(ms)
    ensures ElideInputs(ms, i, j, o, e) == Scan(ms, 0)
    decreases |ms| - i, Remaining(ms, i, j)
  {
    if i < |ms| {
      if !InputsOpen(o, i) || j == |ms[i].content| {
        RelievedInputs(ms, i + 1, 0, o, e);
      } else if !InputElides(ms[i].content[j], i, o) {
        RelievedInputs(ms, i, j + 1, o, e);
      }
    }
  }

  /** The part of an edited message that the scan has passed. */
  lemma PassedPart(ms: seq<Message>, i: nat, j: nat, b: Block)
    requires i < |ms| && j < |ms[i].content| && !IsSealed(b)
    ensures NextPosition(ms[i].content, j) <= |EditBlock(ms, i, j, b)[i].content|
    ensures EditBlock(ms, i, j, b)[i].content[..NextPosition(ms[i].content, j)]
            == WithoutSealed(ms[i].content[..j]) + [b]
    ensures forall k :: 0 <= k < i ==> EditBlock(ms, i, j, b)[k] == ms[k]
  {
    EditedContent(ms, i, j, b);
  }

  /** The first tier ends relieved, or with no result left to elide. */
  lemma {:induction false} ResultsFinish(ms: seq<Message>, i: nat, j: nat, o: seq<Outline>, e: Measure)
    requires |o| == |ms| && i <= |ms| && (i < |ms| ==> j <= |ms[i].content|)
    requires ResultsDone(ms, i, j, o, e)
    ensures var r := ElideResults(ms, i, j, o, e).messages;
            |r| == |ms| && (e.Relieved(r) || ResultsDone(r, |r|, 0, o, e))
    decreases |ms| - i, Remaining(ms, i, j)
  {
    hide EditBlock;
    hide NextPosition;
    hide ElidedResult;
    hide ResultElides;
    if i == |ms| {
    } else if e.Relieved(ms) {
      RelievedResults(ms, i, j, o, e);
    } else if !ResultsOpen(o, i) || j == |ms[i].content| {
      assert ms[i].content[..|ms[i].content|] == ms[i].content;
      ResultsFinish(ms, i + 1, 0, o, e);
    } else if !ResultElides(ms[i].content[j], i, o, e) {
      assert ms[i].content[..j + 1] == ms[i].content[..j] + [ms[i].content[j]];
      ResultsFinish(ms, i, j + 1, o, e);
    } else {
      var b := ElidedResult(ms[i].content[j], i, o, e);
      EditedContent(ms, i, j, b);
      PassedPart(ms, i, j, b);
      ResultsFinish(EditBlock(ms, i, j, b), i, NextPosition(ms[i].content, j), o, e);
    }
  }

  /** Where no result is left to elide, no edit brings one back. */
  lemma ResultsDoneIsClosed(o: seq<Outline>, e: Measure)
    ensures ClosedUnderElision(ms => |ms| == |o| && ResultsDone(ms, |ms|, 0, o, e), o, e)
  {
    forall ms: seq<Message>, i: nat, j: nat, b: Block |
      |ms| == |o| && i < |ms| && j < |ms[i].content| && Elision(ms[i].content[j], b, i, o, e)
      && ResultsDone(ms, |ms|, 0, o, e)
      ensures ResultsDone(EditBlock(ms, i, j, b), |ms|, 0, o, e)
    {
      assert NoResultIn(ms[i].content, i, o, e);
      InputEditKeepsResults(ms, i, j, o, e);
    }
  }

  lemma InputEditKeepsResults(ms: seq<Message>, i: nat, j: nat, o: seq<Outline>, e: Measure)
    requires |o| == |ms| && i < |ms| && j < |ms[i].content| && InputElides(ms[i].content[j], i, o)
    requires ResultsDone(ms, |ms|, 0, o, e)
    ensures ResultsDone(EditBlock(ms, i, j, ElidedInput(ms[i].content[j], i, o)), |ms|, 0, o, e)
  {
    var b := ElidedInput(ms[i].content[j], i, o);
    var r := EditBlock(ms, i, j, b);
    EditedContent(ms, i, j, b);
    forall k | 0 <= k < |ms| ensures NoResultIn(r[k].content, k, o, e) {
      assert NoResultIn(ms[k].content, k, o, e);
      if k == i {
        forall x | x in r[i].content ensures x == b || x in ms[i].content {
          assert x in WithoutSealed(ms[i].content[..j]) || x == b || x in WithoutSealed(ms[i].content[j + 1..]);
        }
      }
    }
  }

  lemma InputEditPasses(ms: seq<Message>, i: nat, j: nat, o: seq<Outline>)
    requires |o| == |ms| && i < |ms| && j < |ms[i].content| && InputElides(ms[i].content[j], i, o)
    requires InputsDone(ms, i, j, o)
    ensures NextPosition(ms[i].content, j) <= |EditBlock(ms, i, j, ElidedInput(ms[i].content[j], i, o))[i].content|
    ensures InputsDone(EditBlock(ms, i, j, ElidedInput(ms[i].content[j], i, o)), i, NextPosition(ms[i].content, j), o)
  {
    var b := ElidedInput(ms[i].content[j], i, o);
    ElidedInputIsDone(ms[i].content[j], i, o);
    PassedPart(ms, i, j, b);
  }

  lemma InputSkipPasses(ms: seq<Message>, i: nat, j: nat, o: seq<Outline>)
    requires |o| == |ms| && i < |ms| && j < |ms[i].content| && !InputElides(ms[i].content[j], i, o)
    requires InputsDone(ms, i, j, o)
    ensures InputsDone(ms, i, j + 1, o)
  {
    hide InputElides;
    var content := ms[i].content;
    assert content[..j + 1] == content[..j] + [content[j]];
    assert NoInputIn(content[..j + 1], i, o);
  }

  lemma InputMessagePasses(ms: seq<Message>, i: nat, j: nat, o: seq<Outline>)
    requires |o| == |ms| && i < |ms| && j <= |ms[i].content| && InputsDone(ms, i, j, o)
    requires !InputsOpen(o, i) || j == |ms[i].content|
    ensures InputsDone(ms, i + 1, 0, o)
  {
  }

  /** The second tier ends relieved, or with no input left to elide. */
  lemma {:induction false} InputsFinish(ms: seq<Message>, i: nat, j: nat, o: seq<Outline>, e: Measure)
    requires |o| == |ms| && i <= |ms| && (i < |ms| ==> j <= |ms[i].content|)
    requires InputsDone(ms, i, j, o)
    ensures SecondTierDone(ElideInputs(ms, i, j, o, e).messages, o, e)
    decreases |ms| - i, Remaining(ms, i, j)
  {
    if i == |ms| {
    } else if !InputsOpen(o, i) || j == |ms[i].content| {
      InputMessagePasses(ms, i, j, o);
      InputsFinish(ms, i + 1, 0, o, e);
    } else if !InputElides(ms[i].content[j], i, o) {
      InputSkipPasses(ms, i, j, o);
      InputsFinish(ms, i, j + 1, o, e);
    } else if !e.Relieved(ms) {
      InputEditPasses(ms, i, j, o);
      EditedContent(ms, i, j, ElidedInput(ms[i].content[j], i, o));
      InputsFinish(
        EditBlock(ms, i, j, ElidedInput(ms[i].content[j], i, o)), i, NextPosition(ms[i].content, j), o, e);
    }
  }

  ghost predicate SecondTierDone(ms: seq<Message>, o: seq<Outline>, e: Measure)
  {
    |ms| == |o| && (e.Relieved(ms) || InputsDone(ms, |ms|, 0, o))
  }

  lemma FirstTierOutline(ms: seq<Message>, e: Measure)
    ensures OutlineOf(ElideResults(ms, 0, 0, OutlineOf(ms), e).messages) == OutlineOf(ms)
  {
    assert Kept(ms, ms, |ms|, e);
    KeptIsClosed(ms, e);
    ResultsKeep(x => KeptSomehow(ms, x, e), ms, 0, 0, OutlineOf(ms), e);
    assert KeptSomehow(ms, ElideResults(ms, 0, 0, OutlineOf(ms), e).messages, e);
  }

  /** Compaction of a crowded session ends relieved, or with nothing left to elide. */
  lemma CompactFinishes(ms: seq<Message>, e: Measure)
    requires e.Crowded(ms)
    ensures var r := Compact(ms, e).messages;
            && |r| == |ms| && OutlineOf(r) == OutlineOf(ms)
            && (e.Relieved(r) || (ResultsDone(r, |r|, 0, OutlineOf(r), e) && InputsDone(r, |r|, 0, OutlineOf(r))))
  {
    CompactKeeps(ms, e);
    var o := OutlineOf(ms);
    var mid := ElideResults(ms, 0, 0, o, e).messages;
    ResultsFinish(ms, 0, 0, o, e);
    FirstTierOutline(ms, e);
    if e.Relieved(mid) {
      RelievedInputs(mid, 0, 0, o, e);
    } else {
      InputsFinish(mid, 0, 0, o, e);
      ResultsDoneIsClosed(o, e);
      InputsKeep(x => |x| == |o| && ResultsDone(x, |x|, 0, o, e), mid, 0, 0, o, e);
    }
  }

  lemma {:induction false} NoResultsNoChange(ms: seq<Message>, i: nat, j: nat, o: seq<Outline>, e: Measure)
    requires |o| == |ms| && i <= |ms| && (i < |ms| ==> j <= |ms[i].content|)
    requires ResultsDone(ms, |ms|, 0, o, e)
    ensures ElideResults(ms, i, j, o, e) == Scan(ms, 0)
    decreases |ms| - i, Remaining(ms, i, j)
  {
    if i < |ms| {
      assert NoResultIn(ms[i].content, i, o, e);
      if !ResultsOpen(o, i) || j == |ms[i].content| || e.Relieved(ms) {
        NoResultsNoChange(ms, i + 1, 0, o, e);
      } else {
        NoResultsNoChange(ms, i, j + 1, o, e);
      }
    }
  }

  lemma {:induction false} NoInputsNoChange(ms: seq<Message>, i: nat, j: nat, o: seq<Outline>, e: Measure)
    requires |o| == |ms| && i <= |ms| && (i < |ms| ==> j <= |ms[i].content|)
    requires InputsDone(ms, |ms|, 0, o)
    ensures ElideInputs(ms, i, j, o, e) == Scan(ms, 0)
    decreases |ms| - i, Remaining(ms, i, j)
  {
    if i < |ms| {
      assert NoInputIn(ms[i].content, i, o);
      if !InputsOpen(o, i) || j == |ms[i].content| {
        NoInputsNoChange(ms, i + 1, 0, o, e);
      } else {
        NoInputsNoChange(ms, i, j + 1, o, e);
      }
    }
  }

  /** Compacting what compaction left reports nothing and changes nothing. */
  lemma CompactIsIdempotent(ms: seq<Message>, e: Measure)
    requires e.window > 0
    ensures var r := Compact(ms, e).messages; Compact(r, e) == Compacted(r, 0, 0)
  {
    var r := Compact(ms, e).messages;
    if e.Crowded(ms) && e.Crowded(r) {
      CompactFinishes(ms, e);
      assert !e.Relieved(r);
      NoResultsNoChange(r, 0, 0, OutlineOf(r), e);
      NoInputsNoChange(r, 0, 0, OutlineOf(r), e);
    }
  }
}
