/** What compaction does to each block, in the design's own words: which blocks may give way and
    to what, why the others stand, and that nothing gives way before it has to. */
module CompactionReasons {
  import opened Wrappers
  import opened Decimals
  import opened Transcript
  import opened SessionModel
  import opened Compaction
  import opened CompactionLaws

  // ---- what is old ----

  /** Message n is the last assistant turn but one. */
  ghost predicate IsLastButOne(ms: seq<Message>, n: nat)
  {
    && n < |ms| && ms[n].role == Assistant
    && exists m :: n < m < |ms| && IsOnlyLater(ms, n, m)
  }

  ghost predicate IsOnlyLater(ms: seq<Message>, n: nat, m: nat)
  {
    n < m < |ms| && forall k :: n < k < |ms| ==> (ms[k].role == Assistant <==> k == m)
  }

  /** Message i comes before the last two assistant turns. */
  ghost predicate IsOld(ms: seq<Message>, i: nat)
  {
    exists n :: i < n < |ms| && IsLastButOne(ms, n)
  }

  /** Of the messages from n on, only this one, if any, is an assistant turn. */
  ghost predicate AtMostOneFrom(ms: seq<Message>, n: nat, seen: nat, last: nat)
  {
    && n <= |ms|
    && (seen == 0 ==> forall k :: n <= k < |ms| ==> ms[k].role == User)
    && (seen == 1 ==> n <= last < |ms| && forall k :: n <= k < |ms| ==> (ms[k].role == Assistant <==> k == last))
  }

  lemma NotTwoFrom(ms: seq<Message>, n: nat, seen: nat, last: nat, m: nat)
    requires seen <= 1 && AtMostOneFrom(ms, n, seen, last) && n <= m
    ensures !IsLastButOne(ms, m)
  {
    forall k | m < k < |ms| ensures ms[m].role == User || !IsOnlyLater(ms, m, k) {
      if IsOnlyLater(ms, m, k) { LaterIsATurn(ms, m, k); }
    }
  }

  lemma LaterIsATurn(ms: seq<Message>, m: nat, k: nat)
    requires IsOnlyLater(ms, m, k)
    ensures ms[k].role == Assistant
  {
  }

  lemma AnotherOneBefore(ms: seq<Message>, n: nat, last: nat)
    requires n > 0 && AtMostOneFrom(ms, n, 1, last) && ms[n - 1].role == Assistant
    ensures IsLastButOne(ms, n - 1)
  {
    assert IsOnlyLater(ms, n - 1, last);
  }

  lemma {:induction false} WithinMeans(ms: seq<Message>, n: nat, seen: nat, last: nat)
    requires seen <= 1 && AtMostOneFrom(ms, n, seen, last)
    requires seen == Turns(OutlineOf(ms), |ms|) - Turns(OutlineOf(ms), n)
    ensures var p := ProtectedWithin(OutlineOf(ms), n, seen);
            && (p > 0 ==> IsLastButOne(ms, p))
            && (p == 0 ==> forall m :: 0 < m < |ms| ==> !IsLastButOne(ms, m))
    decreases n
  {
    hide OutlineOf;
    hide IsLastButOne;
    if n == 0 {
      forall m | 0 < m < |ms| ensures !IsLastButOne(ms, m) { NotTwoFrom(ms, 0, seen, last, m); }
    } else if ms[n - 1].role == Assistant {
      if seen == 1 {
        AnotherOneBefore(ms, n, last);
        if n == 1 {
          forall m | 0 < m < |ms| ensures !IsLastButOne(ms, m) { NotTwoFrom(ms, 1, 1, last, m); }
        }
      } else {
        WithinMeans(ms, n - 1, 1, n - 1);
      }
    } else {
      WithinMeans(ms, n - 1, seen, last);
    }
  }

  lemma LastButOneIsOne(ms: seq<Message>, a: nat, b: nat)
    requires IsLastButOne(ms, a) && IsLastButOne(ms, b)
    ensures a == b
  {
    var m :| a < m < |ms| && IsOnlyLater(ms, a, m);
    var k :| b < k < |ms| && IsOnlyLater(ms, b, k);
    assert ms[m].role == Assistant && ms[k].role == Assistant && ms[a].role == Assistant && ms[b].role == Assistant;
  }

  /** What the two tiers look at is exactly what is old. */
  lemma OldMeans(ms: seq<Message>, i: nat)
    ensures IsOld(ms, i) <==> i < ProtectedFrom(OutlineOf(ms))
  {
    WithinMeans(ms, |ms|, 0, 0);
    var p := ProtectedFrom(OutlineOf(ms));
    if IsOld(ms, i) {
      var n :| i < n < |ms| && IsLastButOne(ms, n);
      if p > 0 { LastButOneIsOne(ms, n, p); }
    }
  }

  /** The assistant turns among the first n messages. */
  ghost function TurnsBefore(ms: seq<Message>, n: nat): set<nat>
    requires n <= |ms|
  {
    set k: nat | k < n && ms[k].role == Assistant
  }

  lemma OneMoreTurn(ms: seq<Message>, n: nat)
    requires 0 < n <= |ms|
    ensures |TurnsBefore(ms, n)| == |TurnsBefore(ms, n - 1)| + if ms[n - 1].role == Assistant then 1 else 0
  {
    var k: nat := n - 1;
    var before := TurnsBefore(ms, k);
    if ms[k].role == Assistant {
      assert TurnsBefore(ms, n) == before + {k};
    } else {
      assert TurnsBefore(ms, n) == before;
    }
  }

  lemma {:induction false} TurnsAreCounted(ms: seq<Message>, n: nat)
    requires n <= |ms|
    ensures Turns(OutlineOf(ms), n) == |TurnsBefore(ms, n)|
  {
    hide OutlineOf;
    if n == 0 {
      assert TurnsBefore(ms, 0) == {};
    } else {
      hide TurnsBefore;
      TurnsAreCounted(ms, n - 1);
      OneMoreTurn(ms, n);
    }
  }

  // ---- which calls failed, and which were asks ----

  ghost predicate IsCall(ms: seq<Message>, i: nat, j: nat, id: string)
  {
    i < |ms| && ms[i].role == Assistant && j < |ms[i].content| && ms[i].content[j].ToolUse? && ms[i].content[j].id == id
  }

  /** Some call with this id has this name. */
  ghost predicate CallNamed(ms: seq<Message>, id: string, name: string)
  {
    exists i: nat, j: nat :: IsCall(ms, i, j, id) && ms[i].content[j].name == name
  }

  ghost predicate IsFailure(ms: seq<Message>, i: nat, j: nat, id: string)
  {
    && i < |ms| && ms[i].role == User && j < |ms[i].content|
    && ms[i].content[j].ToolResult? && ms[i].content[j].id == id && ms[i].content[j].isError
  }

  /** Some result for this id is an error. */
  ghost predicate Failed(ms: seq<Message>, id: string)
  {
    exists i: nat, j: nat :: IsFailure(ms, i, j, id)
  }

  lemma {:induction false} SlotsHave(content: seq<Block>, s: Slot)
    ensures s in Slots(content) <==> exists j :: 0 <= j < |content| && SlotOf(content[j]) == [s]
  {
    if content != [] {
      SlotsHave(content[1..], s);
      if j :| 0 <= j < |content| && SlotOf(content[j]) == [s] {
        if j > 0 { assert content[1..][j - 1] == content[j]; }
      }
      if s in Slots(content[1..]) {
        var j :| 0 <= j < |content[1..]| && SlotOf(content[1..][j]) == [s];
        assert content[j + 1] == content[1..][j];
      }
    }
  }

  lemma {:induction false} AllSlotsHave(o: seq<Outline>, role: Role, s: Slot)
    ensures s in AllSlots(o, role) <==> exists i :: 0 <= i < |o| && o[i].role == role && s in o[i].slots
  {
    if o != [] {
      var n := |o| - 1;
      AllSlotsHave(o[..n], role, s);
      if i :| 0 <= i < |o| && o[i].role == role && s in o[i].slots {
        if i < n { assert o[..n][i] == o[i]; }
      }
      if s in AllSlots(o[..n], role) {
        var i :| 0 <= i < |o[..n]| && o[..n][i].role == role && s in o[..n][i].slots;
        assert o[i] == o[..n][i];
      }
    }
  }

  lemma SlotsOfRole(ms: seq<Message>, role: Role, s: Slot)
    ensures s in AllSlots(OutlineOf(ms), role) <==>
              exists i: nat, j: nat ::
                i < |ms| && ms[i].role == role && j < |ms[i].content| && SlotOf(ms[i].content[j]) == [s]
  {
    var o := OutlineOf(ms);
    AllSlotsHave(o, role, s);
    forall i | 0 <= i < |ms|
      ensures s in o[i].slots <==> exists j :: 0 <= j < |ms[i].content| && SlotOf(ms[i].content[j]) == [s]
    {
      SlotsHave(ms[i].content, s);
    }
  }

  lemma {:induction false} NamesHave(slots: seq<Slot>, id: string)
    ensures id in CallNames(slots) ==> CallSlot(id, CallNames(slots)[id]) in slots
    ensures id in CallNames(slots) <==> exists name :: CallSlot(id, name) in slots
  {
    if slots != [] {
      var n := |slots| - 1;
      NamesHave(slots[..n], id);
      assert slots == slots[..n] + [slots[n]];
    }
  }

  /** The name looked up for an id is the name of a call with that id. */
  lemma NamesMean(ms: seq<Message>, id: string)
    ensures var names := NamesOf(OutlineOf(ms));
            && (id in names ==> CallNamed(ms, id, names[id]))
            && (id !in names ==> forall name :: !CallNamed(ms, id, name))
  {
    var slots := AllSlots(OutlineOf(ms), Assistant);
    NamesHave(slots, id);
    forall name ensures CallSlot(id, name) in slots <==> CallNamed(ms, id, name) {
      SlotsOfRole(ms, Assistant, CallSlot(id, name));
      if CallSlot(id, name) in slots {
        var i: nat, j: nat :|
          i < |ms| && ms[i].role == Assistant && j < |ms[i].content|
          && SlotOf(ms[i].content[j]) == [CallSlot(id, name)];
        assert IsCall(ms, i, j, id) && ms[i].content[j].name == name;
      }
      if CallNamed(ms, id, name) {
        var i: nat, j: nat :| IsCall(ms, i, j, id) && ms[i].content[j].name == name;
        assert SlotOf(ms[i].content[j]) == [CallSlot(id, name)];
      }
    }
  }

  lemma FailedMeans(ms: seq<Message>, id: string)
    ensures id in FailedIds(OutlineOf(ms)) <==> Failed(ms, id)
  {
    hide OutlineOf;
    FailedIsListed(OutlineOf(ms), id);
    FailedIsThere(ms, id);
  }

  lemma FailedIsListed(o: seq<Outline>, id: string)
    ensures id in FailedIds(o) <==> ResultSlot(id, true) in AllSlots(o, User)
  {
    hide AllSlots;
    var slots := AllSlots(o, User);
    if ResultSlot(id, true) in slots {
      var k :| 0 <= k < |slots| && slots[k] == ResultSlot(id, true);
      assert slots[k].id == id;
    }
  }

  lemma FailedIsThere(ms: seq<Message>, id: string)
    ensures ResultSlot(id, true) in AllSlots(OutlineOf(ms), User) <==> Failed(ms, id)
  {
    hide OutlineOf;
    hide AllSlots;
    var s := ResultSlot(id, true);
    SlotsOfRole(ms, User, s);
    if i: nat, j: nat :| i < |ms| && ms[i].role == User && j < |ms[i].content| && SlotOf(ms[i].content[j]) == [s] {
      assert IsFailure(ms, i, j, id);
    }
    if i: nat, j: nat :| IsFailure(ms, i, j, id) {
      assert SlotOf(ms[i].content[j]) == [s];
    }
  }

  // ---- what gives way, and to what ----

  /** What the model is shown in place of a result. */
  function ResultText(length: nat, turn: nat): string
  {
    "[elided by nare: " + Decimal(length) + " chars of output from turn " + Decimal(turn)
    + ". Rerun the tool if you need it.]"
  }

  /** What it is shown in place of the text of a write or an edit. */
  function InputText(field: string, length: nat, path: string, turn: nat): string
  {
    "[elided by nare: "
    + (if field == "content" then "wrote " + Decimal(length) + " chars to " + path
       else if field == "old" then "replaced " + Decimal(length) + " chars in " + path
       else "wrote " + Decimal(length) + " chars into " + path)
    + " at turn " + Decimal(turn) + ". Read the file if you need it.]"
  }

  lemma ResultTextIs(length: nat, turn: nat)
    ensures ResultStub(length, turn) == ResultText(length, turn)
  {
    hide Decimal;
    assert PREFIX + " " == "[elided by nare: ";
    Regroup5(
      PREFIX, " ", Decimal(length), " chars of output from turn ", Decimal(turn), ". Rerun the tool if you need it.]");
  }

  lemma Regroup5(a: string, b: string, c: string, d: string, e: string, f: string)
    ensures a + (b + c + d + e + f) == a + b + c + d + e + f
  {
  }

  lemma InputTextIs(field: string, length: nat, path: string, turn: nat)
    ensures InputStub(field, length, path, turn) == InputText(field, length, path, turn)
  {
    hide Decimal;
    assert PREFIX + " " == "[elided by nare: ";
    Regroup5(
      PREFIX, " ", StubAction(field, length, path), " at turn ", Decimal(turn), ". Read the file if you need it.]");
  }

  /** Why a tool result stands where results may give way: it is an error, or an answer to an
      ask, or no string, or, with no image to drop, already elided or no longer than its stub. */
  predicate ResultStands(b: Block, asked: bool, turn: nat, images: bool)
    requires b.ToolResult?
  {
    || b.isError || asked || b.content.NonStr?
    || (!(images && b.image.Some?)
        && (PREFIX <= b.content.s || |b.content.s| <= |ResultText(|b.content.s|, turn)|))
  }

  /** Why a field of a write or an edit stands: it is not there, or no string, or already elided,
      or no longer than its stub. */
  predicate FieldStands(args: map<string, Value>, field: string, turn: nat)
  {
    field in args && args[field].Str? ==>
      PREFIX <= args[field].s || |args[field].s| <= |InputText(field, |args[field].s|, PathIn(args), turn)|
  }

  function PathIn(args: map<string, Value>): string
  {
    if "path" !in args then "" else match args["path"] case Str(s) => s case NonStr(raw) => raw
  }

  /** Why a call's input stands: it failed, or is no write or edit, or each of its texts stands. */
  predicate InputStands(b: Block, failed: bool, turn: nat)
    requires b.ToolUse?
  {
    || failed || b.args.None?
    || (&& (b.name == "write" ==> FieldStands(b.args.value, "content", turn))
        && (b.name == "edit" ==> FieldStands(b.args.value, "old", turn) && FieldStands(b.args.value, "new", turn)))
  }

  lemma ResultElidesMeans(b: Block, i: nat, o: seq<Outline>, e: Measure)
    requires i < |o| && b.ToolResult?
    ensures var asked := b.id in NamesOf(o) && NamesOf(o)[b.id] == "ask";
            ResultElides(b, i, o, e) <==> !ResultStands(b, asked, Turns(o, i), e.images)
  {
    hide NamesOf;
    hide Turns;
    if b.content.Str? { ResultTextIs(|b.content.s|, Turns(o, i)); }
    hide ResultStub;
    hide ResultText;
  }

  lemma FieldElidesMeans(args: map<string, Value>, field: string, turn: nat)
    ensures FieldElides(args, field, turn) <==> !FieldStands(args, field, turn)
  {
    if field in args && args[field].Str? { InputTextIs(field, |args[field].s|, PathIn(args), turn); }
    assert PathOf(args) == PathIn(args);
    hide InputStub;
    hide InputText;
  }

  lemma InputElidesMeans(b: Block, i: nat, o: seq<Outline>)
    requires i < |o| && b.ToolUse?
    ensures InputElides(b, i, o) <==> !InputStands(b, b.id in FailedIds(o), Turns(o, i + 1))
  {
    hide FailedIds;
    hide Turns;
    hide FieldElides;
    hide FieldStands;
    if b.args.Some? {
      var args, turn := b.args.value, Turns(o, i + 1);
      FieldElidesMeans(args, "content", turn);
      FieldElidesMeans(args, "old", turn);
      FieldElidesMeans(args, "new", turn);
      var stubs := PendingStubs(b.name, args, turn);
      assert forall f :: f in stubs <==> f in StubFields(b.name) && FieldElides(args, f, turn);
      FieldsOf(b.name);
      if stubs == map[] {
        forall f | f in StubFields(b.name) ensures !FieldElides(args, f, turn) { assert f !in stubs; }
      } else {
        var f :| f in stubs;
      }
    }
    hide PendingStubs;
  }

  lemma FieldsOf(name: string)
    ensures name == "write" ==> StubFields(name) == ["content"]
    ensures name == "edit" ==> StubFields(name) == ["old", "new"]
    ensures name != "write" && name != "edit" ==> StubFields(name) == []
  {
  }

  lemma StubsAreOfTexts(name: string, f: string)
    ensures f in StubFields(name) <==> IsTextOf(name, f)
  {
    FieldsOf(name);
  }

  // ---- compaction in these words ----

  /** The calls with this id, if any, are asks and nothing else. */
  ghost predicate IsAsk(ms: seq<Message>, id: string)
  {
    CallNamed(ms, id, "ask") && forall name :: CallNamed(ms, id, name) ==> name == "ask"
  }

  /** Block b of message i is the stub that result a gave way to: a text of strictly fewer
      characters, or one that no longer carries an image. */
  ghost predicate ResultGave(a: Block, b: Block, ms: seq<Message>, i: nat, images: bool)
    requires i <= |ms|
  {
    && a.ToolResult? && !a.isError && !IsAsk(ms, a.id) && a.content.Str?
    && b == ToolResult(
              a.id, Str(ResultText(|a.content.s|, |TurnsBefore(ms, i)|)), false, if images then None else a.image)
    && (|b.content.s| < |a.content.s| || (images && a.image.Some?))
  }

  /** The texts of a write and of an edit. */
  predicate IsTextOf(name: string, f: string)
  {
    (name == "write" && f == "content") || (name == "edit" && (f == "old" || f == "new"))
  }

  /** A text of a call's input is as it was, or the stub of it, of strictly fewer characters. */
  ghost predicate FieldGave(args: map<string, Value>, args': map<string, Value>, f: string, name: string, turn: nat)
    requires f in args && f in args'
  {
    || args'[f] == args[f]
    || (&& IsTextOf(name, f)
        && args[f].Str? && args'[f] == Str(InputText(f, |args[f].s|, PathIn(args), turn))
        && |args'[f].s| < |args[f].s|)
  }

  ghost predicate InputGave(a: Block, b: Block, ms: seq<Message>, i: nat)
    requires i < |ms|
  {
    && a.ToolUse? && a.args.Some? && !Failed(ms, a.id)
    && b.ToolUse? && b.id == a.id && b.name == a.name && b.args.Some?
    && b.args.value != a.args.value && b.args.value.Keys == a.args.value.Keys
    && forall f :: f in a.args.value ==> FieldGave(a.args.value, b.args.value, f, a.name, |TurnsBefore(ms, i + 1)|)
  }

  ghost predicate GaveWay(a: Block, b: Block, ms: seq<Message>, i: nat, images: bool)
    requires i < |ms|
  {
    && IsOld(ms, i)
    && if ms[i].role == User then i != 0 && ResultGave(a, b, ms, i, images) else InputGave(a, b, ms, i)
  }

  lemma ResultIsGave(a: Block, ms: seq<Message>, i: nat, e: Measure)
    requires i < |ms| && ResultElides(a, i, OutlineOf(ms), e)
    ensures ResultGave(a, ElidedResult(a, i, OutlineOf(ms), e), ms, i, e.images)
  {
    hide OutlineOf;
    hide NamesOf;
    TurnsAreCounted(ms, i);
    hide TurnsBefore;
    NamesMean(ms, a.id);
    hide CallNamed;
    ResultTextIs(|a.content.s|, Turns(OutlineOf(ms), i));
    hide ResultText;
    hide ResultStub;
    hide Turns;
  }

  lemma FieldIsGave(name: string, args: map<string, Value>, f: string, turn: nat)
    requires f in args
    ensures var after := args + PendingStubs(name, args, turn);
            f in after && FieldGave(args, after, f, name, turn)
  {
    StubsAreOfTexts(name, f);
    PathsAlike(args);
    if f in PendingStubs(name, args, turn) { InputTextIs(f, |args[f].s|, PathIn(args), turn); }
    hide InputText;
    hide InputStub;
    hide PathOf;
    hide PathIn;
    hide StubFields;
    hide IsTextOf;
  }

  lemma StubsChange(name: string, args: map<string, Value>, turn: nat)
    requires PendingStubs(name, args, turn) != map[]
    ensures var after := args + PendingStubs(name, args, turn); after != args && after.Keys == args.Keys
  {
    hide InputStub;
    var stubs := PendingStubs(name, args, turn);
    var f :| f in stubs;
    assert (args + stubs)[f] == stubs[f] && stubs[f] != args[f];
    assert (args + stubs).Keys == args.Keys + stubs.Keys;
  }

  lemma InputIsGave(a: Block, ms: seq<Message>, i: nat)
    requires i < |ms| && InputElides(a, i, OutlineOf(ms))
    ensures InputGave(a, ElidedInput(a, i, OutlineOf(ms)), ms, i)
  {
    hide OutlineOf;
    hide TurnsBefore;
    hide Turns;
    hide FailedIds;
    hide Failed;
    hide PendingStubs;
    hide FieldGave;
    var turn := Turns(OutlineOf(ms), i + 1);
    var args := a.args.value;
    TurnsAreCounted(ms, i + 1);
    FailedMeans(ms, a.id);
    StubsChange(a.name, args, turn);
    forall f | f in args ensures FieldGave(args, args + PendingStubs(a.name, args, turn), f, a.name, turn) {
      FieldIsGave(a.name, args, f, turn);
    }
  }

  lemma PathsAlike(args: map<string, Value>)
    ensures PathOf(args) == PathIn(args)
  {
  }

  lemma ElidedGaveWay(a: Block, b: Block, ms: seq<Message>, i: nat, e: Measure)
    requires i < |ms| && BlockElided(a, b, i, OutlineOf(ms), e)
    ensures b == a || GaveWay(a, b, ms, i, e.images)
  {
    hide OutlineOf;
    hide ProtectedFrom;
    hide ResultElides;
    hide ElidedResult;
    hide InputElides;
    hide ElidedInput;
    hide ResultGave;
    hide InputGave;
    OldMeans(ms, i);
    var o := OutlineOf(ms);
    if b != a {
      if ResultsOpen(o, i) && ResultElides(a, i, o, e) && b == ElidedResult(a, i, o, e) {
        ResultIsGave(a, ms, i, e);
      } else {
        InputIsGave(a, ms, i);
      }
    }
  }

  /** What compaction makes of a message. */
  ghost predicate Shortened(a: Message, b: Message, ms: seq<Message>, i: nat, images: bool)
    requires i < |ms|
  {
    var kept := WithoutSealed(a.content);
    && b.role == a.role && |b.content| == |kept|
    && forall k :: 0 <= k < |kept| ==> b.content[k] == kept[k] || GaveWay(kept[k], b.content[k], ms, i, images)
  }

  /** Compaction changes nothing before some message, and from it on takes out the sealed thinking
      and lets old results and inputs give way to stubs: never to anything longer, never an
      error, an ask, the input of a failed call, or anything of the last two assistant turns. */
  lemma CompactionShortens(ms: seq<Message>, e: Measure) returns (first: nat)
    ensures var r := Compact(ms, e).messages;
            && |r| == |ms|
            && (forall i :: 0 <= i < |ms| && i < first ==> r[i] == ms[i])
            && (forall i :: 0 <= i < |ms| && i >= first ==> Shortened(ms[i], r[i], ms, i, e.images))
            && (first < |ms| ==> r[first].content != WithoutSealed(ms[first].content))
  {
    hide Compact;
    hide OutlineOf;
    hide GaveWay;
    hide BlockElided;
    hide WithoutSealed;
    hide Paired;
    hide PairedSoFar;
    hide ThinkingValid;
    CompactKeeps(ms, e);
    var r := Compact(ms, e).messages;
    var f: nat :| Kept(ms, r, f, e);
    first := f;
    forall i | 0 <= i < |ms| && i >= f ensures Shortened(ms[i], r[i], ms, i, e.images) {
      var kept := WithoutSealed(ms[i].content);
      assert FrameAt(ms[i], r[i], f, i, OutlineOf(ms), e);
      forall k | 0 <= k < |kept|
        ensures r[i].content[k] == kept[k] || GaveWay(kept[k], r[i].content[k], ms, i, e.images)
      {
        ElidedGaveWay(kept[k], r[i].content[k], ms, i, e);
      }
    }
    forall i | 0 <= i < |ms| && i < f ensures r[i] == ms[i] { assert FrameAt(ms[i], r[i], f, i, OutlineOf(ms), e); }
    if f < |ms| { assert FrameAt(ms[f], r[f], f, f, OutlineOf(ms), e); }
  }

  /** Nothing in an old message is left that could give way. */
  ghost predicate AllStand(m: Message, ms: seq<Message>, i: nat, images: bool)
    requires i < |ms|
  {
    IsOld(ms, i) ==>
      if ms[i].role == User then
        i != 0 ==>
          forall b :: b in m.content && b.ToolResult? ==>
            ResultStands(b, CallNamed(ms, b.id, "ask"), |TurnsBefore(ms, i)|, images)
      else
        forall b :: b in m.content && b.ToolUse? ==> InputStands(b, Failed(ms, b.id), |TurnsBefore(ms, i + 1)|)
  }

  lemma NoneLeftStands(m: Message, ms: seq<Message>, i: nat, e: Measure)
    requires i < |ms| && NoResultIn(m.content, i, OutlineOf(ms), e) && NoInputIn(m.content, i, OutlineOf(ms))
    ensures AllStand(m, ms, i, e.images)
  {
    hide OutlineOf;
    hide ProtectedFrom;
    hide ResultElides;
    hide InputElides;
    hide NamesOf;
    hide FailedIds;
    hide Turns;
    hide TurnsBefore;
    hide InputStands;
    OldMeans(ms, i);
    TurnsAreCounted(ms, i);
    TurnsAreCounted(ms, i + 1);
    forall b | b in m.content && b.ToolResult? && ResultsOpen(OutlineOf(ms), i)
      ensures ResultStands(b, CallNamed(ms, b.id, "ask"), |TurnsBefore(ms, i)|, e.images)
    {
      ResultElidesMeans(b, i, OutlineOf(ms), e);
      NamesMean(ms, b.id);
    }
    forall b | b in m.content && b.ToolUse? && InputsOpen(OutlineOf(ms), i)
      ensures InputStands(b, Failed(ms, b.id), |TurnsBefore(ms, i + 1)|)
    {
      InputElidesMeans(b, i, OutlineOf(ms));
      FailedMeans(ms, b.id);
    }
  }

  /** A session at 80% of its window or more is brought down to 60%, or to where every old result
      and input has a reason to stand. Below 80% it is left alone. */
  lemma CompactionGoesFarEnough(ms: seq<Message>, e: Measure)
    ensures var r := Compact(ms, e).messages;
            && |r| == |ms|
            && (e.estimate(ms) < e.window as real * 0.8 ==> r == ms)
            && (e.estimate(ms) >= e.window as real * 0.8 ==>
                  || e.estimate(r) <= e.window as real * 0.6
                  || forall i :: 0 <= i < |ms| ==> AllStand(r[i], ms, i, e.images))
  {
    hide ElideResults;
    hide ElideInputs;
    hide AllStand;
    hide NoResultIn;
    hide NoInputIn;
    hide OutlineOf;
    if e.Crowded(ms) {
      CompactFinishes(ms, e);
      var r := Compact(ms, e).messages;
      if !e.Relieved(r) {
        forall i | 0 <= i < |ms| ensures AllStand(r[i], ms, i, e.images) {
          assert NoResultIn(r[i].content, i, OutlineOf(r), e);
          NoneLeftStands(r[i], ms, i, e);
        }
      }
    }
  }

  // ---- no more than needed, oldest first ----

  /** One block gives way, and the sealed thinking from its message on goes with it. */
  datatype Edit = Edit(message: nat, position: nat, stub: Block)

  /** These edits, one after another, make r of ms, and the session was above 60% of its window
      before each of them. */
  ghost predicate Trail(ms: seq<Message>, edits: seq<Edit>, r: seq<Message>, e: Measure)
    decreases |edits|
  {
    if edits == [] then r == ms
    else
      var x := edits[0];
      && x.message < |ms| && x.position < |ms[x.message].content|
      && e.estimate(ms) > e.window as real * 0.6
      && Trail(EditBlock(ms, x.message, x.position, x.stub), edits[1..], r, e)
  }

  /** The edits go through the transcript from its start, and make tool results of tool results,
      or calls of calls. */
  predicate OldestFirst(edits: seq<Edit>, from: nat)
  {
    && (forall a :: 0 <= a < |edits| ==> from <= edits[a].message)
    && forall a, b :: 0 <= a < b < |edits| ==> edits[a].message <= edits[b].message
  }

  predicate OnlyResults(edits: seq<Edit>)
  {
    forall a :: 0 <= a < |edits| ==> edits[a].stub.ToolResult?
  }

  predicate OnlyInputs(edits: seq<Edit>)
  {
    forall a :: 0 <= a < |edits| ==> edits[a].stub.ToolUse?
  }

  lemma TrailCons(ms: seq<Message>, x: Edit, rest: seq<Edit>, r: seq<Message>, e: Measure)
    requires x.message < |ms| && x.position < |ms[x.message].content| && !e.Relieved(ms)
    requires Trail(EditBlock(ms, x.message, x.position, x.stub), rest, r, e)
    ensures Trail(ms, [x] + rest, r, e)
  {
    hide EditBlock;
    assert ([x] + rest)[1..] == rest;
  }

  lemma OrderCons(x: Edit, rest: seq<Edit>)
    requires OldestFirst(rest, x.message)
    ensures OldestFirst([x] + rest, x.message)
  {
    var all := [x] + rest;
    forall a | 0 <= a < |all| ensures x.message <= all[a].message { if a > 0 { assert all[a] == rest[a - 1]; } }
    forall a, b | 0 <= a < b < |all| ensures all[a].message <= all[b].message {
      assert all[b] == rest[b - 1];
      if a > 0 { assert all[a] == rest[a - 1]; }
    }
  }

  lemma {:induction false} ResultsTrail(ms: seq<Message>, i: nat, j: nat, o: seq<Outline>, e: Measure)
    returns (edits: seq<Edit>)
    requires |o| == |ms| && i <= |ms| && (i < |ms| ==> j <= |ms[i].content|)
    ensures Trail(ms, edits, ElideResults(ms, i, j, o, e).messages, e)
    ensures |edits| == ElideResults(ms, i, j, o, e).count && OldestFirst(edits, i) && OnlyResults(edits)
    decreases |ms| - i, Remaining(ms, i, j)
  {
    hide EditBlock;
    hide NextPosition;
    hide ResultElides;
    hide ResultsOpen;
    hide Trail;
    if i == |ms| {
      edits := [];
      EmptyTrail(ms, e);
    } else if !ResultsOpen(o, i) || j == |ms[i].content| || e.Relieved(ms) {
      edits := ResultsTrail(ms, i + 1, 0, o, e);
    } else if !ResultElides(ms[i].content[j], i, o, e) {
      edits := ResultsTrail(ms, i, j + 1, o, e);
    } else {
      var b := ElidedResult(ms[i].content[j], i, o, e);
      EditedContent(ms, i, j, b);
      var rest := ResultsTrail(EditBlock(ms, i, j, b), i, NextPosition(ms[i].content, j), o, e);
      TrailCons(ms, Edit(i, j, b), rest, ElideResults(ms, i, j, o, e).messages, e);
      OrderCons(Edit(i, j, b), rest);
      edits := [Edit(i, j, b)] + rest;
    }
  }

  lemma EmptyTrail(ms: seq<Message>, e: Measure)
    ensures Trail(ms, [], ms, e)
  {
  }

  lemma {:induction false} InputsTrail(ms: seq<Message>, i: nat, j: nat, o: seq<Outline>, e: Measure)
    returns (edits: seq<Edit>)
    requires |o| == |ms| && i <= |ms| && (i < |ms| ==> j <= |ms[i].content|)
    ensures Trail(ms, edits, ElideInputs(ms, i, j, o, e).messages, e)
    ensures |edits| == ElideInputs(ms, i, j, o, e).count && OldestFirst(edits, i) && OnlyInputs(edits)
    decreases |ms| - i, Remaining(ms, i, j)
  {
    hide EditBlock;
    hide NextPosition;
    hide InputElides;
    hide InputsOpen;
    hide Trail;
    if i == |ms| {
      edits := [];
      EmptyTrail(ms, e);
    } else if !InputsOpen(o, i) || j == |ms[i].content| {
      edits := InputsTrail(ms, i + 1, 0, o, e);
    } else if !InputElides(ms[i].content[j], i, o) {
      edits := InputsTrail(ms, i, j + 1, o, e);
    } else if e.Relieved(ms) {
      edits := [];
      EmptyTrail(ms, e);
    } else {
      var b := ElidedInput(ms[i].content[j], i, o);
      EditedContent(ms, i, j, b);
      var rest := InputsTrail(EditBlock(ms, i, j, b), i, NextPosition(ms[i].content, j), o, e);
      TrailCons(ms, Edit(i, j, b), rest, ElideInputs(ms, i, j, o, e).messages, e);
      OrderCons(Edit(i, j, b), rest);
      edits := [Edit(i, j, b)] + rest;
    }
  }

  lemma {:induction false} TrailJoin(
    ms: seq<Message>, a: seq<Edit>, mid: seq<Message>, b: seq<Edit>, r: seq<Message>, e: Measure)
    requires Trail(ms, a, mid, e) && Trail(mid, b, r, e)
    ensures Trail(ms, a + b, r, e)
    decreases |a|
  {
    hide EditBlock;
    if a == [] {
      assert a + b == b;
    } else {
      assert (a + b)[0] == a[0] && (a + b)[1..] == a[1..] + b;
      TrailJoin(EditBlock(ms, a[0].message, a[0].position, a[0].stub), a[1..], mid, b, r, e);
    }
  }

  /** Compaction is a series of single edits, as many as it reports, each made while the session
      was still above 60% of its window: old results first, then old inputs, each from the start
      of the transcript on. */
  lemma CompactionIsNeeded(ms: seq<Message>, e: Measure) returns (results: seq<Edit>, inputs: seq<Edit>)
    ensures var c := Compact(ms, e);
            && Trail(ms, results + inputs, c.messages, e)
            && |results| == c.elided && OnlyResults(results) && OldestFirst(results, 0)
            && |inputs| == c.inputs && OnlyInputs(inputs) && OldestFirst(inputs, 0)
  {
    hide ElideResults;
    hide ElideInputs;
    hide Trail;
    hide OutlineOf;
    if !e.Crowded(ms) {
      results, inputs := [], [];
      EmptyTrail(ms, e);
      assert results + inputs == [];
    } else {
      var first := ElideResults(ms, 0, 0, OutlineOf(ms), e);
      SameLength(ms, 0, 0, OutlineOf(ms), e);
      results := ResultsTrail(ms, 0, 0, OutlineOf(ms), e);
      inputs := InputsTrail(first.messages, 0, 0, OutlineOf(first.messages), e);
      TrailJoin(ms, results, first.messages, inputs, Compact(ms, e).messages, e);
    }
  }
}
