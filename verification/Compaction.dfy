/** Deterministic context elision: old tool results and old write and edit inputs give way to
    stubs, oldest first, until the estimate is low enough. */
module Compaction {
  import opened Wrappers
  import opened Decimals
  import opened Transcript
  import opened SessionModel

  const PREFIX := "[elided by nare:"

  /** How a session's size is measured, the window it must fit, and whether images are sent.
      The estimate is any function of the transcript. */
  datatype Measure = Measure(estimate: seq<Message> -> real, window: nat, images: bool)
  {
    predicate Crowded(ms: seq<Message>)
    {
      estimate(ms) >= window as real * 0.8
    }

    predicate Relieved(ms: seq<Message>)
    {
      estimate(ms) <= window as real * 0.6
    }
  }

  // ---- the outline: what no elision changes ----

  datatype Slot = CallSlot(id: string, name: string) | ResultSlot(id: string, isError: bool)

  datatype Outline = Outline(role: Role, slots: seq<Slot>)

  function SlotOf(b: Block): seq<Slot>
  {
    match b
    case ToolUse(id, name, _) => [CallSlot(id, name)]
    case ToolResult(id, _, isError, _) => [ResultSlot(id, isError)]
    case _ => []
  }

  function Slots(content: seq<Block>): seq<Slot>
  {
    if content == [] then [] else SlotOf(content[0]) + Slots(content[1..])
  }

  function OutlineOf(ms: seq<Message>): (o: seq<Outline>)
    ensures |o| == |ms|
    ensures forall i :: 0 <= i < |ms| ==> o[i] == Outline(ms[i].role, Slots(ms[i].content))
  {
    seq(|ms|, i requires 0 <= i < |ms| => Outline(ms[i].role, Slots(ms[i].content)))
  }

  /** The id-to-name table of the calls, a later call winning. */
  function CallNames(slots: seq<Slot>): map<string, string>
  {
    if slots == [] then map[]
    else
      var last := slots[|slots| - 1];
      var before := CallNames(slots[..|slots| - 1]);
      if last.CallSlot? then before[last.id := last.name] else before
  }

  function AllSlots(o: seq<Outline>, role: Role): seq<Slot>
  {
    if o == [] then []
    else AllSlots(o[..|o| - 1], role) + if o[|o| - 1].role == role then o[|o| - 1].slots else []
  }

  function NamesOf(o: seq<Outline>): map<string, string>
  {
    CallNames(AllSlots(o, Assistant))
  }

  /** The calls that came back as errors. */
  function FailedIds(o: seq<Outline>): set<string>
  {
    var slots := AllSlots(o, User);
    set i | 0 <= i < |slots| && slots[i].ResultSlot? && slots[i].isError :: slots[i].id
  }

  /** How many assistant turns the first n messages hold. */
  function Turns(o: seq<Outline>, n: nat): (t: nat)
    requires n <= |o|
  {
    if n == 0 then 0 else Turns(o, n - 1) + if o[n - 1].role == Assistant then 1 else 0
  }

  /** Where the last two assistant turns begin; 0 protects everything. */
  function ProtectedFrom(o: seq<Outline>): (n: nat)
    ensures n <= |o|
    ensures n > 0 ==> n < |o| && Turns(o, |o|) - Turns(o, n) == 2 && o[n].role == Assistant
  {
    ProtectedWithin(o, |o|, 0)
  }

  /** Searching back from message n, with `seen` assistant turns already passed. */
  function ProtectedWithin(o: seq<Outline>, n: nat, seen: nat): (p: nat)
    requires n <= |o| && seen <= 1 && seen == Turns(o, |o|) - Turns(o, n)
    ensures p <= n
    ensures p > 0 ==> p < |o| && Turns(o, |o|) - Turns(o, p) == 2 && o[p].role == Assistant
  {
    if n == 0 then 0
    else if o[n - 1].role == Assistant then
      if seen == 1 then n - 1 else ProtectedWithin(o, n - 1, 1)
    else ProtectedWithin(o, n - 1, seen)
  }

  // ---- stubs ----

  function ResultStub(length: nat, turn: nat): (s: string)
    ensures PREFIX <= s
  {
    PREFIX
    + (" " + Decimal(length) + " chars of output from turn " + Decimal(turn) + ". Rerun the tool if you need it.]")
  }

  function TextOf(v: Value): string
  {
    match v
    case Str(s) => s
    case NonStr(raw) => raw
  }

  /** The fields of a call that compaction may elide. */
  function StubFields(name: string): seq<string>
  {
    if name == "write" then ["content"] else if name == "edit" then ["old", "new"] else []
  }

  function StubAction(field: string, length: nat, path: string): string
  {
    if field == "content" then "wrote " + Decimal(length) + " chars to " + path
    else if field == "old" then "replaced " + Decimal(length) + " chars in " + path
    else "wrote " + Decimal(length) + " chars into " + path
  }

  function InputStub(field: string, length: nat, path: string, turn: nat): (s: string)
    ensures PREFIX <= s
  {
    PREFIX + (" " + StubAction(field, length, path) + " at turn " + Decimal(turn) + ". Read the file if you need it.]")
  }

  /** Whether a field of a call's arguments gives way to a stub, and to which. */
  predicate FieldElides(args: map<string, Value>, field: string, turn: nat)
  {
    && field in args && args[field].Str? && !(PREFIX <= args[field].s)
    && |InputStub(field, |args[field].s|, PathOf(args), turn)| < |args[field].s|
  }

  function PathOf(args: map<string, Value>): string
  {
    if "path" in args then TextOf(args["path"]) else ""
  }

  function PendingStubs(name: string, args: map<string, Value>, turn: nat): map<string, Value>
  {
    map f | f in StubFields(name) && FieldElides(args, f, turn)
      :: Str(InputStub(f, |args[f].s|, PathOf(args), turn))
  }

  // ---- what elides ----

  /** A tool result of message i that gives way, whatever the estimate says. */
  predicate ResultElides(b: Block, i: nat, o: seq<Outline>, e: Measure)
    requires i < |o|
  {
    && b.ToolResult? && !b.isError
    && !(b.id in NamesOf(o) && NamesOf(o)[b.id] == "ask")
    && b.content.Str?
    && (PREFIX <= b.content.s ==> e.images && b.image.Some?)
    && (|ResultStub(|b.content.s|, Turns(o, i))| >= |b.content.s| ==> e.images && b.image.Some?)
  }

  function ElidedResult(b: Block, i: nat, o: seq<Outline>, e: Measure): (b': Block)
    requires i < |o| && ResultElides(b, i, o, e)
    ensures !IsSealed(b') && SlotOf(b') == SlotOf(b) && !ResultElides(b', i, o, e)
  {
    ToolResult(
      b.id, Str(ResultStub(|b.content.s|, Turns(o, i))), b.isError, if e.images then None else b.image)
  }

  /** A write or edit of message i whose input gives way, whatever the estimate says. */
  predicate InputElides(b: Block, i: nat, o: seq<Outline>)
    requires i < |o|
  {
    && b.ToolUse? && b.args.Some? && b.id !in FailedIds(o)
    && PendingStubs(b.name, b.args.value, Turns(o, i + 1)) != map[]
  }

  function ElidedInput(b: Block, i: nat, o: seq<Outline>): (b': Block)
    requires i < |o| && InputElides(b, i, o)
    ensures !IsSealed(b') && SlotOf(b') == SlotOf(b)
  {
    ToolUse(b.id, b.name, Some(b.args.value + PendingStubs(b.name, b.args.value, Turns(o, i + 1))))
  }

  /** An elided input leaves nothing to elide. */
  lemma ElidedInputIsDone(b: Block, i: nat, o: seq<Outline>)
    requires i < |o| && InputElides(b, i, o)
    ensures !InputElides(ElidedInput(b, i, o), i, o)
  {
    var turn := Turns(o, i + 1);
    var args := b.args.value;
    var stubs := PendingStubs(b.name, args, turn);
    var elided := args + stubs;
    assert PathOf(elided) == PathOf(args);
    forall f | f in StubFields(b.name) ensures !FieldElides(elided, f, turn) {
      if f in stubs { assert elided[f] == stubs[f]; } else { assert f in elided ==> elided[f] == args[f]; }
    }
    assert PendingStubs(b.name, elided, turn) == map[];
  }

  // ---- one edit ----

  /** Replace one block; the sealed thinking from its message on is then stale, and goes. */
  function EditBlock(ms: seq<Message>, i: nat, j: nat, b: Block): (r: seq<Message>)
    requires i < |ms| && j < |ms[i].content|
    ensures |r| == |ms|
  {
    DropFrom(ms[i := Message(ms[i].role, ms[i].content[j := b])], i)
  }

  /** Where the scan goes on after an edit at position j of a message. */
  function NextPosition(content: seq<Block>, j: nat): nat
    requires j < |content|
  {
    |WithoutSealed(content[..j])| + 1
  }

  lemma VisibleAlone(b: Block)
    requires !IsSealed(b)
    ensures Filter([b], Unsealed) == [b]
  {
    FilterAll([b], Unsealed);
  }

  lemma ReplacedContent(content: seq<Block>, j: nat, b: Block)
    requires j < |content| && !IsSealed(b)
    ensures WithoutSealed(content[j := b]) == WithoutSealed(content[..j]) + [b] + WithoutSealed(content[j + 1..])
  {
    hide Filter;
    hide IsSealed;
    assert content[j := b] == (content[..j] + [b]) + content[j + 1..];
    FilterConcat(content[..j] + [b], content[j + 1..], Unsealed);
    FilterConcat(content[..j], [b], Unsealed);
    VisibleAlone(b);
  }

  lemma EditedContent(ms: seq<Message>, i: nat, j: nat, b: Block)
    requires i < |ms| && j < |ms[i].content| && !IsSealed(b)
    ensures EditBlock(ms, i, j, b)[i].content
            == WithoutSealed(ms[i].content[..j]) + [b] + WithoutSealed(ms[i].content[j + 1..])
    ensures NextPosition(ms[i].content, j) <= |EditBlock(ms, i, j, b)[i].content|
    ensures |EditBlock(ms, i, j, b)[i].content| - NextPosition(ms[i].content, j) < |ms[i].content| - j
  {
    ReplacedContent(ms[i].content, j, b);
  }

  // ---- the two tiers ----

  /** A transcript and how many blocks were elided to get it. */
  datatype Scan = Scan(messages: seq<Message>, count: nat)

  predicate ResultsOpen(o: seq<Outline>, i: nat)
    requires i < |o|
  {
    o[i].role == User && i != 0 && i < ProtectedFrom(o)
  }

  predicate InputsOpen(o: seq<Outline>, i: nat)
    requires i < |o|
  {
    o[i].role == Assistant && i < ProtectedFrom(o)
  }

  function Remaining(ms: seq<Message>, i: nat, j: nat): nat
  {
    if i < |ms| && j <= |ms[i].content| then |ms[i].content| - j else 0
  }

  /** The first tier, from block j of message i on: tool results, oldest first, until the
      estimate is relieved. */
  function ElideResults(ms: seq<Message>, i: nat, j: nat, o: seq<Outline>, e: Measure): (r: Scan)
    requires |o| == |ms| && i <= |ms| && (i < |ms| ==> j <= |ms[i].content|)
    decreases |ms| - i, Remaining(ms, i, j)
  {
    if i == |ms| then Scan(ms, 0)
    else if !ResultsOpen(o, i) || j == |ms[i].content| || e.Relieved(ms) then ElideResults(ms, i + 1, 0, o, e)
    else
      var b := ms[i].content[j];
      if !ResultElides(b, i, o, e) then ElideResults(ms, i, j + 1, o, e)
      else
        EditedContent(ms, i, j, ElidedResult(b, i, o, e));
        var rest := ElideResults(
          EditBlock(ms, i, j, ElidedResult(b, i, o, e)), i, NextPosition(ms[i].content, j), o, e);
        Scan(rest.messages, rest.count + 1)
  }

  /** The second tier: the inputs of old writes and edits that did not fail. */
  function ElideInputs(ms: seq<Message>, i: nat, j: nat, o: seq<Outline>, e: Measure): (r: Scan)
    requires |o| == |ms| && i <= |ms| && (i < |ms| ==> j <= |ms[i].content|)
    decreases |ms| - i, Remaining(ms, i, j)
  {
    if i == |ms| then Scan(ms, 0)
    else if !InputsOpen(o, i) || j == |ms[i].content| then ElideInputs(ms, i + 1, 0, o, e)
    else
      var b := ms[i].content[j];
      if !InputElides(b, i, o) then ElideInputs(ms, i, j + 1, o, e)
      else if e.Relieved(ms) then Scan(ms, 0)
      else
        EditedContent(ms, i, j, ElidedInput(b, i, o));
        var rest := ElideInputs(EditBlock(ms, i, j, ElidedInput(b, i, o)), i, NextPosition(ms[i].content, j), o, e);
        Scan(rest.messages, rest.count + 1)
  }

  /** What compaction leaves, and how many results and inputs it elided. */
  datatype Compacted = Compacted(messages: seq<Message>, elided: nat, inputs: nat)

  function Compact(ms: seq<Message>, e: Measure): (r: Compacted)
  {
    if !e.Crowded(ms) then Compacted(ms, 0, 0)
    else
      var first := ElideResults(ms, 0, 0, OutlineOf(ms), e);
      SameLength(ms, 0, 0, OutlineOf(ms), e);
      var second := ElideInputs(first.messages, 0, 0, OutlineOf(first.messages), e);
      Compacted(second.messages, first.count, second.count)
  }

  lemma {:induction false} SameLength(ms: seq<Message>, i: nat, j: nat, o: seq<Outline>, e: Measure)
    requires |o| == |ms| && i <= |ms| && (i < |ms| ==> j <= |ms[i].content|)
    ensures |ElideResults(ms, i, j, o, e).messages| == |ms|
    decreases |ms| - i, Remaining(ms, i, j)
  {
    if i == |ms| {
    } else if !ResultsOpen(o, i) || j == |ms[i].content| || e.Relieved(ms) {
      SameLength(ms, i + 1, 0, o, e);
    } else if !ResultElides(ms[i].content[j], i, o, e) {
      SameLength(ms, i, j + 1, o, e);
    } else {
      var b := ElidedResult(ms[i].content[j], i, o, e);
      EditedContent(ms, i, j, b);
      SameLength(EditBlock(ms, i, j, b), i, NextPosition(ms[i].content, j), o, e);
    }
  }
}
