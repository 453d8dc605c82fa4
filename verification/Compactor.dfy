/** Compaction of a live session, as the loops that edit its transcript in place. */
module Compactor {
  import opened Wrappers
  import opened Transcript
  import opened SessionModel
  import opened Compaction

  datatype Report = Report(elided: nat, inputs: nat, thinking: nat, before: real, after: real, window: nat)

  /** Remove the thinking that goes back to the model from message `start` on; returns how many
      blocks went. */
  method DropThinking(s: Session, start: nat) returns (dropped: nat)
    requires start <= |s.messages|
    modifies s`messages
    ensures s.messages == DropFrom(old(s.messages), start)
    ensures BlockCount(s.messages) + dropped == BlockCount(old(s.messages))
  {
    hide BlockCount;
    hide DropFrom;
    hide WithoutSealed;
    dropped := 0;
    ghost var goal := DropFrom(s.messages, start);
    for i := start to |s.messages|
      invariant |s.messages| == |old(s.messages)|
      invariant forall k :: 0 <= k < i ==> s.messages[k] == goal[k]
      invariant forall k :: i <= k < |s.messages| ==> s.messages[k] == old(s.messages)[k]
      invariant BlockCount(s.messages) + dropped == BlockCount(old(s.messages))
    {
      var m := s.messages[i];
      var kept := WithoutSealed(m.content);
      WithoutSealedLength(m.content);
      CountUpdated(s.messages, i, Message(m.role, kept));
      assert goal[i] == Message(m.role, kept);
      if |kept| < |m.content| {
        dropped := dropped + |m.content| - |kept|;
        s.messages := s.messages[i := Message(m.role, kept)];
      }
    }
    assert s.messages == goal;
  }

  method ReplaceBlock(s: Session, i: nat, j: nat, b: Block) returns (dropped: nat)
    requires i < |s.messages| && j < |s.messages[i].content|
    modifies s`messages
    ensures s.messages == EditBlock(old(s.messages), i, j, b)
    ensures BlockCount(s.messages) + dropped == BlockCount(old(s.messages))
  {
    hide BlockCount;
    var m := Message(s.messages[i].role, s.messages[i].content[j := b]);
    CountUpdated(s.messages, i, m);
    s.messages := s.messages[i := m];
    dropped := DropThinking(s, i);
  }

  /** The first tier over one message. */
  method ElideMessageResults(s: Session, i: nat, o: seq<Outline>, e: Measure)
    returns (elided: nat, thinking: nat)
    requires |o| == |s.messages| && i < |o| && ResultsOpen(o, i)
    modifies s`messages
    ensures |s.messages| == |o|
    ensures var all := ElideResults(old(s.messages), i, 0, o, e);
            var rest := ElideResults(s.messages, i + 1, 0, o, e);
            all == Scan(rest.messages, elided + rest.count)
    ensures BlockCount(s.messages) + thinking == BlockCount(old(s.messages))
  {
    hide BlockCount;
    elided, thinking := 0, 0;
    var j: nat := 0;
    ghost var all := ElideResults(s.messages, i, 0, o, e);
    while j < |s.messages[i].content| && !e.Relieved(s.messages)
      invariant |s.messages| == |o| && j <= |s.messages[i].content|
      invariant all.messages == ElideResults(s.messages, i, j, o, e).messages
      invariant all.count == elided + ElideResults(s.messages, i, j, o, e).count
      invariant BlockCount(s.messages) + thinking == BlockCount(old(s.messages))
      decreases |s.messages[i].content| - j
    {
      var b := s.messages[i].content[j];
      if ResultElides(b, i, o, e) {
        EditedContent(s.messages, i, j, ElidedResult(b, i, o, e));
        var next := NextPosition(s.messages[i].content, j);
        var dropped := ReplaceBlock(s, i, j, ElidedResult(b, i, o, e));
        j := next;
        elided := elided + 1;
        thinking := thinking + dropped;
      } else {
        j := j + 1;
      }
    }
  }

  method ElideAllResults(s: Session, o: seq<Outline>, e: Measure) returns (elided: nat, thinking: nat)
    requires |o| == |s.messages|
    modifies s`messages
    ensures Scan(s.messages, elided) == ElideResults(old(s.messages), 0, 0, o, e)
    ensures BlockCount(s.messages) + thinking == BlockCount(old(s.messages))
  {
    hide BlockCount;
    elided, thinking := 0, 0;
    ghost var all := ElideResults(s.messages, 0, 0, o, e);
    for i := 0 to |s.messages|
      invariant |s.messages| == |o|
      invariant all.messages == ElideResults(s.messages, i, 0, o, e).messages
      invariant all.count == elided + ElideResults(s.messages, i, 0, o, e).count
      invariant BlockCount(s.messages) + thinking == BlockCount(old(s.messages))
    {
      if ResultsOpen(o, i) {
        var more, dropped := ElideMessageResults(s, i, o, e);
        elided := elided + more;
        thinking := thinking + dropped;
      }
    }
  }

  /** The second tier over one message; stop says that the estimate was relieved. */
  method ElideMessageInputs(s: Session, i: nat, o: seq<Outline>, e: Measure)
    returns (inputs: nat, thinking: nat, stop: bool)
    requires |o| == |s.messages| && i < |o| && InputsOpen(o, i)
    modifies s`messages
    ensures |s.messages| == |o|
    ensures var all := ElideInputs(old(s.messages), i, 0, o, e);
            if stop then all == Scan(s.messages, inputs)
            else all == Scan(
              ElideInputs(s.messages, i + 1, 0, o, e).messages, inputs + ElideInputs(s.messages, i + 1, 0, o, e).count)
    ensures BlockCount(s.messages) + thinking == BlockCount(old(s.messages))
  {
    hide BlockCount;
    inputs, thinking := 0, 0;
    var j: nat := 0;
    ghost var all := ElideInputs(s.messages, i, 0, o, e);
    while j < |s.messages[i].content|
      invariant |s.messages| == |o| && j <= |s.messages[i].content|
      invariant all.messages == ElideInputs(s.messages, i, j, o, e).messages
      invariant all.count == inputs + ElideInputs(s.messages, i, j, o, e).count
      invariant BlockCount(s.messages) + thinking == BlockCount(old(s.messages))
      decreases |s.messages[i].content| - j
    {
      var b := s.messages[i].content[j];
      if InputElides(b, i, o) {
        if e.Relieved(s.messages) {
          return inputs, thinking, true;
        }
        EditedContent(s.messages, i, j, ElidedInput(b, i, o));
        var next := NextPosition(s.messages[i].content, j);
        var dropped := ReplaceBlock(s, i, j, ElidedInput(b, i, o));
        j := next;
        inputs := inputs + 1;
        thinking := thinking + dropped;
      } else {
        j := j + 1;
      }
    }
    stop := false;
  }

  method ElideAllInputs(s: Session, o: seq<Outline>, e: Measure) returns (inputs: nat, thinking: nat)
    requires |o| == |s.messages|
    modifies s`messages
    ensures Scan(s.messages, inputs) == ElideInputs(old(s.messages), 0, 0, o, e)
    ensures BlockCount(s.messages) + thinking == BlockCount(old(s.messages))
  {
    hide BlockCount;
    inputs, thinking := 0, 0;
    ghost var all := ElideInputs(s.messages, 0, 0, o, e);
    for i := 0 to |s.messages|
      invariant |s.messages| == |o|
      invariant all.messages == ElideInputs(s.messages, i, 0, o, e).messages
      invariant all.count == inputs + ElideInputs(s.messages, i, 0, o, e).count
      invariant BlockCount(s.messages) + thinking == BlockCount(old(s.messages))
    {
      if InputsOpen(o, i) {
        var more, dropped, stop := ElideMessageInputs(s, i, o, e);
        inputs := inputs + more;
        thinking := thinking + dropped;
        if stop {
          return;
        }
      }
    }
  }

  /** Compact the session, and report what went, if anything was elided: the blocks that are
      gone are exactly the thinking dropped. */
  method CompactSession(s: Session, e: Measure) returns (report: Option<Report>)
    modifies s`messages
    ensures s.messages == Compact(old(s.messages), e).messages
    ensures var r := Compact(old(s.messages), e);
            && (report.None? <==> r.elided + r.inputs == 0)
            && (report.Some? ==>
                  && report.value.elided == r.elided && report.value.inputs == r.inputs
                  && BlockCount(s.messages) + report.value.thinking == BlockCount(old(s.messages))
                  && report.value.before == e.estimate(old(s.messages))
                  && report.value.after == e.estimate(s.messages)
                  && report.value.window == e.window)
  {
    hide BlockCount;
    var before := e.estimate(s.messages);
    if !e.Crowded(s.messages) { return None; }
    SameLength(s.messages, 0, 0, OutlineOf(s.messages), e);
    var elided, thinking := ElideAllResults(s, OutlineOf(s.messages), e);
    var inputs, dropped := ElideAllInputs(s, OutlineOf(s.messages), e);
    if elided + inputs == 0 { return None; }
    report := Some(Report(elided, inputs, thinking + dropped, before, e.estimate(s.messages), e.window));
  }
}
