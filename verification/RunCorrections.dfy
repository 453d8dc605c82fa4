/** Corrections over a whole run: its record is the one its turns' complaints leave. */
module RunCorrections {
  import opened Wrappers
  import opened SessionModel
  import opened Compaction
  import opened Corrections
  import opened AgentTurn
  import opened TurnLaws
  import opened AgentRun
  import opened RunLaws

  // ---- what a turn complains of ----

  function ReadsComplaint(gaps: seq<string>): Option<Complaint>
  {
    if gaps == [] then None else Some(Complaint(gaps, false, ReadsCorrection))
  }

  /** What the schema, then the caller's check, then the reads hold against an answer. */
  function SchemaComplaint(text: string, verdict: Verdict, t: Turn, c: Config): Option<Complaint>
  {
    if verdict.Broken? then None
    else if verdict.errors != [] then Some(Complaint(verdict.errors, verdict.parses, SchemaCorrection))
    else if !verdict.parses then None
    else if c.hasCheck && t.check(text).Broken? then None
    else if c.hasCheck && t.check(text).errors != [] then Some(Complaint(t.check(text).errors, true, SchemaCorrection))
    else ReadsComplaint(t.gaps)
  }

  /** What is held against a reply without calls: an answer has to be finished to be judged. */
  function AnswerComplaint(s: State, reply: Reply, t: Turn, c: Config, summary: bool): Option<Complaint>
  {
    var text := FinalText(reply.content);
    if IsUnfinished(reply.stop) || (text == "" && HasThinking(reply.content)) then None
    else if c.schema.None? then if Nudges(s, text, c, summary) then None else ReadsComplaint(t.gaps)
    else if summary then None
    else SchemaComplaint(text, c.schema.value(text), t, c)
  }

  function ReplyComplaint(s: State, reply: Reply, t: Turn, c: Config, summary: bool): Option<Complaint>
  {
    if ScreenBreaks(reply, c) || CallsIn(reply.content) != [] then None
    else AnswerComplaint(KeptReply(s, reply, false), reply, t, c, summary)
  }

  function TurnComplaint(o: Opening, c: Config, window: nat): Option<Complaint>
  {
    var e := MeasureOf(c, o.turn, window);
    var reply := ReplyIn(o.state, o.turn, c, e);
    if reply.None? then None else ReplyComplaint(Ready(o.state, o.turn, c, e), reply.value, o.turn, c, o.summary)
  }

  /** The complaints of these turns, in order. */
  function Complaints(openings: seq<Opening>, c: Config, window: nat): seq<Complaint>
  {
    if openings == [] then []
    else
      (if TurnComplaint(openings[0], c, window).Some? then [TurnComplaint(openings[0], c, window).value] else [])
      + Complaints(openings[1..], c, window)
  }

  // ---- a turn charges its complaint ----

  /** Records that differ at most in the mark that a read owed resets. */
  predicate SameRecord(r: CorrectionState, r': CorrectionState)
  {
    r.(retried := false) == r'.(retried := false)
  }

  function RecordAfter(r: CorrectionState, x: Option<Complaint>, limit: nat): CorrectionState
  {
    if x.None? then r else ChargeOf(r, x.value.errors, limit, x.value.comparable, x.value.kind).record
  }

  lemma RecordAfterIgnoresMark(r: CorrectionState, r': CorrectionState, x: Option<Complaint>, limit: nat)
    requires SameRecord(r, r')
    ensures SameRecord(RecordAfter(r, x, limit), RecordAfter(r', x, limit))
  {
    hide Codes;
    hide Noted;
  }

  lemma AcceptedCharges(s: State, gaps: seq<string>, c: Config)
    ensures SameRecord(
              Accepted(s, gaps, c).corrections, RecordAfter(s.corrections, ReadsComplaint(gaps), c.maxCorrections))
  {
    hide ChargeOf;
    hide Appended;
    RecordAfterIgnoresMark(s.corrections.(retried := false), s.corrections, ReadsComplaint(gaps), c.maxCorrections);
  }

  lemma SchemaAnswerCharges(s: State, text: string, verdict: Verdict, t: Turn, c: Config)
    ensures SameRecord(
              SchemaAnswer(s, text, verdict, t, c).state.corrections,
              RecordAfter(s.corrections, SchemaComplaint(text, verdict, t, c), c.maxCorrections))
  {
    hide ChargeOf;
    hide Accepted;
    hide ReadsComplaint;
    hide Appended;
    AcceptedCharges(s, t.gaps, c);
  }

  lemma AnswerCharges(s: State, reply: Reply, corrected: bool, t: Turn, c: Config, summary: bool)
    ensures SameRecord(
              AnswerOf(s, reply, corrected, t, c, summary).state.corrections,
              RecordAfter(s.corrections, AnswerComplaint(s, reply, t, c, summary), c.maxCorrections))
  {
    hide ChargeOf;
    hide Accepted;
    hide SchemaAnswer;
    hide ReadsComplaint;
    hide SchemaComplaint;
    hide Appended;
    hide Nudges;
    hide FinalText;
    AcceptedCharges(s, t.gaps, c);
    if c.schema.Some? {
      SchemaAnswerCharges(s, FinalText(reply.content), c.schema.value(FinalText(reply.content)), t, c);
    }
  }

  lemma CallsChargeNothing(s: State, l: Limits, reply: Reply, corrected: bool, t: Turn, c: Config, summary: bool)
    ensures CallsOf(s, l, reply, corrected, t, c, summary).state.corrections == s.corrections
  {
    hide BatchOf;
    hide ResultsOf;
    hide Appended;
  }

  /** Whether it counts as a corrected cut-off changes nothing that a complaint depends on. */
  lemma ComplaintOfKept(s: State, reply: Reply, corrected: bool, t: Turn, c: Config, summary: bool)
    requires corrected ==> IsUnfinished(reply.stop)
    ensures var kept := KeptReply(s, reply, corrected).(stop := Some(Ended(reply.stop)));
            && kept.corrections == s.corrections
            && AnswerComplaint(kept, reply, t, c, summary)
               == AnswerComplaint(KeptReply(s, reply, false), reply, t, c, summary)
  {
    hide WroteAFile;
    hide FinalText;
    hide SchemaComplaint;
  }

  lemma ReplyCharges(s: State, l: Limits, reply: Reply, t: Turn, c: Config, summary: bool)
    ensures SameRecord(
              ReplyOf(s, l, reply, t, c, summary).state.corrections,
              RecordAfter(s.corrections, ReplyComplaint(s, reply, t, c, summary), c.maxCorrections))
  {
    hide AnswerOf;
    hide CallsOf;
    hide AnswerComplaint;
    hide KeptReply;
    hide RecordAfter;
    hide ScreenBreaks;
    var corrected := IsCorrected(l, reply.stop);
    var kept := KeptReply(s, reply, corrected).(stop := Some(Ended(reply.stop)));
    ComplaintOfKept(s, reply, corrected, t, c, summary);
    if ScreenBreaks(reply, c) {
      NothingCharged(s, reply, corrected, c.maxCorrections);
    } else if CallsIn(reply.content) == [] {
      AnswerCharges(kept, reply, corrected, t, c, summary);
    } else {
      CallsChargeNothing(kept, CountCutoff(l, reply.stop), reply, corrected, t, c, summary);
      NothingCharged(s, reply, corrected, c.maxCorrections);
    }
  }

  lemma NothingCharged(s: State, reply: Reply, corrected: bool, limit: nat)
    ensures RecordAfter(s.corrections, None, limit) == s.corrections
    ensures KeptReply(s, reply, corrected).corrections == s.corrections
  {
  }

  lemma TurnCharges(s: State, l: Limits, t: Turn, c: Config, e: Measure, summary: bool)
    ensures var reply := ReplyIn(s, t, c, e);
            var x := if reply.None? then None else ReplyComplaint(Ready(s, t, c, e), reply.value, t, c, summary);
            SameRecord(
              StepOf(s, l, t, c, e, summary).state.corrections, RecordAfter(s.corrections, x, c.maxCorrections))
  {
    hide StepOf;
    hide ReplyOf;
    hide Ready;
    hide ReplyIn;
    hide ReplyComplaint;
    StepSplits(s, l, t, c, e, summary);
    ReadyKeeps(s, t, c, e);
    if ReplyIn(s, t, c, e).Some? { ReplyCharges(Ready(s, t, c, e), l, ReplyIn(s, t, c, e).value, t, c, summary); }
  }

  // ---- a run charges its complaints ----

  lemma PassCharges(s: State, l: Limits, t: Turn, from: nat, c: Config, window: nat, before: seq<Complaint>)
    requires s.status == Working && SameRecord(s.corrections, AfterCharges(before, c.maxCorrections))
    ensures var p := PassOf(s, l, t, from, c, window);
            var cs := Complaints(Started(p.opening), c, window);
            SameRecord(p.state.corrections, AfterCharges(before + cs, c.maxCorrections))
  {
    hide StepOf;
    hide Inboxed;
    hide Warned;
    hide TurnComplaint;
    hide ChargeOf;
    var opening := OpeningOf(s, l, t, from, c);
    if opening.None? {
      assert before + [] == before;
    } else {
      var o := opening.value;
      var x := TurnComplaint(o, c, window);
      TurnChargesOpening(o, l, c, window);
      RecordAfterIgnoresMark(s.corrections, AfterCharges(before, c.maxCorrections), x, c.maxCorrections);
      assert Complaints([o], c, window) == if x.Some? then [x.value] else [];
      if x.Some? { assert (before + [x.value])[..|before|] == before; } else { assert before + [] == before; }
    }
  }

  lemma TurnChargesOpening(o: Opening, l: Limits, c: Config, window: nat)
    ensures SameRecord(
              StepOf(o.state, l, o.turn, c, MeasureOf(c, o.turn, window), o.summary).state.corrections,
              RecordAfter(o.state.corrections, TurnComplaint(o, c, window), c.maxCorrections))
  {
    hide StepOf;
    hide Ready;
    hide ReplyIn;
    hide ReplyComplaint;
    TurnCharges(o.state, l, o.turn, c, MeasureOf(c, o.turn, window), o.summary);
  }

  lemma {:induction false} ComplaintsJoin(a: seq<Opening>, b: seq<Opening>, c: Config, window: nat)
    ensures Complaints(a + b, c, window) == Complaints(a, c, window) + Complaints(b, c, window)
  {
    hide TurnComplaint;
    if a == [] {
      assert a + b == b;
    } else {
      assert (a + b)[0] == a[0] && (a + b)[1..] == a[1..] + b;
      ComplaintsJoin(a[1..], b, c, window);
    }
  }

  lemma {:induction false} TurnsCharge(
    s: State, l: Limits, n: nat, from: nat, c: Config, window: nat, turns: nat -> Turn, before: seq<Complaint>)
    requires SameRecord(s.corrections, AfterCharges(before, c.maxCorrections))
    ensures var f := TurnsFrom(s, l, n, from, c, window, turns);
            SameRecord(
              f.state.corrections, AfterCharges(before + Complaints(f.openings, c, window), c.maxCorrections))
    decreases Left(s, from, c)
  {
    hide PassOf;
    hide SameRecord;
    hide AfterCharges;
    if s.status == Working {
      var p := PassOf(s, l, turns(n), from, c, window);
      var cs := Complaints(Started(p.opening), c, window);
      PassCharges(s, l, turns(n), from, c, window, before);
      LeftFalls(s, l, turns(n), from, c, window);
      if p.ending != Cancelled {
        TurnsCharge(p.state, p.limits, n + 1, from, c, window, turns, before + cs);
        var rest := TurnsFrom(p.state, p.limits, n + 1, from, c, window, turns).openings;
        ComplaintsJoin(Started(p.opening), rest, c, window);
        assert before + (cs + Complaints(rest, c, window)) == before + cs + Complaints(rest, c, window);
      }
    } else {
      assert before + [] == before;
    }
  }

  lemma {:induction false} ComplaintsSayWhat(openings: seq<Opening>, c: Config, window: nat)
    ensures forall i :: 0 <= i < |Complaints(openings, c, window)| ==> Complaints(openings, c, window)[i].errors != []
  {
    hide Ready;
    hide ReplyIn;
    hide Nudges;
    hide FinalText;
    if openings != [] { ComplaintsSayWhat(openings[1..], c, window); }
  }

  /** What bounds the corrections of a run with these complaints: the charged ones stay within
      the limit, and the free ones below the first comparable complaint's count of errors. */
  predicate CorrectedWithin(r: CorrectionState, cs: seq<Complaint>, limit: nat)
  {
    && Bounded(r, limit)
    && (FirstCount(cs).None? ==> FreeIn(r.log) == 0)
    && (FirstCount(cs).Some? ==> FreeIn(r.log) + 1 <= FirstCount(cs).value)
  }

  /** A resumed run's correction record is the one its turns' complaints leave, charged in
      order; so it never loops: charged and free corrections are both bounded, whatever the
      model answers. */
  lemma RunCorrects(s: State, text: Option<string>, c: Config, w: World)
    requires w.discovered.Known?
    ensures var f := RunOf(Reopened(s, text), c, w);
            var cs := Complaints(f.openings, c, WindowOf(c, w.discovered));
            && SameRecord(f.state.corrections, AfterCharges(cs, c.maxCorrections))
            && (c.maxCorrections >= 1 ==> CorrectedWithin(f.state.corrections, cs, c.maxCorrections))
  {
    hide TurnsFrom;
    hide TurnComplaint;
    var resumed := Reopened(s, text);
    var window := WindowOf(c, w.discovered);
    var f := RunOf(resumed, c, w);
    if !c.budget.Exhausted(resumed.usage) {
      var ready := Prepared(resumed, w);
      TurnsCharge(ready, FreshLimits(c), 0, ready.turns, c, window, w.turns, []);
    }
    var cs := Complaints(f.openings, c, window);
    assert [] + cs == cs;
    ComplaintsSayWhat(f.openings, c, window);
    if c.maxCorrections >= 1 { CorrectionsAreBounded(cs, c.maxCorrections); }
  }
}
