/** The correction budget: how often a run may ask the model to fix an answer, and which
    corrections are free. */
module Corrections {
  import opened Wrappers
  import opened SessionModel

  const GOT := ", got "

  /** The identity of one complaint: its path and rule, without the value it rejected. */
  function CodeOf(error: string): (code: string)
    ensures code <= error
    ensures code == error || GOT <= error[|code|..]
  {
    if error == "" || GOT <= error then ""
    else [error[0]] + CodeOf(error[1..])
  }

  /** Complaints about one rule have one code, whatever value broke it. */
  lemma {:induction false} CodeIgnoresValue(rule: string, value: string, other: string)
    ensures CodeOf(rule + GOT + value) == CodeOf(rule + GOT + other)
  {
    var a := rule + GOT + value;
    var b := rule + GOT + other;
    assert a[..|rule| + |GOT|] == rule + GOT == b[..|rule| + |GOT|];
    if rule == "" {
      assert GOT <= a && GOT <= b;
    } else {
      assert a[..|GOT|] == (rule + GOT)[..|GOT|] == b[..|GOT|];
      assert GOT <= a <==> a[..|GOT|] == GOT;
      assert GOT <= b <==> b[..|GOT|] == GOT;
      assert a[1..] == rule[1..] + GOT + value && b[1..] == rule[1..] + GOT + other;
      CodeIgnoresValue(rule[1..], value, other);
    }
  }

  // ---- lists without repeats ----

  ghost predicate NoRepeats(xs: seq<string>)
  {
    forall i, j :: 0 <= i < j < |xs| ==> xs[i] != xs[j]
  }

  /** Add to a list what it does not have yet, in order. */
  function Noted(seen: seq<string>, codes: seq<string>): (r: seq<string>)
    ensures seen <= r
    ensures codes != [] ==> r != []
  {
    if codes == [] then seen
    else
      var before := Noted(seen, codes[..|codes| - 1]);
      if codes[|codes| - 1] in before then before else before + [codes[|codes| - 1]]
  }

  function CodesOf(errors: seq<string>): (r: seq<string>)
    ensures |r| == |errors|
  {
    seq(|errors|, i requires 0 <= i < |errors| => CodeOf(errors[i]))
  }

  /** The distinct codes of an answer's errors, in the order they were reported. */
  function Codes(errors: seq<string>): (r: seq<string>)
    ensures errors != [] ==> r != []
  {
    Noted([], CodesOf(errors))
  }

  /** The codes of a list that another list does not have. */
  function Without(seen: seq<string>, codes: seq<string>): (r: seq<string>)
  {
    if seen == [] then []
    else
      var before := Without(seen[..|seen| - 1], codes);
      if seen[|seen| - 1] in codes then before else before + [seen[|seen| - 1]]
  }

  lemma {:induction false} NotedHas(seen: seq<string>, codes: seq<string>, x: string)
    ensures x in Noted(seen, codes) <==> x in seen || x in codes
    ensures NoRepeats(seen) ==> NoRepeats(Noted(seen, codes))
  {
    if codes != [] {
      NotedHas(seen, codes[..|codes| - 1], x);
      assert codes == codes[..|codes| - 1] + [codes[|codes| - 1]];
    }
  }

  lemma {:induction false} WithoutHas(seen: seq<string>, codes: seq<string>, x: string)
    ensures x in Without(seen, codes) <==> x in seen && x !in codes
  {
    if seen != [] {
      WithoutHas(seen[..|seen| - 1], codes, x);
      assert seen == seen[..|seen| - 1] + [seen[|seen| - 1]];
    }
  }

  lemma {:induction false} WithoutRepeats(seen: seq<string>, codes: seq<string>)
    requires NoRepeats(seen)
    ensures NoRepeats(Without(seen, codes))
  {
    if seen != [] {
      var rest, last := seen[..|seen| - 1], seen[|seen| - 1];
      WithoutRepeats(rest, codes);
      WithoutHas(rest, codes, last);
      assert last !in rest by {
        assert forall i :: 0 <= i < |rest| ==> seen[i] == rest[i] && seen[i] != last;
      }
    }
  }

  // ---- one charge ----

  /** A correction the run granted. */
  datatype Grant = Grant(
    number: nat, charged: bool, codes: seq<string>, earlier: seq<string>, limit: nat, kind: CorrectionKind)

  datatype Charged = Charged(record: CorrectionState, grant: Option<Grant>)

  /** Free: fewer distinct errors than every earlier failing answer, and a budget above one. */
  predicate IsFree(r: CorrectionState, count: nat, limit: nat, comparable: bool)
  {
    comparable && limit > 1 && r.fewest.Some? && count < r.fewest.value
  }

  function Fewer(fewest: Option<nat>, count: nat): Option<nat>
  {
    Some(if fewest.None? || count < fewest.value then count else fewest.value)
  }

  /** The record once a correction is granted. */
  function Recorded(
    r: CorrectionState, codes: seq<string>, free: bool, comparable: bool, kind: CorrectionKind): CorrectionState
  {
    CorrectionState(
      if free then r.charged else r.charged + 1,
      r.log + [LogEntry(kind, !free, codes)],
      if comparable then Noted(r.seen, codes) else r.seen,
      if comparable then Fewer(r.fewest, |codes|) else r.fewest,
      r.retried || kind == SchemaCorrection)
  }

  /** Grant a correction for a failing answer, or refuse it and leave the record alone. */
  function ChargeOf(
    r: CorrectionState, errors: seq<string>, limit: nat, comparable: bool, kind: CorrectionKind): Charged
  {
    var codes := Codes(errors);
    var free := IsFree(r, |codes|, limit, comparable);
    if !free && r.charged >= limit then Charged(r, None)
    else
      Charged(
        Recorded(r, codes, free, comparable, kind),
        Some(Grant(|r.log| + 1, !free, codes, if comparable then Without(r.seen, codes) else [], limit, kind)))
  }

  method Remember(s: Session, codes: seq<string>)
    modifies s`schemaErrorsSeen
    ensures s.schemaErrorsSeen == Noted(old(s.schemaErrorsSeen), codes)
  {
    for i := 0 to |codes|
      invariant s.schemaErrorsSeen == Noted(old(s.schemaErrorsSeen), codes[..i])
    {
      assert codes[..i + 1][..i] == codes[..i];
      if codes[i] !in s.schemaErrorsSeen { s.schemaErrorsSeen := s.schemaErrorsSeen + [codes[i]]; }
    }
    assert codes[..|codes|] == codes;
  }

  method Record(s: Session, codes: seq<string>, free: bool, comparable: bool, kind: CorrectionKind)
    modifies s
    ensures s.Snapshot() == old(s.Snapshot()).(
                              corrections := Recorded(old(s.Snapshot().corrections), codes, free, comparable, kind))
  {
    if comparable {
      var fewest := s.schemaFewestErrors;
      Remember(s, codes);
      s.schemaFewestErrors :=
        if fewest.None? then Some(|codes|) else Some(if |codes| < fewest.value then |codes| else fewest.value);
    }
    if !free { s.schemaCorrections := s.schemaCorrections + 1; }
    if kind == SchemaCorrection { s.schemaRetried := true; }
    s.schemaCorrectionLog := s.schemaCorrectionLog + [LogEntry(kind, !free, codes)];
  }

  method Charge(s: Session, errors: seq<string>, limit: nat, comparable: bool, kind: CorrectionKind)
    returns (grant: Option<Grant>)
    modifies s
    ensures s.Snapshot()
            == old(s.Snapshot()).(
                 corrections := ChargeOf(old(s.Snapshot().corrections), errors, limit, comparable, kind).record)
    ensures grant == ChargeOf(old(s.Snapshot().corrections), errors, limit, comparable, kind).grant
  {
    var codes := Codes(errors);
    var fewest := s.schemaFewestErrors;
    var free := comparable && limit > 1 && fewest.Some? && |codes| < fewest.value;
    if !free && s.schemaCorrections >= limit { return None; }
    var earlier := if comparable then Without(s.schemaErrorsSeen, codes) else [];
    Record(s, codes, free, comparable, kind);
    grant := Some(Grant(|s.schemaCorrectionLog|, !free, codes, earlier, limit, kind));
  }

  // ---- a run of charges ----

  /** A failing answer, or an answer given before the reads it must rest on. */
  datatype Complaint = Complaint(errors: seq<string>, comparable: bool, kind: CorrectionKind)

  /** The record after a run's charges, in order. */
  function AfterCharges(cs: seq<Complaint>, limit: nat): CorrectionState
  {
    if cs == [] then NO_CORRECTIONS
    else
      var c := cs[|cs| - 1];
      ChargeOf(AfterCharges(cs[..|cs| - 1], limit), c.errors, limit, c.comparable, c.kind).record
  }

  function FreeIn(log: seq<LogEntry>): nat
  {
    if log == [] then 0
    else FreeIn(log[..|log| - 1]) + if log[|log| - 1].charged then 0 else 1
  }

  /** What a run's record keeps: the charged corrections stay within the limit, the record
      agrees with the log, and free corrections need a limit above one and an earlier answer
      to improve on. */
  predicate Bounded(r: CorrectionState, limit: nat)
  {
    && r.charged <= limit
    && |r.log| == r.charged + FreeIn(r.log)
    && (limit == 1 ==> FreeIn(r.log) == 0)
    && (r.fewest.None? ==> FreeIn(r.log) == 0)
    && (r.fewest.Some? ==> r.fewest.value >= 1)
  }

  /** A charge keeps the bounds, and a free one lowers the fewest errors seen. */
  lemma ChargeKeepsBounded(r: CorrectionState, errors: seq<string>, limit: nat, comparable: bool, kind: CorrectionKind)
    requires limit >= 1 && errors != [] && Bounded(r, limit)
    ensures var r' := ChargeOf(r, errors, limit, comparable, kind).record;
            && Bounded(r', limit)
            && (FreeIn(r'.log) > FreeIn(r.log) ==>
                  && r.fewest.Some? && r'.fewest.Some?
                  && FreeIn(r'.log) + r'.fewest.value <= FreeIn(r.log) + r.fewest.value)
            && (r.fewest.Some? ==> r'.fewest.Some? && r'.fewest.value <= r.fewest.value)
  {
    hide Codes;
    hide Noted;
    hide Without;
  }

  /** How many distinct errors the first comparable answer made; none if none was comparable. */
  function FirstCount(cs: seq<Complaint>): Option<nat>
  {
    if cs == [] then None
    else if FirstCount(cs[..|cs| - 1]).Some? then FirstCount(cs[..|cs| - 1])
    else if cs[|cs| - 1].comparable then Some(|Codes(cs[|cs| - 1].errors)|)
    else None
  }

  /** Corrections cannot loop. However a run's answers fail, the charged corrections stay
      within the limit, the free ones stay below the first comparable answer's count, a limit
      of one grants no free one, and the record agrees with the log. */
  lemma {:induction false} CorrectionsAreBounded(cs: seq<Complaint>, limit: nat)
    requires limit >= 1
    requires forall i :: 0 <= i < |cs| ==> cs[i].errors != []
    ensures var r := AfterCharges(cs, limit);
            && Bounded(r, limit)
            && (FirstCount(cs).None? ==> r.fewest.None?)
            && (FirstCount(cs).Some? ==>
                  && FirstCount(cs).value >= 1
                  && (r.fewest.None? ==> r.charged == limit)
                  && (r.fewest.Some? ==> FreeIn(r.log) + r.fewest.value <= FirstCount(cs).value)
                  && FreeIn(r.log) + 1 <= FirstCount(cs).value)
  {
    if cs != [] {
      var c := cs[|cs| - 1];
      CorrectionsAreBounded(cs[..|cs| - 1], limit);
      ChargeKeepsBounded(AfterCharges(cs[..|cs| - 1], limit), c.errors, limit, c.comparable, c.kind);
    }
  }

  predicate Granted(cs: seq<Complaint>, limit: nat, i: nat)
    requires i < |cs|
  {
    ChargeOf(AfterCharges(cs[..i], limit), cs[i].errors, limit, cs[i].comparable, cs[i].kind).grant.Some?
  }

  /** Whether complaint i was granted a correction, and made this error comparably. */
  ghost predicate Made(cs: seq<Complaint>, limit: nat, i: nat, code: string)
    requires i < |cs|
  {
    Granted(cs, limit, i) && cs[i].comparable && code in Codes(cs[i].errors)
  }

  lemma SeenStep(cs: seq<Complaint>, limit: nat, code: string)
    requires cs != []
    ensures code in AfterCharges(cs, limit).seen
            <==> code in AfterCharges(cs[..|cs| - 1], limit).seen || Made(cs, limit, |cs| - 1, code)
    ensures NoRepeats(AfterCharges(cs[..|cs| - 1], limit).seen) ==> NoRepeats(AfterCharges(cs, limit).seen)
  {
    NotedHas(AfterCharges(cs[..|cs| - 1], limit).seen, Codes(cs[|cs| - 1].errors), code);
  }

  /** Some answer of the run made this error, comparably, and was granted its correction. */
  ghost predicate EverMade(cs: seq<Complaint>, limit: nat, code: string)
  {
    exists i :: 0 <= i < |cs| && Made(cs, limit, i, code)
  }

  lemma MadeEarlier(cs: seq<Complaint>, limit: nat, i: nat, code: string)
    requires i < |cs| - 1
    ensures Made(cs, limit, i, code) == Made(cs[..|cs| - 1], limit, i, code)
  {
    assert cs[..i] == cs[..|cs| - 1][..i];
  }

  lemma EverMadeStep(cs: seq<Complaint>, limit: nat, code: string)
    requires cs != []
    ensures EverMade(cs, limit, code) <==> EverMade(cs[..|cs| - 1], limit, code) || Made(cs, limit, |cs| - 1, code)
  {
    hide Made;
    if EverMade(cs, limit, code) {
      var i :| 0 <= i < |cs| && Made(cs, limit, i, code);
      if i < |cs| - 1 { MadeEarlier(cs, limit, i, code); }
    }
    if EverMade(cs[..|cs| - 1], limit, code) {
      var i :| 0 <= i < |cs| - 1 && Made(cs[..|cs| - 1], limit, i, code);
      MadeEarlier(cs, limit, i, code);
    }
  }

  /** The record names exactly the errors that granted comparable answers made. */
  lemma {:induction false} SeenIsWhatFailed(cs: seq<Complaint>, limit: nat, code: string)
    ensures NoRepeats(AfterCharges(cs, limit).seen)
    ensures code in AfterCharges(cs, limit).seen <==> EverMade(cs, limit, code)
  {
    if cs != [] {
      SeenIsWhatFailed(cs[..|cs| - 1], limit, code);
      SeenStep(cs, limit, code);
      EverMadeStep(cs, limit, code);
    }
  }

  /** A granted correction tells the model to keep exactly what an earlier granted answer got
      wrong and this one got right. */
  lemma EarlierIsWhatWasFixed(cs: seq<Complaint>, limit: nat, c: Complaint, code: string)
    requires c.comparable
    ensures var grant := ChargeOf(AfterCharges(cs, limit), c.errors, limit, true, c.kind).grant;
            grant.Some? ==>
              && NoRepeats(grant.value.earlier)
              && (code in grant.value.earlier <==> code !in Codes(c.errors) && EverMade(cs, limit, code))
  {
    SeenIsWhatFailed(cs, limit, code);
    WithoutHas(AfterCharges(cs, limit).seen, Codes(c.errors), code);
    WithoutRepeats(AfterCharges(cs, limit).seen, Codes(c.errors));
  }

  // ---- what free means ----

  ghost predicate CountedAt(cs: seq<Complaint>, limit: nat, i: nat)
    requires i < |cs|
  {
    Granted(cs, limit, i) && cs[i].comparable
  }

  /** The fewest distinct errors that a granted comparable answer of the run made. */
  ghost predicate IsFewest(cs: seq<Complaint>, limit: nat, fewest: Option<nat>)
  {
    if fewest.None? then forall i :: 0 <= i < |cs| ==> !CountedAt(cs, limit, i)
    else
      && (exists i :: 0 <= i < |cs| && CountedAt(cs, limit, i) && |Codes(cs[i].errors)| == fewest.value)
      && (forall i :: 0 <= i < |cs| && CountedAt(cs, limit, i) ==> fewest.value <= |Codes(cs[i].errors)|)
  }

  lemma CountedEarlier(cs: seq<Complaint>, limit: nat, i: nat)
    requires i < |cs| - 1
    ensures CountedAt(cs, limit, i) == CountedAt(cs[..|cs| - 1], limit, i)
  {
    assert cs[..i] == cs[..|cs| - 1][..i];
  }

  lemma FewestStep(cs: seq<Complaint>, limit: nat, was: Option<nat>)
    requires cs != [] && IsFewest(cs[..|cs| - 1], limit, was)
    ensures var n := |cs| - 1;
            IsFewest(cs, limit, if CountedAt(cs, limit, n) then Fewer(was, |Codes(cs[n].errors)|) else was)
  {
    hide CountedAt;
    hide Codes;
    var n := |cs| - 1;
    forall i | 0 <= i < n ensures CountedAt(cs, limit, i) == CountedAt(cs[..n], limit, i) && cs[i] == cs[..n][i] {
      CountedEarlier(cs, limit, i);
    }
    if was.Some? {
      var i :| 0 <= i < n && CountedAt(cs[..n], limit, i) && |Codes(cs[..n][i].errors)| == was.value;
      assert CountedAt(cs, limit, i) && cs[i] == cs[..n][i];
    }
  }

  lemma {:induction false} FewestIsLeast(cs: seq<Complaint>, limit: nat)
    ensures IsFewest(cs, limit, AfterCharges(cs, limit).fewest)
  {
    if cs != [] {
      FewestIsLeast(cs[..|cs| - 1], limit);
      FewestStep(cs, limit, AfterCharges(cs[..|cs| - 1], limit).fewest);
    }
  }

  /** A correction is free exactly when the limit is above one and the answer, comparable, has
      fewer distinct errors than every granted comparable answer before it, of which there is
      at least one; and it is refused exactly when it is not free and the limit is reached. */
  lemma FreeExactlyWhenFewer(cs: seq<Complaint>, limit: nat, c: Complaint)
    ensures var grant := ChargeOf(AfterCharges(cs, limit), c.errors, limit, c.comparable, c.kind).grant;
            var fewer := limit > 1 && c.comparable && (exists i :: 0 <= i < |cs| && CountedAt(cs, limit, i))
                         && forall i :: 0 <= i < |cs| && CountedAt(cs, limit, i) ==>
                              |Codes(c.errors)| < |Codes(cs[i].errors)|;
            && (grant.Some? && !grant.value.charged <==> fewer)
            && (grant.None? <==> !fewer && AfterCharges(cs, limit).charged >= limit)
  {
    FewestIsLeast(cs, limit);
    hide CountedAt;
    hide Codes;
    hide AfterCharges;
  }

  // ---- a charge and its grant, spelled out ----

  /** The errors of an answer, told apart by their codes. */
  function Distinct(errors: seq<string>): set<string>
  {
    set e | e in errors :: CodeOf(e)
  }

  function Listed(xs: seq<string>): set<string>
  {
    set x | x in xs
  }

  /** Fewer distinct errors than every answer before it that was JSON at all. */
  predicate Improves(r: CorrectionState, errors: seq<string>, parses: bool, limit: nat)
  {
    parses && limit > 1 && r.fewest.Some? && |Distinct(errors)| < r.fewest.value
  }

  lemma CodesHave(errors: seq<string>, x: string)
    ensures x in Codes(errors) <==> exists e :: e in errors && CodeOf(e) == x
    ensures NoRepeats(Codes(errors))
  {
    NotedHas([], CodesOf(errors), x);
    if e :| e in errors && CodeOf(e) == x {
      var i :| 0 <= i < |errors| && errors[i] == e;
      assert CodesOf(errors)[i] == x;
    }
  }

  lemma {:induction false} NoRepeatsCounted(xs: seq<string>)
    requires NoRepeats(xs)
    ensures |Listed(xs)| == |xs|
  {
    if xs != [] {
      var rest, last := xs[..|xs| - 1], xs[|xs| - 1];
      assert forall i :: 0 <= i < |rest| ==> rest[i] == xs[i];
      NoRepeatsCounted(rest);
      assert Listed(xs) == Listed(rest) + {last};
    }
  }

  /** The distinct errors of an answer are counted once each. */
  lemma {:induction false} DistinctCounted(errors: seq<string>)
    ensures |Codes(errors)| == |Distinct(errors)|
  {
    var codes := Codes(errors);
    CodesHave(errors, "");
    NoRepeatsCounted(codes);
    forall x ensures x in Listed(codes) <==> x in Distinct(errors) { CodesHave(errors, x); }
    assert Listed(codes) == Distinct(errors);
  }

  lemma CodesMean(errors: seq<string>)
    ensures NoRepeats(Codes(errors)) && Listed(Codes(errors)) == Distinct(errors)
  {
    CodesHave(errors, "");
    forall x ensures x in Listed(Codes(errors)) <==> x in Distinct(errors) { CodesHave(errors, x); }
  }

  /** A charge is refused exactly when the answer improves on nothing and the limit is reached;
      a grant says how many there were, whether it was free, and of which errors. */
  lemma ChargeMeans(r: CorrectionState, errors: seq<string>, limit: nat, parses: bool, kind: CorrectionKind)
    ensures var charge := ChargeOf(r, errors, limit, parses, kind);
            var free := Improves(r, errors, parses, limit);
            && (charge.grant.None? <==> !free && r.charged >= limit)
            && (charge.grant.Some? ==>
                  var g := charge.grant.value;
                  && g.number == |r.log| + 1 && g.charged == !free && g.limit == limit && g.kind == kind
                  && NoRepeats(g.codes) && Listed(g.codes) == Distinct(errors)
                  && charge.record.log == r.log + [LogEntry(kind, !free, g.codes)]
                  && charge.record.charged == r.charged + (if free then 0 else 1)
                  && charge.record.retried == (r.retried || kind == SchemaCorrection))
  {
    hide Noted;
    hide Without;
    hide Codes;
    CodesMean(errors);
    DistinctCounted(errors);
  }

  /** What a grant says of the errors and of the record it was made on. */
  ghost predicate IsGrant(
    g: Grant, r: CorrectionState, errors: seq<string>, parses: bool, limit: nat, kind: CorrectionKind)
  {
    && g.number == |r.log| + 1 && g.limit == limit && g.kind == kind
    && g.charged == !Improves(r, errors, parses, limit)
    && NoRepeats(g.codes) && Listed(g.codes) == Distinct(errors)
    && Listed(g.earlier) == if parses then Listed(r.seen) - Distinct(errors) else {}
  }

  lemma GrantIs(r: CorrectionState, errors: seq<string>, limit: nat, parses: bool, kind: CorrectionKind)
    ensures var charge := ChargeOf(r, errors, limit, parses, kind);
            charge.grant.Some? ==>
              && IsGrant(charge.grant.value, r, errors, parses, limit, kind)
              && charge.record.log == r.log + [LogEntry(kind, charge.grant.value.charged, charge.grant.value.codes)]
  {
    hide Codes;
    hide Without;
    hide Noted;
    ChargeMeans(r, errors, limit, parses, kind);
    var codes := Codes(errors);
    CodesMean(errors);
    forall x ensures x in Listed(Without(r.seen, codes)) <==> x in Listed(r.seen) - Listed(codes) {
      WithoutHas(r.seen, codes, x);
    }
    assert Listed(Without(r.seen, codes)) == Listed(r.seen) - Listed(codes);
  }

  // ---- the log ----

  /** How many of the complaints were granted a correction. */
  function GrantedIn(cs: seq<Complaint>, limit: nat): nat
  {
    if cs == [] then 0
    else GrantedIn(cs[..|cs| - 1], limit) + if Granted(cs, limit, |cs| - 1) then 1 else 0
  }

  lemma {:induction false} LogLength(cs: seq<Complaint>, limit: nat)
    ensures |AfterCharges(cs, limit).log| == GrantedIn(cs, limit)
  {
    if cs != [] { LogLength(cs[..|cs| - 1], limit); }
  }

  /** Complaint i, as the log has it. */
  ghost predicate IsLogged(entry: LogEntry, cs: seq<Complaint>, limit: nat, i: nat)
    requires i < |cs|
  {
    && entry.kind == cs[i].kind
    && entry.charged == !Improves(AfterCharges(cs[..i], limit), cs[i].errors, cs[i].comparable, limit)
    && NoRepeats(entry.codes) && Listed(entry.codes) == Distinct(cs[i].errors)
  }

  /** The log of a run is its granted corrections, each once and in order: what kind it was,
      whether it was charged, and the distinct errors it was for. */
  lemma {:induction false} LogIsWhatWasGranted(cs: seq<Complaint>, limit: nat, i: nat)
    requires i < |cs| && Granted(cs, limit, i)
    ensures var log := AfterCharges(cs, limit).log;
            var n := GrantedIn(cs[..i], limit);
            n < |log| == GrantedIn(cs, limit) && IsLogged(log[n], cs, limit, i)
    decreases |cs|
  {
    hide Codes;
    hide Noted;
    hide Without;
    hide Improves;
    var before := cs[..|cs| - 1];
    LogLength(cs, limit);
    LogLength(before, limit);
    if i < |cs| - 1 {
      assert before[..i] == cs[..i];
      LogIsWhatWasGranted(before, limit, i);
      LogOnlyGrows(cs, limit);
    } else {
      GrantIs(AfterCharges(before, limit), cs[i].errors, limit, cs[i].comparable, cs[i].kind);
    }
  }

  lemma LogOnlyGrows(cs: seq<Complaint>, limit: nat)
    requires cs != []
    ensures AfterCharges(cs[..|cs| - 1], limit).log <= AfterCharges(cs, limit).log
  {
  }
}
