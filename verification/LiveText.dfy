/** Redaction of text as it streams: where the stream is cut, and why the key rules do not
    notice. */
module LiveText {
  import opened Wrappers
  import opened KeyRules

  // ---- where the stream is cut ----

  /** A run of name characters. */
  datatype Run = Run(start: nat, end: nat)

  /** The credential rule, as far as the cut depends on it: which characters make a name, which
      names are credentials, where the value after a name ends, and what may still grow into
      one. */
  datatype CredentialRule = CredentialRule(
    space: Space, inName: char -> bool, isName: string -> bool,
    valueEnd: (string, nat) -> Option<nat>, mayGrow: string -> bool, redact: string -> string)

  function RunEnd(text: string, i: nat, c: CredentialRule): (e: nat)
    requires i <= |text|
    ensures i <= e <= |text|
    decreases |text| - i
  {
    if i < |text| && c.inName(text[i]) then RunEnd(text, i + 1, c) else i
  }

  /** The runs of name characters, left to right. */
  function RunsFrom(text: string, i: nat, c: CredentialRule): (r: seq<Run>)
    requires i <= |text|
    ensures forall k :: 0 <= k < |r| ==> r[k].start < r[k].end <= |text|
    decreases |text| - i
  {
    if i == |text| then []
    else if c.inName(text[i]) then [Run(i, RunEnd(text, i + 1, c))] + RunsFrom(text, RunEnd(text, i + 1, c), c)
    else RunsFrom(text, i + 1, c)
  }

  function Runs(text: string, c: CredentialRule): (r: seq<Run>)
    ensures forall k :: 0 <= k < |r| ==> r[k].start < r[k].end <= |text|
  {
    RunsFrom(text, 0, c)
  }

  /** A longest run of name characters. */
  predicate IsRun(text: string, r: Run, c: CredentialRule)
  {
    && r.start < r.end <= |text|
    && (forall i :: r.start <= i < r.end ==> c.inName(text[i]))
    && (r.start == 0 || !c.inName(text[r.start - 1]))
    && (r.end == |text| || !c.inName(text[r.end]))
  }

  lemma {:induction false} RunEndIsFirst(text: string, i: nat, c: CredentialRule)
    requires i <= |text|
    ensures var e := RunEnd(text, i, c);
            && (forall k :: i <= k < e ==> c.inName(text[k]))
            && (e == |text| || !c.inName(text[e]))
    decreases |text| - i
  {
    if i < |text| && c.inName(text[i]) { RunEndIsFirst(text, i + 1, c); }
  }

  lemma RunHere(text: string, i: nat, e: nat, c: CredentialRule, r: Run)
    requires i < e <= |text| && forall k :: i <= k < e ==> c.inName(text[k])
    requires (i == 0 || !c.inName(text[i - 1])) && (e == |text| || !c.inName(text[e]))
    ensures IsRun(text, Run(i, e), c)
    ensures IsRun(text, r, c) && r.start >= i ==> r == Run(i, e) || r.start >= e
  {
    if IsRun(text, r, c) && i <= r.start < e {
      assert r.start > 0 ==> !c.inName(text[r.start - 1]);
      assert r.end < |text| ==> !c.inName(text[r.end]);
    }
  }

  lemma {:induction false} RunsFromAreMaximal(text: string, i: nat, c: CredentialRule, r: Run)
    requires i <= |text| && (i == 0 || i == |text| || !c.inName(text[i - 1]) || !c.inName(text[i]))
    ensures r in RunsFrom(text, i, c) <==> IsRun(text, r, c) && r.start >= i
    decreases |text| - i
  {
    if i < |text| {
      if c.inName(text[i]) {
        var e := RunEnd(text, i + 1, c);
        RunEndIsFirst(text, i + 1, c);
        RunHere(text, i, e, c, r);
        RunsFromAreMaximal(text, e, c, r);
        hide IsRun;
        assert r in RunsFrom(text, i, c) <==> r == Run(i, e) || r in RunsFrom(text, e, c);
      } else {
        RunsFromAreMaximal(text, i + 1, c, r);
        assert IsRun(text, r, c) ==> r.start != i;
      }
    }
  }

  /** The scan finds exactly the longest runs of name characters. */
  lemma RunsAreMaximal(text: string, c: CredentialRule, r: Run)
    ensures r in Runs(text, c) <==> IsRun(text, r, c)
  {
    RunsFromAreMaximal(text, 0, c, r);
  }

  /** The start of the token that holds a position. */
  method TokenStart(text: string, from: nat, c: CredentialRule) returns (pos: nat)
    requires from <= |text|
    ensures pos <= from && EndsToken(text[..pos], c.space)
    ensures forall k :: pos <= k < from ==> !c.space(text[k])
  {
    pos := from;
    while pos > 0 && !c.space(text[pos - 1])
      invariant pos <= from && forall k :: pos <= k < from ==> !c.space(text[k])
    {
      pos := pos - 1;
    }
  }

  /** A credential name before the cut whose value reaches it. */
  predicate ReachesCut(text: string, cut: nat, run: Run, c: CredentialRule)
    requires run.start < run.end <= cut <= |text|
  {
    && c.isName(text[run.start..run.end])
    && c.valueEnd(text, run.end).Some? && c.valueEnd(text, run.end).value >= cut
  }

  predicate NoneReaches(text: string, cut: nat, c: CredentialRule)
    requires cut <= |text|
  {
    var runs := Runs(text[..cut], c);
    forall k :: 0 <= k < |runs| ==> !ReachesCut(text, cut, runs[k], c)
  }

  ghost predicate NamesHoldNoSpace(c: CredentialRule)
  {
    forall ch :: c.inName(ch) ==> !c.space(ch)
  }

  /** The greatest start of a token, up to a position, that no credential name before it
      reaches with its value. */
  ghost predicate IsCut(text: string, from: nat, cut: nat, c: CredentialRule)
  {
    && cut <= from <= |text| && EndsToken(text[..cut], c.space) && NoneReaches(text, cut, c)
    && forall n :: cut < n <= from && EndsToken(text[..n], c.space) ==> !NoneReaches(text, n, c)
  }

  /** No cut can fall between the token of a name and the end of its value. */
  lemma NameIsCutWhole(text: string, cut: nat, run: Run, pos: nat, n: nat, c: CredentialRule)
    requires NamesHoldNoSpace(c) && cut <= |text| && run in Runs(text[..cut], c) && ReachesCut(text, cut, run, c)
    requires pos <= run.start && forall k :: pos <= k < run.start ==> !c.space(text[k])
    requires pos < n <= cut && EndsToken(text[..n], c.space)
    ensures !NoneReaches(text, n, c)
  {
    RunsAreMaximal(text[..cut], c, run);
    forall k | run.start <= k < run.end ensures !c.space(text[k]) { assert c.inName(text[..cut][k]); }
    assert c.space(text[n - 1]) && n - 1 >= run.end;
    forall k | run.start <= k < run.end ensures c.inName(text[..n][k]) { assert c.inName(text[..cut][k]); }
    assert run.start > 0 ==> text[..n][run.start - 1] == text[..cut][run.start - 1];
    assert text[..n][run.end] == text[..cut][run.end];
    assert IsRun(text[..n], run, c);
    RunsAreMaximal(text[..n], c, run);
    assert ReachesCut(text, n, run, c);
  }

  /** Back the cut up over every credential name whose value reaches it, and no further: where
      names hold no space, it ends at the greatest start of a token that no name reaches. */
  method CutBeforeOpenName(text: string, from: nat, c: CredentialRule) returns (cut: nat)
    requires from <= |text| && EndsToken(text[..from], c.space)
    ensures cut <= from && EndsToken(text[..cut], c.space)
    ensures NoneReaches(text, cut, c)
    ensures NamesHoldNoSpace(c) ==> IsCut(text, from, cut, c)
  {
    hide NoneReaches;
    hide ReachesCut;
    hide NamesHoldNoSpace;
    hide EndsToken;
    cut := from;
    var moved := true;
    while moved
      invariant cut <= from && EndsToken(text[..cut], c.space)
      invariant !moved ==> NoneReaches(text, cut, c)
      invariant NamesHoldNoSpace(c) ==>
                  forall n :: cut < n <= from && EndsToken(text[..n], c.space) ==> !NoneReaches(text, n, c)
      decreases cut, moved
    {
      moved := false;
      var runs := Runs(text[..cut], c);
      for k := 0 to |runs|
        invariant forall j :: 0 <= j < k ==> !ReachesCut(text, cut, runs[j], c)
      {
        if ReachesCut(text, cut, runs[k], c) {
          var pos := TokenStart(text, runs[k].start, c);
          forall n | NamesHoldNoSpace(c) && pos < n <= cut && EndsToken(text[..n], c.space)
            ensures !NoneReaches(text, n, c)
          {
            NameIsCutWhole(text, cut, runs[k], pos, n, c);
          }
          cut := pos;
          moved := true;
          break;
        }
      }
      if !moved { NoneFound(text, cut, runs, c); }
    }
  }

  lemma NoneFound(text: string, cut: nat, runs: seq<Run>, c: CredentialRule)
    requires cut <= |text| && runs == Runs(text[..cut], c)
    requires forall j :: 0 <= j < |runs| ==> !ReachesCut(text, cut, runs[j], c)
    ensures NoneReaches(text, cut, c)
  {
  }

  class LiveText {
    const c: CredentialRule
    var pending: string
    /** What was fed, and the pieces it was cut into. */
    ghost var fed: string
    ghost var pieces: seq<string>

    ghost predicate Valid()
      reads this
    {
      Concat(pieces) + pending == fed && AllEndTokens(pieces, c.space)
    }

    constructor (c: CredentialRule)
      ensures Valid() && this.c == c && pending == "" && fed == "" && pieces == []
    {
      this.c := c;
      pending, fed, pieces := "", "", [];
    }

    /** Give out what can no longer change, redacted, and keep the rest. */
    method Feed(text: string) returns (output: string, ghost piece: Option<string>)
      requires Valid()
      modifies this
      ensures Valid() && fed == old(fed) + text
      ensures pieces == old(pieces) + if piece.Some? then [piece.value] else []
      ensures output == if piece.Some? then c.redact(RewriteAll(piece.value, KEY_RULES)) else ""
      ensures var whole := old(pending) + text;
              var end := SpaceEnd(whole, c.space);
              && (piece.None? <==> end == 0)
              && (piece.Some? ==> piece.value <= whole[..end] && IsBoundary(whole[..end], |piece.value|, c))
      ensures piece.Some? ==> Clean(RewriteAll(piece.value, KEY_RULES))
    {
      hide Clean;
      hide IsBoundary;
      pending := pending + text;
      fed := fed + text;
      assert Concat(pieces) + pending == fed;
      var boundary := LastSpace(pending, c);
      if boundary == 0 { return "", None; }
      var cut := Boundary(pending[..boundary], c);
      piece := Some(pending[..cut]);
      assert pending[..boundary][..cut] == piece.value;
      output := c.redact(RewriteAll(pending[..cut], KEY_RULES));
      KeysAreTakenOut(pending[..cut]);
      CutOff(pieces, pending, cut);
      pieces := pieces + [piece.value];
      pending := pending[cut..];
    }

    /** Give out the rest: the stream is over, and its pieces make up the whole of it. What the
        key rules made of them is what they make of the whole. */
    method Finish() returns (output: string)
      requires Valid()
      modifies this
      ensures SpacesApart(c.space) ==>
                Concat(Rewritten(old(pieces), KEY_RULES)) + RewriteAll(old(pending), KEY_RULES)
                == RewriteAll(fed, KEY_RULES)
      ensures Clean(RewriteAll(old(pending), KEY_RULES)) && Clean(RewriteAll(fed, KEY_RULES))
      ensures fed == old(fed) && pending == "" && Concat(old(pieces)) + old(pending) == fed
      ensures output == c.redact(RewriteAll(old(pending), KEY_RULES))
    {
      hide Clean;
      KeysAreTakenOut(pending);
      KeysAreTakenOut(fed);
      if SpacesApart(c.space) {
        KeysHoldNoSpace(c.space);
        StreamIsBatch(pieces, pending, KEY_RULES, c.space);
      }
      output := c.redact(RewriteAll(pending, KEY_RULES));
      pending := "";
      pieces := pieces + [old(pending)];
    }
  }

  lemma CutOff(pieces: seq<string>, pending: string, cut: nat)
    requires cut <= |pending|
    ensures Concat(pieces + [pending[..cut]]) + pending[cut..] == Concat(pieces) + pending
  {
  }

  /** The end of the last space, 0 if there is none. */
  function SpaceEnd(text: string, space: Space): (n: nat)
    ensures n <= |text| && EndsToken(text[..n], space)
    ensures forall k :: n <= k < |text| ==> !space(text[k])
  {
    if EndsToken(text, space) then
      assert text[..|text|] == text;
      |text|
    else
      var rest := text[..|text| - 1];
      assert text[..SpaceEnd(rest, space)] == rest[..SpaceEnd(rest, space)];
      SpaceEnd(rest, space)
  }

  method LastSpace(text: string, c: CredentialRule) returns (n: nat)
    ensures n == SpaceEnd(text, c.space)
  {
    n := TokenStart(text, |text|, c);
    var m := SpaceEnd(text, c.space);
    assert n > 0 ==> c.space(text[n - 1]);
    assert m > 0 ==> c.space(text[..m][m - 1]);
  }

  /** Where the last value that ended is known to end, after the first k runs. A name inside a
      value belongs to that value. */
  function ValuesEnd(text: string, runs: seq<Run>, k: nat, c: CredentialRule): nat
    requires k <= |runs| && forall j :: 0 <= j < |runs| ==> runs[j].start < runs[j].end <= |text|
  {
    if k == 0 then 0
    else
      var before := ValuesEnd(text, runs, k - 1, c);
      var run := runs[k - 1];
      if run.start >= before && c.isName(text[run.start..run.end]) && c.valueEnd(text, run.end).Some? then
        c.valueEnd(text, run.end).value
      else before
  }

  /** Run k is a credential name that may still get its value. */
  predicate IsOpen(text: string, runs: seq<Run>, k: nat, c: CredentialRule)
    requires k < |runs| && forall j :: 0 <= j < |runs| ==> runs[j].start < runs[j].end <= |text|
  {
    && runs[k].start >= ValuesEnd(text, runs, k, c)
    && c.isName(text[runs[k].start..runs[k].end]) && c.mayGrow(text[runs[k].end..])
  }

  /** A value ends no earlier than the name before it. */
  ghost predicate ValuesFollow(c: CredentialRule)
  {
    forall text, at :: c.valueEnd(text, at).Some? ==> c.valueEnd(text, at).value >= at
  }

  /** Run k is a credential name with a value, in no value of a name before it. */
  ghost predicate Owns(text: string, runs: seq<Run>, k: nat, c: CredentialRule)
    requires k < |runs| && forall j :: 0 <= j < |runs| ==> runs[j].start < runs[j].end <= |text|
    decreases k
  {
    && c.isName(text[runs[k].start..runs[k].end]) && c.valueEnd(text, runs[k].end).Some?
    && forall j :: 0 <= j < k && Owns(text, runs, j, c) ==> c.valueEnd(text, runs[j].end).value <= runs[k].start
  }

  /** No name before run k has a value that reaches past this position. */
  ghost predicate ClearOf(text: string, runs: seq<Run>, k: nat, at: nat, c: CredentialRule)
    requires k <= |runs| && forall j :: 0 <= j < |runs| ==> runs[j].start < runs[j].end <= |text|
  {
    forall j :: 0 <= j < k && Owns(text, runs, j, c) ==> c.valueEnd(text, runs[j].end).value <= at
  }

  lemma {:induction false} ValuesEndMeans(text: string, runs: seq<Run>, k: nat, at: nat, c: CredentialRule)
    requires k <= |runs| && forall j :: 0 <= j < |runs| ==> runs[j].start < runs[j].end <= |text|
    requires ValuesFollow(c)
    ensures ValuesEnd(text, runs, k, c) <= at <==> ClearOf(text, runs, k, at, c)
    decreases k
  {
    if k > 0 {
      var run := runs[k - 1];
      ValuesEndMeans(text, runs, k - 1, at, c);
      ValuesEndMeans(text, runs, k - 1, run.start, c);
      if Owns(text, runs, k - 1, c) && ClearOf(text, runs, k, at, c) {
        assert c.valueEnd(text, run.end).value <= at;
      }
    }
  }

  /** A name may still get its value exactly when it ends what may grow into one, and lies in no
      value of a credential name before it. */
  lemma OpenMeans(text: string, runs: seq<Run>, k: nat, c: CredentialRule)
    requires k < |runs| && forall j :: 0 <= j < |runs| ==> runs[j].start < runs[j].end <= |text|
    requires ValuesFollow(c)
    ensures IsOpen(text, runs, k, c)
            <==> && c.isName(text[runs[k].start..runs[k].end]) && c.mayGrow(text[runs[k].end..])
                 && ClearOf(text, runs, k, runs[k].start, c)
  {
    ValuesEndMeans(text, runs, k, runs[k].start, c);
  }

  predicate FirstOpen(text: string, runs: seq<Run>, k: nat, c: CredentialRule)
    requires k < |runs| && forall j :: 0 <= j < |runs| ==> runs[j].start < runs[j].end <= |text|
  {
    IsOpen(text, runs, k, c) && forall j :: 0 <= j < k ==> !IsOpen(text, runs, j, c)
  }

  /** Where a text that ends in a space is cut: at its end while every name is decided, and
      otherwise at the greatest start of a token, up to the first name that may still get its
      value, that no name reaches. */
  ghost predicate IsBoundary(prefix: string, cut: nat, c: CredentialRule)
  {
    var runs := Runs(prefix, c);
    && cut <= |prefix|
    && ((forall k :: 0 <= k < |runs| ==> !IsOpen(prefix, runs, k, c)) ==> cut == |prefix|)
    && forall k :: 0 <= k < |runs| && FirstOpen(prefix, runs, k, c) ==>
         && cut <= runs[k].start && NoneReaches(prefix, cut, c)
         && (NamesHoldNoSpace(c) ==> IsCut(prefix, runs[k].start, cut, c))
  }

  method Boundary(prefix: string, c: CredentialRule) returns (cut: nat)
    requires EndsToken(prefix, c.space)
    ensures cut <= |prefix| && EndsToken(prefix[..cut], c.space)
    ensures IsBoundary(prefix, cut, c)
  {
    hide NoneReaches;
    hide NamesHoldNoSpace;
    hide IsCut;
    hide IsBoundary;
    hide Runs;
    var valueEnd := 0;
    var runs := Runs(prefix, c);
    cut := |prefix|;
    assert prefix[..|prefix|] == prefix;
    for k := 0 to |runs|
      invariant valueEnd == ValuesEnd(prefix, runs, k, c)
      invariant forall j :: 0 <= j < k ==> !IsOpen(prefix, runs, j, c)
    {
      var word := runs[k];
      if word.start >= valueEnd && c.isName(prefix[word.start..word.end]) {
        if c.mayGrow(prefix[word.end..]) {
          var start := TokenStart(prefix, word.start, c);
          cut := CutBeforeOpenName(prefix, start, c);
          assert FirstOpen(prefix, runs, k, c);
          if NamesHoldNoSpace(c) { CutReachesTo(prefix, start, word.start, cut, c); }
          CutAtFirstOpen(prefix, k, cut, c);
          return;
        }
        var end := c.valueEnd(prefix, word.end);
        if end.Some? { valueEnd := end.value; }
      }
    }
    NoneIsOpen(prefix, c);
  }

  lemma CutAtFirstOpen(prefix: string, k: nat, cut: nat, c: CredentialRule)
    requires k < |Runs(prefix, c)| && FirstOpen(prefix, Runs(prefix, c), k, c)
    requires cut <= Runs(prefix, c)[k].start && NoneReaches(prefix, cut, c)
    requires NamesHoldNoSpace(c) ==> IsCut(prefix, Runs(prefix, c)[k].start, cut, c)
    ensures IsBoundary(prefix, cut, c)
  {
    hide NoneReaches;
    hide NamesHoldNoSpace;
    hide IsCut;
    hide Runs;
    hide IsOpen;
    var runs := Runs(prefix, c);
    forall j | 0 <= j < |runs| && FirstOpen(prefix, runs, j, c) ensures j == k {}
  }

  lemma NoneIsOpen(prefix: string, c: CredentialRule)
    requires var runs := Runs(prefix, c); forall k :: 0 <= k < |runs| ==> !IsOpen(prefix, runs, k, c)
    ensures IsBoundary(prefix, |prefix|, c)
  {
    hide NoneReaches;
    hide NamesHoldNoSpace;
    hide IsCut;
    hide Runs;
    hide IsOpen;
  }

  lemma CutReachesTo(text: string, start: nat, pos: nat, cut: nat, c: CredentialRule)
    requires start <= pos <= |text| && forall k :: start <= k < pos ==> !c.space(text[k])
    requires IsCut(text, start, cut, c)
    ensures IsCut(text, pos, cut, c)
  {
    hide NoneReaches;
    forall n | start < n <= pos ensures !EndsToken(text[..n], c.space) {
      assert text[..n][n - 1] == text[n - 1];
    }
  }
}
