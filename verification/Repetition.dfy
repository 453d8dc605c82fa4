/** Degenerate output: a reply whose tail is one short span repeated, and the watch that looks
    for it in a stream while keeping only the tail. */
module Repetition {
  const REPEAT_SPAN: nat := 2048
  const MAX_PERIOD: nat := 256
  const COUNTING_SPAN: nat := 2 * REPEAT_SPAN
  const CHECK_CHARS: nat := 256
  const KEEP: nat := 2 * COUNTING_SPAN

  predicate IsDigit(c: char)
  {
    '0' <= c <= '9'
  }

  /** Each run of digits folded to one. */
  function Folded(text: string): (r: string)
    ensures |r| <= |text|
  {
    if text == "" then ""
    else if !IsDigit(text[0]) then [text[0]] + Folded(text[1..])
    else if |text| > 1 && IsDigit(text[1]) then Folded(text[1..])
    else "0" + Folded(text[1..])
  }

  function Last(text: string, n: nat): (r: string)
    ensures |r| == if n < |text| then n else |text|
  {
    if n < |text| then text[|text| - n..] else text
  }

  /** The last span characters equal the span that ends p characters earlier. */
  predicate RepeatsAt(text: string, span: nat, p: nat)
    requires p >= 1 && span + p <= |text|
  {
    text[|text| - span..] == text[|text| - span - p..|text| - p]
  }

  predicate Periodic(text: string, span: nat)
  {
    exists p :: 1 <= p <= MAX_PERIOD && span + p <= |text| && RepeatsAt(text, span, p)
  }

  predicate Degenerate(text: string)
  {
    Periodic(text, REPEAT_SPAN) || Periodic(Folded(Last(text, KEEP)), COUNTING_SPAN)
  }

  // ---- what folding does ----

  predicate AllDigits(text: string)
  {
    forall i :: 0 <= i < |text| ==> IsDigit(text[i])
  }

  predicate NoDigits(text: string)
  {
    forall i :: 0 <= i < |text| ==> !IsDigit(text[i])
  }

  lemma {:induction false} FoldedNumber(number: string, after: string)
    requires number != "" && AllDigits(number) && (after == "" || !IsDigit(after[0]))
    ensures Folded(number + after) == "0" + Folded(after)
  {
    var text := number + after;
    if |number| > 1 {
      assert text[1] == number[1] && text[1..] == number[1..] + after;
      FoldedNumber(number[1..], after);
    } else {
      assert text[1..] == after;
      if after != "" { assert text[1] == after[0]; }
    }
  }

  /** Every longest run of digits becomes one 0, and everything else stands: texts that differ in
      their numbers alone fold alike. */
  lemma {:induction false} FoldedRuns(before: string, number: string, after: string)
    requires number != "" && AllDigits(number) && (after == "" || !IsDigit(after[0]))
    requires before == "" || !IsDigit(before[|before| - 1])
    ensures Folded(before + (number + after)) == Folded(before) + ("0" + Folded(after))
    decreases |before|
  {
    if before == "" {
      FoldedNumber(number, after);
      assert before + (number + after) == number + after;
    } else {
      var more := number + after;
      var text := before + more;
      assert text[1..] == before[1..] + more;
      FoldedRuns(before[1..], number, after);
      hide AllDigits;
      if |before| > 1 { assert text[1] == before[1]; }
    }
  }

  lemma {:induction false} FoldedPlain(text: string)
    requires NoDigits(text)
    ensures Folded(text) == text
  {
    if text != "" { FoldedPlain(text[1..]); }
  }

  // ---- what periodic means ----

  /** Where position i falls in a word of p characters, written over and over. */
  function InWord(i: nat, p: nat): (r: nat)
    requires p >= 1
    ensures r < p && (i < p ==> r == i)
  {
    if i < p then i else InWord(i - p, p)
  }

  /** A string is copies of one word, the last perhaps cut short. */
  predicate IsCopies(s: string, word: string)
    requires word != ""
  {
    forall i :: 0 <= i < |s| ==> s[i] == word[InWord(i, |word|)]
  }

  /** The text ends in copies of one p-long word that cover the span and one copy more. */
  predicate EndsInCopies(text: string, span: nat, p: nat)
    requires p >= 1 && span + p <= |text|
  {
    IsCopies(text[|text| - span - p..], text[|text| - span - p..|text| - span])
  }

  lemma {:induction false} ShiftedIsCopies(s: string, p: nat, i: nat)
    requires 1 <= p <= |s| && i < |s| && s[p..] == s[..|s| - p]
    ensures s[i] == s[InWord(i, p)]
    decreases i
  {
    if i >= p {
      assert s[p..][i - p] == s[..|s| - p][i - p];
      ShiftedIsCopies(s, p, i - p);
    }
  }

  lemma ShiftIsCopies(s: string, p: nat)
    requires 1 <= p <= |s|
    ensures s[p..] == s[..|s| - p] <==> IsCopies(s, s[..p])
  {
    if s[p..] == s[..|s| - p] {
      forall i | 0 <= i < |s| ensures s[i] == s[..p][InWord(i, p)] { ShiftedIsCopies(s, p, i); }
    }
    if IsCopies(s, s[..p]) {
      forall k | 0 <= k < |s| - p ensures s[p..][k] == s[..|s| - p][k] {
        assert s[k + p] == s[..p][InWord(k + p, p)] && s[k] == s[..p][InWord(k, p)];
      }
    }
  }

  lemma RepeatsIsCopies(text: string, span: nat, p: nat)
    requires p >= 1 && span + p <= |text|
    ensures RepeatsAt(text, span, p) <==> EndsInCopies(text, span, p)
  {
    hide IsCopies;
    var s := text[|text| - span - p..];
    ShiftIsCopies(s, p);
    assert s[..p] == text[|text| - span - p..|text| - span];
    assert text[|text| - span..] == s[p..] && text[|text| - span - p..|text| - p] == s[..span];
  }

  /** Periodic means just that: the text ends in copies of one word of at most 256 characters,
      long enough to cover the span and one copy more. */
  lemma PeriodicIsCopies(text: string, span: nat)
    ensures Periodic(text, span)
            <==> exists p :: 1 <= p <= MAX_PERIOD && span + p <= |text| && EndsInCopies(text, span, p)
  {
    hide RepeatsAt;
    hide EndsInCopies;
    forall p | 1 <= p <= MAX_PERIOD && span + p <= |text|
      ensures RepeatsAt(text, span, p) <==> EndsInCopies(text, span, p)
    {
      RepeatsIsCopies(text, span, p);
    }
  }

  // ---- the window is enough ----

  /** The rule reads no more than the last KEEP characters. */
  lemma WindowIsEnough(text: string, tail: string)
    requires tail == text || (|tail| >= KEEP && |tail| <= |text| && tail == text[|text| - |tail|..])
    ensures Degenerate(tail) == Degenerate(text)
  {
    if tail != text {
      assert Last(tail, KEEP) == Last(text, KEEP);
      forall p | 1 <= p <= MAX_PERIOD ensures RepeatsAt(tail, REPEAT_SPAN, p) == RepeatsAt(text, REPEAT_SPAN, p) {
        assert tail[|tail| - REPEAT_SPAN..] == text[|text| - REPEAT_SPAN..];
        assert tail[|tail| - REPEAT_SPAN - p..|tail| - p] == text[|text| - REPEAT_SPAN - p..|text| - p];
      }
    }
  }

  class RepetitionWatch {
    var tail: string
    var seen: nat
    var checked: nat
    /** The whole stream so far. */
    ghost var stream: string

    ghost predicate Valid()
      reads this
    {
      && seen == |stream| && checked <= seen && seen - checked < CHECK_CHARS
      && |tail| <= 2 * KEEP && |tail| <= |stream|
      && (tail == stream || (|tail| >= KEEP && tail == stream[|stream| - |tail|..]))
    }

    constructor ()
      ensures Valid() && stream == "" && checked == 0
    {
      tail, seen, checked, stream := "", 0, 0, "";
    }

    /** A check is due once 256 characters have come since the last one. Its answer is the
        rule's answer for the whole stream, though only the tail is kept. */
    method Feed(fragment: string) returns (looping: bool)
      requires Valid()
      modifies this
      ensures Valid() && stream == old(stream) + fragment
      ensures var due := |stream| - old(checked) >= CHECK_CHARS;
              && looping == (fragment != "" && due && Degenerate(stream))
              && checked == if due then |stream| else old(checked)
    {
      hide Degenerate;
      if fragment == "" { assert stream + fragment == stream; return false; }
      stream := stream + fragment;
      tail := tail + fragment;
      assert tail == stream || tail == stream[|stream| - |tail|..];
      if |tail| > 2 * KEEP { tail := tail[|tail| - KEEP..]; }
      seen := seen + |fragment|;
      if seen - checked < CHECK_CHARS { return false; }
      checked := seen;
      WindowIsEnough(stream, tail);
      looping := Degenerate(tail);
    }
  }
}
