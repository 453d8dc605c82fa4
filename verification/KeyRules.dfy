/** The rules that take API keys out of a text: which keys they find, and that they leave none. */
module KeyRules {
  const REDACTED := "[redacted]"
  const KEY_LENGTH: nat := 20

  // ---- the key rules ----

  predicate IsAlphanumeric(c: char)
  {
    'a' <= c <= 'z' || 'A' <= c <= 'Z' || '0' <= c <= '9'
  }

  /** A key rule: a prefix, then at least 20 characters of its alphabet. */
  datatype KeyRule = KeyRule(prefixes: seq<string>, dashes: bool)
  {
    predicate Allows(c: char)
    {
      IsAlphanumeric(c) || (dashes && (c == '_' || c == '-'))
    }
  }

  const KEY_RULES := [
    KeyRule(["sk-ant-"], true), KeyRule(["sk-"], true),
    KeyRule(["ghp_", "gho_", "ghu_", "ghs_", "ghr_"], false)
  ]

  /** What splits a text into tokens. It is none of the characters of a key. */
  type Space = char -> bool

  ghost predicate KeysHaveNoSpace(space: Space, rule: KeyRule)
  {
    && (forall c :: rule.Allows(c) ==> !space(c))
    && forall i, j :: 0 <= i < |rule.prefixes| && 0 <= j < |rule.prefixes[i]| ==> !space(rule.prefixes[i][j])
  }

  /** How many of the leading characters the rule's alphabet holds. */
  function RunLength(text: string, rule: KeyRule): (n: nat)
    ensures n <= |text| && forall k :: 0 <= k < n ==> rule.Allows(text[k])
    ensures n < |text| ==> !rule.Allows(text[n])
  {
    if text == "" || !rule.Allows(text[0]) then 0 else 1 + RunLength(text[1..], rule)
  }

  /** The length of the prefix the text starts with, 0 for none. */
  function PrefixLength(text: string, prefixes: seq<string>): (n: nat)
    ensures n <= |text|
    ensures n > 0 ==> exists i :: 0 <= i < |prefixes| && prefixes[i] == text[..n]
  {
    if prefixes == [] then 0
    else if prefixes[0] <= text && prefixes[0] != "" then |prefixes[0]|
    else
      var n := PrefixLength(text, prefixes[1..]);
      assert n > 0 ==>
        exists i :: 0 <= i < |prefixes[1..]| && prefixes[1..][i] == text[..n] && prefixes[i + 1] == text[..n];
      n
  }

  /** The length of the key that starts here, 0 for none. */
  function KeyAt(text: string, rule: KeyRule): (n: nat)
    ensures n <= |text|
  {
    var p := PrefixLength(text, rule.prefixes);
    if p > 0 && RunLength(text[p..], rule) >= KEY_LENGTH then p + RunLength(text[p..], rule) else 0
  }

  /** What one turn of the rewriting takes from the front of the text, and gives out. */
  datatype Taken = Taken(length: nat, given: string)

  function Take(text: string, rule: KeyRule): (r: Taken)
    requires text != ""
    ensures 0 < r.length <= |text|
  {
    if KeyAt(text, rule) > 0 then Taken(KeyAt(text, rule), REDACTED) else Taken(1, [text[0]])
  }

  /** Every key gives way, left to right. */
  function Rewrite(text: string, rule: KeyRule): string
    decreases |text|
  {
    if text == "" then "" else Take(text, rule).given + Rewrite(text[Take(text, rule).length..], rule)
  }

  function RewriteAll(text: string, rules: seq<KeyRule>): string
    decreases |rules|
  {
    if rules == [] then text else RewriteAll(Rewrite(text, rules[0]), rules[1..])
  }

  // ---- the key rules are local to a token ----

  /** A place where a text may be cut: nothing before, or a space. */
  predicate EndsToken(text: string, space: Space)
  {
    text == "" || space(text[|text| - 1])
  }

  lemma {:induction false} RunStopsAtSpace(a: string, b: string, rule: KeyRule, space: Space)
    requires KeysHaveNoSpace(space, rule) && a != "" && EndsToken(a, space)
    ensures RunLength(a + b, rule) == RunLength(a, rule) < |a|
  {
    assert (a + b)[0] == a[0];
    if rule.Allows(a[0]) {
      assert |a| > 1;
      assert (a + b)[1..] == a[1..] + b;
      RunStopsAtSpace(a[1..], b, rule, space);
    }
  }

  lemma {:induction false} PrefixStopsAtSpace(a: string, b: string, prefixes: seq<string>, rule: KeyRule, space: Space)
    requires KeysHaveNoSpace(space, rule) && a != "" && EndsToken(a, space)
    requires forall i :: 0 <= i < |prefixes| ==> prefixes[i] in rule.prefixes
    ensures PrefixLength(a + b, prefixes) == PrefixLength(a, prefixes) < |a|
  {
    if prefixes != [] {
      var p := prefixes[0];
      PrefixStopsAtSpace(a, b, prefixes[1..], rule, space);
      var i :| 0 <= i < |rule.prefixes| && rule.prefixes[i] == p;
      assert forall j :: 0 <= j < |p| ==> !space(p[j]);
      assert (a + b)[|a| - 1] == a[|a| - 1];
      assert p <= a + b ==> forall k :: 0 <= k < |p| ==> p[k] == (a + b)[k];
      assert p <= a + b ==> |p| < |a|;
      assert p <= a ==> forall k :: 0 <= k < |p| ==> p[k] == a[k];
      assert p <= a ==> |p| < |a|;
      assert p <= a + b <==> p <= a;
    }
  }

  lemma KeyStopsAtSpace(a: string, b: string, rule: KeyRule, space: Space)
    requires KeysHaveNoSpace(space, rule) && a != "" && EndsToken(a, space)
    ensures KeyAt(a + b, rule) == KeyAt(a, rule) < |a|
  {
    PrefixStopsAtSpace(a, b, rule.prefixes, rule, space);
    var p := PrefixLength(a, rule.prefixes);
    assert (a + b)[p..] == a[p..] + b;
    RunStopsAtSpace(a[p..], b, rule, space);
  }

  /** Taking from the front of a text never takes the space that ends a token, but as it is. */
  lemma TakeStopsAtSpace(a: string, b: string, rule: KeyRule, space: Space)
    requires KeysHaveNoSpace(space, rule) && a != "" && EndsToken(a, space)
    ensures Take(a + b, rule) == Take(a, rule) && Take(a, rule).given != ""
    ensures Take(a, rule).length == |a| ==> EndsToken(Take(a, rule).given, space)
  {
    KeyStopsAtSpace(a, b, rule, space);
    hide KeyAt;
  }

  /** Rewriting a text cut after a space is rewriting its two parts. */
  lemma {:induction false} RewriteSplits(a: string, b: string, rule: KeyRule, space: Space)
    requires KeysHaveNoSpace(space, rule) && EndsToken(a, space)
    ensures Rewrite(a + b, rule) == Rewrite(a, rule) + Rewrite(b, rule)
    ensures EndsToken(Rewrite(a, rule), space) && (a != "" ==> Rewrite(a, rule) != "")
    decreases |a|
  {
    hide Take;
    hide KeysHaveNoSpace;
    if a == "" {
      assert a + b == b;
    } else {
      TakeStopsAtSpace(a, b, rule, space);
      var taken := Take(a, rule);
      var rest := a[taken.length..];
      assert (a + b)[taken.length..] == rest + b;
      RewriteSplits(rest, b, rule, space);
      assert taken.given + (Rewrite(rest, rule) + Rewrite(b, rule))
          == (taken.given + Rewrite(rest, rule)) + Rewrite(b, rule);
    }
  }

  ghost predicate RulesHaveNoSpace(space: Space, rules: seq<KeyRule>)
  {
    forall i :: 0 <= i < |rules| ==> KeysHaveNoSpace(space, rules[i])
  }

  lemma {:induction false} RewriteAllSplits(a: string, b: string, rules: seq<KeyRule>, space: Space)
    requires RulesHaveNoSpace(space, rules) && EndsToken(a, space)
    ensures RewriteAll(a + b, rules) == RewriteAll(a, rules) + RewriteAll(b, rules)
    decreases |rules|
  {
    if rules != [] {
      RewriteSplits(a, b, rules[0], space);
      RewriteAllSplits(Rewrite(a, rules[0]), Rewrite(b, rules[0]), rules[1..], space);
    }
  }

  /** Spaces are none of the characters of the key rules, as Python's are. */
  ghost predicate SpacesApart(space: Space)
  {
    forall c :: space(c) ==> !IsAlphanumeric(c) && c != '_' && c != '-'
  }

  lemma KeysHoldNoSpace(space: Space)
    requires SpacesApart(space)
    ensures RulesHaveNoSpace(space, KEY_RULES)
  {
  }

  function Concat(pieces: seq<string>): string
  {
    if pieces == [] then "" else Concat(pieces[..|pieces| - 1]) + pieces[|pieces| - 1]
  }

  function Rewritten(pieces: seq<string>, rules: seq<KeyRule>): (r: seq<string>)
    ensures |r| == |pieces| && forall i :: 0 <= i < |pieces| ==> r[i] == RewriteAll(pieces[i], rules)
  {
    seq(|pieces|, i requires 0 <= i < |pieces| => RewriteAll(pieces[i], rules))
  }

  predicate AllEndTokens(pieces: seq<string>, space: Space)
  {
    forall i :: 0 <= i < |pieces| ==> EndsToken(pieces[i], space)
  }

  lemma {:induction false} ConcatEndsToken(pieces: seq<string>, space: Space)
    requires AllEndTokens(pieces, space)
    ensures EndsToken(Concat(pieces), space)
  {
    if pieces != [] { ConcatEndsToken(pieces[..|pieces| - 1], space); }
  }

  /** Streaming agrees with batch for the key rules: rewriting the pieces one by one is
      rewriting the whole text, however it was cut after spaces. */
  lemma {:induction false} StreamIsBatch(pieces: seq<string>, last: string, rules: seq<KeyRule>, space: Space)
    requires RulesHaveNoSpace(space, rules) && AllEndTokens(pieces, space)
    ensures Concat(Rewritten(pieces, rules)) + RewriteAll(last, rules) == RewriteAll(Concat(pieces) + last, rules)
  {
    ConcatEndsToken(pieces, space);
    RewriteAllSplits(Concat(pieces), last, rules, space);
    if pieces == [] {
      NothingRewritten(rules);
    } else {
      var n := |pieces| - 1;
      StreamIsBatch(pieces[..n], pieces[n], rules, space);
      assert Rewritten(pieces, rules)[..n] == Rewritten(pieces[..n], rules);
    }
  }

  lemma {:induction false} NothingRewritten(rules: seq<KeyRule>)
    ensures RewriteAll("", rules) == ""
    decreases |rules|
  {
    if rules != [] { NothingRewritten(rules[1..]); }
  }

  // ---- keys, apart from the rewriting ----

  /** A key: one of the rule's prefixes, then all the characters of its alphabet that follow,
      at least 20 of them. */
  ghost predicate IsKeyBy(text: string, i: nat, n: nat, prefix: string, rule: KeyRule)
  {
    && i + n <= |text| && prefix != "" && |prefix| + KEY_LENGTH <= n
    && text[i..i + |prefix|] == prefix
    && (forall j :: i + |prefix| <= j < i + n ==> rule.Allows(text[j]))
    && (i + n == |text| || !rule.Allows(text[i + n]))
  }

  ghost predicate IsKey(text: string, i: nat, n: nat, rule: KeyRule)
  {
    exists k :: 0 <= k < |rule.prefixes| && IsKeyBy(text, i, n, rule.prefixes[k], rule)
  }

  ghost predicate HasKey(text: string, rule: KeyRule)
  {
    exists i: nat, n: nat :: IsKey(text, i, n, rule)
  }

  /** No prefix of the rule starts another, and none holds a bracket. */
  ghost predicate Plain(rule: KeyRule)
  {
    && (forall i, j :: 0 <= i < |rule.prefixes| && 0 <= j < |rule.prefixes| && rule.prefixes[i] <= rule.prefixes[j] ==>
          rule.prefixes[i] == rule.prefixes[j])
    && forall i :: 0 <= i < |rule.prefixes| ==>
         rule.prefixes[i] != "" && '[' !in rule.prefixes[i] && ']' !in rule.prefixes[i]
  }

  lemma PrefixesAgree(text: string, a: string, b: string)
    requires a <= text && b <= text && |a| <= |b|
    ensures a <= b
  {
    assert a == text[..|a|] == text[..|b|][..|a|];
  }

  lemma {:induction false} PrefixLengthIs(text: string, prefixes: seq<string>, rule: KeyRule, k: nat)
    requires Plain(rule) && k < |rule.prefixes| && rule.prefixes[k] <= text
    requires forall i :: 0 <= i < |prefixes| ==> prefixes[i] in rule.prefixes
    ensures PrefixLength(text, prefixes) in {0, |rule.prefixes[k]|}
    ensures rule.prefixes[k] in prefixes ==> PrefixLength(text, prefixes) == |rule.prefixes[k]|
  {
    if prefixes != [] {
      var p := prefixes[0];
      PrefixLengthIs(text, prefixes[1..], rule, k);
      if p <= text && p != "" {
        var i :| 0 <= i < |rule.prefixes| && rule.prefixes[i] == p;
        if |p| <= |rule.prefixes[k]| {
          PrefixesAgree(text, p, rule.prefixes[k]);
        } else {
          PrefixesAgree(text, rule.prefixes[k], p);
        }
      }
    }
  }

  lemma {:induction false} RunLengthIs(text: string, rule: KeyRule, n: nat)
    requires n <= |text| && (forall k :: 0 <= k < n ==> rule.Allows(text[k]))
    requires n == |text| || !rule.Allows(text[n])
    ensures RunLength(text, rule) == n
  {
    if n > 0 { RunLengthIs(text[1..], rule, n - 1); }
  }

  lemma KeyIsFound(text: string, rule: KeyRule, n: nat, k: nat)
    requires Plain(rule) && k < |rule.prefixes| && IsKeyBy(text, 0, n, rule.prefixes[k], rule)
    ensures KeyAt(text, rule) == n
  {
    hide Plain;
    hide PrefixLength;
    hide RunLength;
    var p := rule.prefixes[k];
    assert text[0..|p|] == text[..|p|];
    PrefixLengthIs(text, rule.prefixes, rule, k);
    RunLengthIs(text[|p|..], rule, n - |p|);
  }

  lemma FoundIsKey(text: string, rule: KeyRule)
    requires KeyAt(text, rule) > 0
    ensures IsKey(text, 0, KeyAt(text, rule), rule)
  {
    hide RunLength;
    var n, p := KeyAt(text, rule), PrefixLength(text, rule.prefixes);
    var k :| 0 <= k < |rule.prefixes| && rule.prefixes[k] == text[..p];
    hide PrefixLength;
    assert text[0..0 + p] == text[..p];
    var run := text[p..];
    forall j | p <= j < n ensures rule.Allows(text[j]) { assert text[j] == run[j - p]; }
    assert n < |text| ==> text[n] == run[n - p];
    assert IsKeyBy(text, 0, n, rule.prefixes[k], rule);
  }

  /** What the rewriting looks for at the front of a text is a key that starts there. */
  lemma KeyAtMeans(text: string, rule: KeyRule, n: nat)
    requires Plain(rule) && n > 0
    ensures KeyAt(text, rule) == n <==> IsKey(text, 0, n, rule)
  {
    hide KeyAt;
    hide Plain;
    hide IsKeyBy;
    if KeyAt(text, rule) == n { FoundIsKey(text, rule); }
    if IsKey(text, 0, n, rule) {
      var k :| 0 <= k < |rule.prefixes| && IsKeyBy(text, 0, n, rule.prefixes[k], rule);
      KeyIsFound(text, rule, n, k);
    }
  }

  lemma KeyShifts(text: string, from: nat, i: nat, n: nat, rule: KeyRule)
    requires from <= i <= |text|
    ensures IsKey(text, i, n, rule) <==> IsKey(text[from..], i - from, n, rule)
  {
    forall k | 0 <= k < |rule.prefixes|
      ensures IsKeyBy(text, i, n, rule.prefixes[k], rule)
              <==> IsKeyBy(text[from..], i - from, n, rule.prefixes[k], rule)
    {
      KeyShiftsBy(text, from, i, n, rule.prefixes[k], rule);
    }
  }

  lemma KeyShiftsBy(text: string, from: nat, i: nat, n: nat, prefix: string, rule: KeyRule)
    requires from <= i <= |text|
    ensures IsKeyBy(text, i, n, prefix, rule) <==> IsKeyBy(text[from..], i - from, n, prefix, rule)
  {
    var rest := text[from..];
    assert |prefix| <= |text| - i ==> text[i..i + |prefix|] == rest[i - from..i - from + |prefix|];
    if IsKeyBy(rest, i - from, n, prefix, rule) {
      forall j | i + |prefix| <= j < i + n ensures rule.Allows(text[j]) { assert text[j] == rest[j - from]; }
    }
  }

  // ---- exactly the leftmost keys give way ----

  datatype Cut = Cut(start: nat, length: nat)
  {
    function End(): nat
    {
      start + length
    }
  }

  predicate Within(i: nat, cut: Cut)
  {
    cut.start <= i < cut.End()
  }

  ghost predicate Covered(i: nat, cuts: seq<Cut>)
  {
    exists j :: 0 <= j < |cuts| && Within(i, cuts[j])
  }

  predicate Apart(cuts: seq<Cut>)
  {
    forall j, k :: 0 <= j < k < |cuts| ==> cuts[j].End() <= cuts[k].start
  }

  ghost predicate EachIsKey(text: string, from: nat, cuts: seq<Cut>, rule: KeyRule)
  {
    forall j :: 0 <= j < |cuts| ==> from <= cuts[j].start && IsKey(text, cuts[j].start, cuts[j].length, rule)
  }

  ghost predicate NoneMissed(text: string, from: nat, cuts: seq<Cut>, rule: KeyRule)
  {
    forall i: nat, n: nat :: from <= i && IsKey(text, i, n, rule) ==> Covered(i, cuts)
  }

  /** The leftmost keys from a position on: in order and apart, each a key, and every key that
      starts at or after the position starts in one of them. */
  ghost predicate AreKeys(text: string, from: nat, cuts: seq<Cut>, rule: KeyRule)
  {
    EachIsKey(text, from, cuts, rule) && Apart(cuts) && NoneMissed(text, from, cuts, rule)
  }

  lemma ApartCons(cut: Cut, rest: seq<Cut>)
    requires Apart(rest) && forall j :: 0 <= j < |rest| ==> cut.End() <= rest[j].start
    ensures Apart([cut] + rest)
  {
    var cuts := [cut] + rest;
    forall j, k | 0 <= j < k < |cuts| ensures cuts[j].End() <= cuts[k].start {
      assert cuts[k] == rest[k - 1];
      if j > 0 { assert cuts[j] == rest[j - 1]; }
    }
  }

  lemma ApartRest(cuts: seq<Cut>)
    requires Apart(cuts) && cuts != []
    ensures Apart(cuts[1..]) && forall j :: 0 <= j < |cuts| - 1 ==> cuts[0].End() <= cuts[1..][j].start
  {
    var rest := cuts[1..];
    forall j, k | 0 <= j < k < |rest| ensures rest[j].End() <= rest[k].start {
      assert rest[j] == cuts[j + 1] && rest[k] == cuts[k + 1];
    }
    forall j | 0 <= j < |rest| ensures cuts[0].End() <= rest[j].start { assert rest[j] == cuts[j + 1]; }
  }

  lemma CoveredCons(i: nat, cut: Cut, rest: seq<Cut>)
    ensures Covered(i, [cut] + rest) <==> Within(i, cut) || Covered(i, rest)
  {
    var cuts := [cut] + rest;
    if Within(i, cut) { assert Within(i, cuts[0]); }
    if Covered(i, rest) {
      var j :| 0 <= j < |rest| && Within(i, rest[j]);
      assert Within(i, cuts[j + 1]);
    }
    if Covered(i, cuts) {
      var j :| 0 <= j < |cuts| && Within(i, cuts[j]);
      if j > 0 { assert Within(i, rest[j - 1]); }
    }
  }

  /** The cuts lie in the text from a position on, in order and apart. */
  predicate Fit(text: string, from: nat, cuts: seq<Cut>)
  {
    && from <= |text|
    && (forall j :: 0 <= j < |cuts| ==> from <= cuts[j].start && cuts[j].End() <= |text|)
    && forall j, k :: 0 <= j < k < |cuts| ==> cuts[j].End() <= cuts[k].start
  }

  /** The text from a position on, with each cut replaced and every other character kept. */
  function Replaced(text: string, from: nat, cuts: seq<Cut>): string
    requires Fit(text, from, cuts)
    decreases |cuts|
  {
    if cuts == [] then text[from..]
    else
      assert from <= cuts[0].start && cuts[0].End() <= |text|;
      text[from..cuts[0].start] + REDACTED + Replaced(text, cuts[0].End(), cuts[1..])
  }

  lemma KeysFit(text: string, from: nat, cuts: seq<Cut>, rule: KeyRule)
    requires from <= |text| && AreKeys(text, from, cuts, rule)
    ensures Fit(text, from, cuts)
  {
  }

  lemma NoKeyPastEnd(text: string, i: nat, n: nat, rule: KeyRule)
    requires IsKey(text, i, n, rule)
    ensures i < i + n <= |text|
  {
  }

  /** A position with no key is passed. */
  lemma PassOne(text: string, from: nat, cuts: seq<Cut>, rule: KeyRule)
    requires from < |text| && AreKeys(text, from + 1, cuts, rule)
    requires forall n: nat :: !IsKey(text, from, n, rule)
    ensures AreKeys(text, from, cuts, rule)
  {
    hide IsKey;
  }

  lemma PassKey(text: string, from: nat, n: nat, rest: seq<Cut>, rule: KeyRule)
    requires n > 0 && IsKey(text, from, n, rule) && AreKeys(text, from + n, rest, rule)
    ensures AreKeys(text, from, [Cut(from, n)] + rest, rule)
  {
    hide IsKey;
    hide Covered;
    hide Apart;
    var cuts := [Cut(from, n)] + rest;
    ApartCons(Cut(from, n), rest);
    forall i: nat, m: nat | from <= i && IsKey(text, i, m, rule) ensures Covered(i, cuts) {
      CoveredCons(i, Cut(from, n), rest);
    }
    forall j | 0 <= j < |cuts| ensures from <= cuts[j].start && IsKey(text, cuts[j].start, cuts[j].length, rule) {
      if j > 0 { assert cuts[j] == rest[j - 1]; }
    }
  }

  /** Whether a key starts at a position, and how long it is. */
  lemma FrontIs(text: string, from: nat, rule: KeyRule)
    requires Plain(rule) && from < |text|
    ensures var n := KeyAt(text[from..], rule);
            && from + n <= |text|
            && (if n > 0 then IsKey(text, from, n, rule) else forall m: nat :: !IsKey(text, from, m, rule))
  {
    hide KeyAt;
    hide Plain;
    hide IsKey;
    var rest := text[from..];
    var n := KeyAt(rest, rule);
    forall m: nat ensures IsKey(text, from, m, rule) ==> m > 0 && n == m {
      if IsKey(text, from, m, rule) {
        NoKeyPastEnd(text, from, m, rule);
        KeyShifts(text, from, from, m, rule);
        KeyAtMeans(rest, rule, m);
      }
    }
    if n > 0 {
      KeyAtMeans(rest, rule, n);
      KeyShifts(text, from, from, n, rule);
    }
  }

  lemma RewriteStep(text: string, from: nat, rule: KeyRule)
    requires from < |text|
    ensures var taken := Take(text[from..], rule);
            && from + taken.length <= |text|
            && Rewrite(text[from..], rule) == taken.given + Rewrite(text[from + taken.length..], rule)
  {
    hide Take;
    var rest := text[from..];
    assert rest[Take(rest, rule).length..] == text[from + Take(rest, rule).length..];
  }

  lemma FitHere(text: string, from: nat, n: nat, rest: seq<Cut>)
    requires from + n <= |text| && Fit(text, from + n, rest)
    ensures Fit(text, from, [Cut(from, n)] + rest)
  {
    var cuts := [Cut(from, n)] + rest;
    forall j | 0 <= j < |cuts| ensures from <= cuts[j].start && cuts[j].End() <= |text| {
      if j > 0 { assert cuts[j] == rest[j - 1]; }
    }
    forall j, k | 0 <= j < k < |cuts| ensures cuts[j].End() <= cuts[k].start {
      assert cuts[k] == rest[k - 1];
      if j > 0 { assert cuts[j] == rest[j - 1]; }
    }
  }

  lemma FitRest(text: string, from: nat, cuts: seq<Cut>)
    requires Fit(text, from, cuts) && cuts != []
    ensures from <= cuts[0].start && cuts[0].End() <= |text| && Fit(text, cuts[0].End(), cuts[1..])
  {
  }

  lemma ReplacedUnfolds(text: string, from: nat, cuts: seq<Cut>)
    requires Fit(text, from, cuts) && cuts != []
    ensures from <= cuts[0].start && cuts[0].End() <= |text| && Fit(text, cuts[0].End(), cuts[1..])
    ensures Replaced(text, from, cuts)
            == text[from..cuts[0].start] + REDACTED + Replaced(text, cuts[0].End(), cuts[1..])
  {
    FitRest(text, from, cuts);
    hide Fit;
    hide REDACTED;
  }

  lemma ReplacedHere(text: string, from: nat, n: nat, rest: seq<Cut>)
    requires from + n <= |text| && Fit(text, from + n, rest)
    ensures Fit(text, from, [Cut(from, n)] + rest)
    ensures Replaced(text, from, [Cut(from, n)] + rest) == REDACTED + Replaced(text, from + n, rest)
  {
    hide Fit;
    hide REDACTED;
    hide Replaced;
    var cuts := [Cut(from, n)] + rest;
    FitHere(text, from, n, rest);
    ReplacedUnfolds(text, from, cuts);
    assert cuts[0] == Cut(from, n) && cuts[1..] == rest && text[from..from] == "";
    assert text[from..from] + REDACTED == REDACTED;
  }

  lemma {:induction false} RewriteFrom(text: string, from: nat, rule: KeyRule) returns (cuts: seq<Cut>)
    requires Plain(rule) && from <= |text|
    ensures AreKeys(text, from, cuts, rule) && Fit(text, from, cuts)
    ensures Rewrite(text[from..], rule) == Replaced(text, from, cuts)
    decreases |text| - from
  {
    hide KeyAt;
    hide Plain;
    hide IsKey;
    hide AreKeys;
    hide Fit;
    if from == |text| {
      cuts := [];
      NoKeysAtEnd(text, rule);
      KeysFit(text, from, cuts, rule);
    } else {
      hide Replaced;
      hide Rewrite;
      var n := KeyAt(text[from..], rule);
      FrontIs(text, from, rule);
      RewriteStep(text, from, rule);
      var length := Take(text[from..], rule).length;
      var more := RewriteFrom(text, from + length, rule);
      if n > 0 {
        cuts := [Cut(from, n)] + more;
        PassKey(text, from, n, more, rule);
        ReplacedHere(text, from, n, more);
      } else {
        cuts := more;
        PassOne(text, from, more, rule);
        ReplacedFromNext(text, from, more);
      }
    }
  }

  lemma NoKeysAtEnd(text: string, rule: KeyRule)
    ensures AreKeys(text, |text|, [], rule)
  {
    forall i: nat, n: nat | |text| <= i ensures !IsKey(text, i, n, rule) {
      if IsKey(text, i, n, rule) { NoKeyPastEnd(text, i, n, rule); }
    }
  }

  lemma FitEarlier(text: string, from: nat, cuts: seq<Cut>)
    requires from < |text| && Fit(text, from + 1, cuts)
    ensures Fit(text, from, cuts)
  {
  }

  lemma ReplacedFromNext(text: string, from: nat, cuts: seq<Cut>)
    requires from < |text| && Fit(text, from + 1, cuts)
    ensures Fit(text, from, cuts)
    ensures Replaced(text, from, cuts) == [text[from]] + Replaced(text, from + 1, cuts)
  {
    hide REDACTED;
    hide Fit;
    FitEarlier(text, from, cuts);
    if cuts == [] {
      assert text[from..] == [text[from]] + text[from + 1..];
    } else {
      FitRest(text, from + 1, cuts);
      var gap, rest := text[from + 1..cuts[0].start], Replaced(text, cuts[0].End(), cuts[1..]);
      assert text[from..cuts[0].start] == [text[from]] + gap;
      assert [text[from]] + gap + REDACTED + rest == [text[from]] + (gap + REDACTED + rest);
    }
  }

  /** A key rule replaces exactly the leftmost keys of a text and keeps every other character. */
  lemma RewriteReplacesKeys(text: string, rule: KeyRule) returns (cuts: seq<Cut>)
    requires Plain(rule)
    ensures AreKeys(text, 0, cuts, rule) && Fit(text, 0, cuts)
    ensures Rewrite(text, rule) == Replaced(text, 0, cuts)
  {
    hide AreKeys;
    cuts := RewriteFrom(text, 0, rule);
    assert text[0..] == text;
  }

  lemma KeyLengthIsOne(text: string, i: nat, n: nat, m: nat, rule: KeyRule)
    requires Plain(rule) && IsKey(text, i, n, rule) && IsKey(text, i, m, rule)
    ensures n == m
  {
    hide IsKey;
    hide KeyAt;
    hide Plain;
    NoKeyPastEnd(text, i, n, rule);
    NoKeyPastEnd(text, i, m, rule);
    KeyShifts(text, i, i, n, rule);
    KeyShifts(text, i, i, m, rule);
    KeyAtMeans(text[i..], rule, n);
    KeyAtMeans(text[i..], rule, m);
  }

  lemma FirstCutIsLeftmost(text: string, from: nat, a: seq<Cut>, b: seq<Cut>, rule: KeyRule)
    requires AreKeys(text, from, a, rule) && AreKeys(text, from, b, rule) && a != []
    ensures b != [] && b[0].start <= a[0].start
  {
    hide IsKey;
    assert Covered(a[0].start, b);
    var j :| 0 <= j < |b| && Within(a[0].start, b[j]);
    if j > 0 { assert b[0].End() <= b[j].start; }
  }

  lemma KeysOfRest(text: string, from: nat, cuts: seq<Cut>, rule: KeyRule)
    requires AreKeys(text, from, cuts, rule) && cuts != []
    ensures AreKeys(text, cuts[0].End(), cuts[1..], rule)
  {
    hide IsKey;
    hide Covered;
    hide Apart;
    var first, rest := cuts[0], cuts[1..];
    assert cuts == [first] + rest;
    ApartRest(cuts);
    forall i: nat, n: nat | first.End() <= i && IsKey(text, i, n, rule) ensures Covered(i, rest) {
      assert from <= first.start;
      CoveredCons(i, first, rest);
    }
    forall j | 0 <= j < |rest|
      ensures first.End() <= rest[j].start && IsKey(text, rest[j].start, rest[j].length, rule)
    {
      assert rest[j] == cuts[j + 1];
    }
  }

  /** There is only one way to be the leftmost keys. */
  lemma {:induction false} LeftmostKeysAreOne(text: string, from: nat, a: seq<Cut>, b: seq<Cut>, rule: KeyRule)
    requires Plain(rule) && AreKeys(text, from, a, rule) && AreKeys(text, from, b, rule)
    ensures a == b
    decreases |a|
  {
    hide IsKey;
    hide Plain;
    if a != [] {
      FirstCutIsLeftmost(text, from, a, b, rule);
      FirstCutIsLeftmost(text, from, b, a, rule);
      KeyLengthIsOne(text, a[0].start, a[0].length, b[0].length, rule);
      KeysOfRest(text, from, a, rule);
      KeysOfRest(text, from, b, rule);
      LeftmostKeysAreOne(text, a[0].End(), a[1..], b[1..], rule);
      assert a == [a[0]] + a[1..] && b == [b[0]] + b[1..];
    } else if b != [] {
      FirstCutIsLeftmost(text, from, b, a, rule);
    }
  }

  // ---- no key is left ----

  lemma LongerRun(text: string, at: nat, n: nat, prefix: string, rule: KeyRule) returns (m: nat)
    requires prefix != "" && |prefix| + KEY_LENGTH <= n && at + n <= |text| && text[at..at + |prefix|] == prefix
    requires forall j :: at + |prefix| <= j < at + n ==> rule.Allows(text[j])
    ensures IsKeyBy(text, at, m, prefix, rule)
  {
    var from := at + |prefix|;
    var r := RunLength(text[from..], rule);
    m := |prefix| + r;
    forall j | from <= j < at + m ensures rule.Allows(text[j]) { assert text[j] == text[from..][j - from]; }
    if at + m < |text| { assert text[at + m] == text[from..][r]; }
    forall k | 0 <= k < n - |prefix| ensures rule.Allows(text[from..][k]) { assert text[from..][k] == text[from + k]; }
    RunReaches(text[from..], rule, n - |prefix|);
  }

  lemma {:induction false} RunReaches(text: string, rule: KeyRule, q: nat)
    requires q <= |text| && forall k :: 0 <= k < q ==> rule.Allows(text[k])
    ensures RunLength(text, rule) >= q
  {
    if q > 0 { RunReaches(text[1..], rule, q - 1); }
  }

  lemma NoBracketInKey(text: string, i: nat, n: nat, prefix: string, rule: KeyRule, j: nat)
    requires IsKeyBy(text, i, n, prefix, rule) && '[' !in prefix && ']' !in prefix && i <= j < i + n
    ensures text[j] != '[' && text[j] != ']'
  {
    if j < i + |prefix| { assert text[j] == text[i..i + |prefix|][j - i] && text[j] in prefix; }
  }

  /** A key in what a rule gives out lies between two replacements, so one was there before. */
  lemma {:induction false} KeyWasThere(
    text: string, from: nat, cuts: seq<Cut>, i: nat, n: nat, prefix: string, rule: KeyRule) returns (at: nat, m: nat)
    requires Fit(text, from, cuts) && '[' !in prefix && ']' !in prefix
    requires IsKeyBy(Replaced(text, from, cuts), i, n, prefix, rule)
    ensures from <= at && IsKeyBy(text, at, m, prefix, rule) && !Covered(at, cuts)
    decreases |cuts|
  {
    hide Fit;
    var all := Replaced(text, from, cuts);
    if cuts == [] {
      FitFrom(text, from, cuts);
      KeyShiftsBy(text, from, from + i, n, prefix, rule);
      at, m := from + i, n;
    } else {
      ReplacedUnfolds(text, from, cuts);
      var g := cuts[0].start - from;
      var rest := Replaced(text, cuts[0].End(), cuts[1..]);
      hide Replaced;
      BracketsAt(text[from..cuts[0].start], rest);
      if i <= g < i + n { NoBracketInKey(all, i, n, prefix, rule, g); }
      if i <= g + 9 < i + n { NoBracketInKey(all, i, n, prefix, rule, g + 9); }
      if i + n <= g {
        at := from + i;
        forall j | 0 <= j < g ensures all[j] == text[from + j] { assert all[j] == all[..g][j]; }
        assert all[i..i + |prefix|] == text[at..at + |prefix|];
        forall j | at + |prefix| <= j < at + n ensures rule.Allows(text[j]) { assert text[j] == all[j - from]; }
        m := LongerRun(text, at, n, prefix, rule);
        StartsBefore(text, from, cuts, at);
      } else {
        assert i >= g + 10;
        KeyShiftsBy(all, g + 10, i, n, prefix, rule);
        at, m := KeyWasThere(text, cuts[0].End(), cuts[1..], i - g - 10, n, prefix, rule);
        NotInFirst(cuts, at);
      }
    }
  }

  lemma BracketsAt(gap: string, rest: string)
    ensures var all := gap + REDACTED + rest;
            && |all| == |gap| + 10 + |rest| && all[|gap|] == '[' && all[|gap| + 9] == ']'
            && all[|gap| + 10..] == rest && all[..|gap|] == gap
  {
    assert |REDACTED| == 10 && REDACTED[0] == '[' && REDACTED[9] == ']';
    hide REDACTED;
  }

  lemma FitFrom(text: string, from: nat, cuts: seq<Cut>)
    requires Fit(text, from, cuts)
    ensures from <= |text|
  {
  }

  lemma StartsBefore(text: string, from: nat, cuts: seq<Cut>, at: nat)
    requires Fit(text, from, cuts) && cuts != [] && at < cuts[0].start
    ensures !Covered(at, cuts)
  {
    forall j | 0 <= j < |cuts| ensures !Within(at, cuts[j]) {
      if j > 0 { assert cuts[0].End() <= cuts[j].start; }
    }
  }

  lemma NotInFirst(cuts: seq<Cut>, at: nat)
    requires cuts != [] && cuts[0].End() <= at && !Covered(at, cuts[1..])
    ensures !Covered(at, cuts)
  {
    forall j | 0 <= j < |cuts| ensures !Within(at, cuts[j]) {
      if j > 0 { assert cuts[j] == cuts[1..][j - 1] && !Within(at, cuts[1..][j - 1]); }
    }
  }

  /** A rule leaves no key of its own, and brings none of another. */
  lemma RewriteLeavesNone(text: string, rule: KeyRule, other: KeyRule)
    requires Plain(rule) && Plain(other) && (other == rule || !HasKey(text, other))
    ensures !HasKey(Rewrite(text, rule), other)
  {
    hide AreKeys;
    var cuts := RewriteReplacesKeys(text, rule);
    var all := Rewrite(text, rule);
    if HasKey(all, other) {
      var i: nat, n: nat :| IsKey(all, i, n, other);
      var k :| 0 <= k < |other.prefixes| && IsKeyBy(all, i, n, other.prefixes[k], other);
      var at, m := KeyWasThere(text, 0, cuts, i, n, other.prefixes[k], other);
      assert IsKey(text, at, m, other);
      AllCovered(text, cuts, rule, at, m);
      assert false;
    }
  }

  lemma AllCovered(text: string, cuts: seq<Cut>, rule: KeyRule, at: nat, m: nat)
    requires AreKeys(text, 0, cuts, rule)
    ensures IsKey(text, at, m, rule) ==> Covered(at, cuts)
  {
  }

  lemma CutIsKey(text: string, cuts: seq<Cut>, rule: KeyRule)
    requires AreKeys(text, 0, cuts, rule) && cuts != []
    ensures HasKey(text, rule)
  {
    assert IsKey(text, cuts[0].start, cuts[0].length, rule);
  }

  /** A text without keys of a rule is left as it is. */
  lemma NothingToReplace(text: string, rule: KeyRule)
    requires Plain(rule) && !HasKey(text, rule)
    ensures Rewrite(text, rule) == text
  {
    var cuts := RewriteReplacesKeys(text, rule);
    if cuts != [] { CutIsKey(text, cuts, rule); }
    assert text[0..] == text;
  }

  ghost predicate NoKeys(text: string, rules: seq<KeyRule>)
  {
    forall k :: 0 <= k < |rules| ==> !HasKey(text, rules[k])
  }

  ghost predicate AllPlain(rules: seq<KeyRule>)
  {
    forall k :: 0 <= k < |rules| ==> Plain(rules[k])
  }

  lemma {:induction false} AbsenceIsKept(text: string, rules: seq<KeyRule>, other: KeyRule)
    requires AllPlain(rules) && Plain(other) && !HasKey(text, other)
    ensures !HasKey(RewriteAll(text, rules), other)
    decreases |rules|
  {
    hide HasKey;
    hide Plain;
    hide Rewrite;
    if rules != [] {
      RewriteLeavesNone(text, rules[0], other);
      AbsenceIsKept(Rewrite(text, rules[0]), rules[1..], other);
    }
  }

  /** The rules, one after another, leave no key of any of them, and change nothing in a text
      that has none. */
  lemma {:induction false} NoKeyIsLeft(text: string, rules: seq<KeyRule>)
    requires AllPlain(rules)
    ensures NoKeys(RewriteAll(text, rules), rules)
    ensures NoKeys(text, rules) ==> RewriteAll(text, rules) == text
    decreases |rules|
  {
    hide HasKey;
    hide Plain;
    hide Rewrite;
    if rules != [] {
      var first, rest := rules[0], rules[1..];
      NoKeyIsLeft(Rewrite(text, first), rest);
      RewriteLeavesNone(text, first, first);
      AbsenceIsKept(Rewrite(text, first), rest, first);
      forall k | 0 <= k < |rules| ensures !HasKey(RewriteAll(text, rules), rules[k]) {
        if k > 0 { assert rules[k] == rest[k - 1]; }
      }
      if NoKeys(text, rules) {
        NothingToReplace(text, first);
        assert NoKeys(text, rest);
      }
    }
  }

  lemma EvenIsPlain(rule: KeyRule, n: nat)
    requires n > 0 && forall k :: 0 <= k < |rule.prefixes| ==> |rule.prefixes[k]| == n
    requires forall k, j :: 0 <= k < |rule.prefixes| && 0 <= j < n ==>
               rule.prefixes[k][j] != '[' && rule.prefixes[k][j] != ']'
    ensures Plain(rule)
  {
  }

  lemma KeyRulesArePlain()
    ensures AllPlain(KEY_RULES)
  {
    EvenIsPlain(KEY_RULES[0], 7);
    EvenIsPlain(KEY_RULES[1], 3);
    EvenIsPlain(KEY_RULES[2], 4);
    hide Plain;
  }

  // ---- the three rules in plain words ----

  predicate IsLetterOrDigit(c: char)
  {
    'a' <= c <= 'z' || 'A' <= c <= 'Z' || '0' <= c <= '9'
  }

  /** "sk-" and twenty letters, digits, dashes or underscores. */
  predicate LooksLikeSk(text: string, i: nat)
  {
    && i + 23 <= |text| && text[i] == 's' && text[i + 1] == 'k' && text[i + 2] == '-'
    && forall j :: i + 3 <= j < i + 23 ==> IsLetterOrDigit(text[j]) || text[j] == '-' || text[j] == '_'
  }

  /** "gh", one of p, o, u, s and r, an underscore, and twenty letters or digits. */
  predicate LooksLikeGh(text: string, i: nat)
  {
    && i + 24 <= |text| && text[i] == 'g' && text[i + 1] == 'h' && text[i + 3] == '_'
    && (text[i + 2] == 'p' || text[i + 2] == 'o' || text[i + 2] == 'u' || text[i + 2] == 's' || text[i + 2] == 'r')
    && forall j :: i + 4 <= j < i + 24 ==> IsLetterOrDigit(text[j])
  }

  predicate LooksLikeKey(text: string, i: nat)
  {
    LooksLikeSk(text, i) || LooksLikeGh(text, i)
  }

  predicate Clean(text: string)
  {
    forall i :: 0 <= i < |text| ==> !LooksLikeKey(text, i)
  }

  lemma SkIsKey(text: string, i: nat)
    requires LooksLikeSk(text, i)
    ensures HasKey(text, KEY_RULES[1])
  {
    var rule := KEY_RULES[1];
    assert text[i..i + 3] == "sk-";
    var m := LongerRun(text, i, 23, "sk-", rule);
    assert rule.prefixes[0] == "sk-";
    assert IsKey(text, i, m, rule);
  }

  lemma GhIsKey(text: string, i: nat)
    requires LooksLikeGh(text, i)
    ensures HasKey(text, KEY_RULES[2])
  {
    var rule := KEY_RULES[2];
    var k := match text[i + 2] case 'p' => 0 case 'o' => 1 case 'u' => 2 case 's' => 3 case _ => 4;
    var prefix := rule.prefixes[k];
    assert prefix == ['g', 'h', text[i + 2], '_'];
    assert text[i..i + 4] == prefix;
    var m := LongerRun(text, i, 24, prefix, rule);
    assert IsKey(text, i, m, rule);
  }

  lemma KeyLooksLikeOne(text: string, i: nat, n: nat, r: nat)
    requires r < |KEY_RULES| && IsKey(text, i, n, KEY_RULES[r])
    ensures i < |text| && LooksLikeKey(text, i)
  {
    var rule := KEY_RULES[r];
    var k :| 0 <= k < |rule.prefixes| && IsKeyBy(text, i, n, rule.prefixes[k], rule);
    var prefix := rule.prefixes[k];
    forall j | 0 <= j < |prefix| ensures text[i + j] == prefix[j] { assert text[i..i + |prefix|][j] == text[i + j]; }
    if r == 0 {
      assert prefix == "sk-ant-";
      assert forall j :: i + 3 <= j < i + 7 ==> text[j] == prefix[j - i];
    } else if r == 1 {
      assert prefix == "sk-";
    } else {
      assert prefix[0] == 'g' && prefix[1] == 'h' && prefix[3] == '_' && |prefix| == 4;
    }
  }

  /** The three rules together take out exactly what looks like a key: nothing they give out
      does, and a text without one comes through as it was. */
  lemma KeysAreTakenOut(text: string)
    ensures Clean(RewriteAll(text, KEY_RULES))
    ensures Clean(text) ==> RewriteAll(text, KEY_RULES) == text
  {
    hide KEY_RULES;
    var out := RewriteAll(text, KEY_RULES);
    KeyRulesArePlain();
    NoKeyIsLeft(text, KEY_RULES);
    NoKeysMeansClean(out);
    NoKeysMeansClean(text);
  }

  lemma NoKeysMeansClean(text: string)
    ensures NoKeys(text, KEY_RULES) <==> Clean(text)
  {
    hide LooksLikeSk;
    hide LooksLikeGh;
    hide IsKey;
    if NoKeys(text, KEY_RULES) {
      forall i | 0 <= i < |text| ensures !LooksLikeKey(text, i) {
        if LooksLikeSk(text, i) { SkIsKey(text, i); }
        if LooksLikeGh(text, i) { GhIsKey(text, i); }
      }
    } else {
      var r :| 0 <= r < |KEY_RULES| && HasKey(text, KEY_RULES[r]);
      var i: nat, n: nat :| IsKey(text, i, n, KEY_RULES[r]);
      KeyLooksLikeOne(text, i, n, r);
    }
  }
}
