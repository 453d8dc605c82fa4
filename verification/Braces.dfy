/** Brace expansion as the shell scan does it: a worklist that pushes to the front, against the
    recursive expansion it stands for. */
module Braces {
  import opened Wrappers

  const BRACE_LIMIT: nat := 64

  // ---- the first brace list of a word ----

  /** How deep in braces the word is before position i; a close brace outside any is text. */
  function Depth(word: string, i: nat): nat
    requires i <= |word|
  {
    if i == 0 then 0
    else
      var d := Depth(word, i - 1);
      if word[i - 1] == '{' then d + 1 else if word[i - 1] == '}' && d > 0 then d - 1 else d
  }

  /** Commas that split the list opened at a, up to position b. */
  function CommasIn(word: string, a: nat, b: nat): (r: seq<nat>)
    requires a < b <= |word|
    ensures forall k :: 0 <= k < |r| ==> a < r[k] < b
    ensures forall k, l :: 0 <= k < l < |r| ==> r[k] < r[l]
  {
    if b == a + 1 then []
    else
      CommasIn(word, a, b - 1) + if word[b - 1] == ',' && Depth(word, b - 1) == 1 then [b - 1] else []
  }

  /** Positions s and e are an outermost pair of braces with a comma of its own inside. */
  predicate IsList(word: string, s: nat, e: nat)
    requires s < e < |word|
  {
    && word[s] == '{' && Depth(word, s) == 0
    && word[e] == '}' && Depth(word, e) == 1
    && (forall k :: s < k <= e ==> Depth(word, k) >= 1)
    && CommasIn(word, s, e) != []
  }

  predicate NoListBefore(word: string, n: nat)
    requires n <= |word|
  {
    forall s, e :: 0 <= s < e < n ==> !IsList(word, s, e)
  }

  /** The list opened at start is still open before position i. */
  predicate OpenSince(word: string, start: nat, i: nat)
    requires start < i <= |word|
  {
    && word[start] == '{' && Depth(word, start) == 0
    && forall k :: start < k <= i ==> Depth(word, k) >= 1
  }

  method BraceList(word: string) returns (cuts: Option<seq<nat>>)
    ensures cuts == FirstList(word)
  {
    var depth: nat := 0;
    var start: nat := 0;
    var commas: seq<nat> := [];
    for i := 0 to |word|
      invariant depth == Depth(word, i) && NoListBefore(word, i)
      invariant depth > 0 ==> start < i && OpenSince(word, start, i) && commas == CommasIn(word, start, i)
    {
      if word[i] == '{' {
        if depth == 0 { start, commas := i, []; }
        depth := depth + 1;
      } else if word[i] == ',' && depth == 1 {
        commas := commas + [i];
      } else if word[i] == '}' && depth > 0 {
        depth := depth - 1;
        if depth == 0 {
          OneStart(word, start, i);
          if commas != [] {
            FirstListIs(word, start, i);
            return Some([start] + commas + [i]);
          }
        }
      }
    }
    NoListAtAll(word);
    cuts := None;
  }

  /** A close brace ends at most the list that has been open up to it. */
  lemma OneStart(word: string, start: nat, e: nat)
    requires start < e < |word| && OpenSince(word, start, e) && word[e] == '}' && Depth(word, e) == 1
    ensures forall s :: 0 <= s < e && IsList(word, s, e) ==> s == start
    ensures IsList(word, start, e) <==> CommasIn(word, start, e) != []
  {
  }

  function EndFrom(word: string, e: nat): (r: Option<(nat, nat)>)
    requires e <= |word|
    ensures r.Some? ==> r.value.0 < r.value.1 < |word| && e <= r.value.1 && IsList(word, r.value.0, r.value.1)
    ensures forall s, x :: 0 <= s < x < (if r.Some? then r.value.1 else |word|) && e <= x ==> !IsList(word, s, x)
    decreases |word| - e
  {
    if e == |word| then None
    else
      var s := StartOf(word, e, e);
      if s.Some? then Some((s.value, e)) else EndFrom(word, e + 1)
  }

  function StartOf(word: string, e: nat, n: nat): (r: Option<nat>)
    requires e < |word| && n <= e
    ensures r.Some? ==> r.value < n && IsList(word, r.value, e)
    ensures r.None? ==> forall s :: 0 <= s < n ==> !IsList(word, s, e)
  {
    if n == 0 then None else if IsList(word, n - 1, e) then Some(n - 1) else StartOf(word, e, n - 1)
  }

  /** Where the word's first brace list opens, splits and closes. */
  function FirstList(word: string): (cuts: Option<seq<nat>>)
    ensures cuts.Some? ==> WellCut(word, cuts.value)
  {
    var list := EndFrom(word, 0);
    if list.None? then None
    else Some([list.value.0] + CommasIn(word, list.value.0, list.value.1) + [list.value.1])
  }

  predicate WellCut(word: string, cuts: seq<nat>)
  {
    && |cuts| >= 3
    && (forall k :: 0 <= k < |cuts| ==> cuts[k] < |word|)
    && (forall k, l :: 0 <= k < l < |cuts| ==> cuts[k] < cuts[l])
    && word[cuts[0]] == '{'
  }

  lemma FirstListIs(word: string, start: nat, e: nat)
    requires start < e < |word| && IsList(word, start, e) && NoListBefore(word, e)
    requires forall s :: 0 <= s < e && IsList(word, s, e) ==> s == start
    ensures FirstList(word) == Some([start] + CommasIn(word, start, e) + [e])
  {
  }

  lemma NoListAtAll(word: string)
    requires NoListBefore(word, |word|)
    ensures FirstList(word) == None
  {
  }

  // ---- the expansion ----

  /** The words one list makes: its parts in order, each with what stands before and after. */
  function Alternatives(word: string, cuts: seq<nat>): (r: seq<string>)
    requires WellCut(word, cuts)
    ensures |r| == |cuts| - 1
  {
    var head := word[..cuts[0]];
    var tail := word[cuts[|cuts| - 1] + 1..];
    seq(|cuts| - 1, k requires 0 <= k < |cuts| - 1 => head + word[cuts[k] + 1..cuts[k + 1]] + tail)
  }

  function Opens(word: string): nat
  {
    if word == "" then 0 else Opens(word[..|word| - 1]) + if word[|word| - 1] == '{' then 1 else 0
  }

  lemma {:induction false} OpensConcat(a: string, b: string)
    ensures Opens(a + b) == Opens(a) + Opens(b)
  {
    if b == "" {
      assert a + b == a;
    } else {
      assert (a + b)[..|a + b| - 1] == a + b[..|b| - 1];
      OpensConcat(a, b[..|b| - 1]);
    }
  }

  lemma OpensSlice(word: string, a: nat, b: nat, c: nat)
    requires a <= b <= c <= |word|
    ensures Opens(word[a..c]) == Opens(word[a..b]) + Opens(word[b..c])
  {
    assert word[a..c] == word[a..b] + word[b..c];
    OpensConcat(word[a..b], word[b..c]);
  }

  /** An alternative leaves out the brace that opened its list. */
  lemma AlternativeOpens(word: string, cuts: seq<nat>, k: nat)
    requires WellCut(word, cuts) && k < |cuts| - 1
    ensures Opens(Alternatives(word, cuts)[k]) < Opens(word)
  {
    hide Opens;
    var first, last := cuts[0], cuts[|cuts| - 1];
    var head, part, tail := word[..first], word[cuts[k] + 1..cuts[k + 1]], word[last + 1..];
    var n := |word|;
    assert word == word[0..n] && head == word[0..first] && tail == word[last + 1..n];
    OpensSlice(word, 0, first, n);
    OpensSlice(word, first, first + 1, n);
    OpensSlice(word, first + 1, last + 1, n);
    OpensSlice(word, first + 1, cuts[k] + 1, last + 1);
    OpensSlice(word, cuts[k] + 1, cuts[k + 1], last + 1);
    OpensConcat(head + part, tail);
    OpensConcat(head, part);
    assert word[first..first + 1] == "{";
    OneOpen();
  }

  lemma OneOpen()
    ensures Opens("{") == 1
  {
  }

  /** A list opened and never closed, which the shell would expand in part. */
  predicate HalfOpen(live: string)
  {
    exists i, j :: 0 <= i < j < |live| && live[i] == '{' && live[j] == ','
  }

  /** A word still to expand, and its unquoted part when it was lexed. */
  datatype Item = Item(word: string, live: string)

  predicate Below(items: seq<Item>, n: nat)
  {
    forall k :: 0 <= k < |items| ==> Opens(items[k].word) < n
  }

  function Unlexed(words: seq<string>): (r: seq<Item>)
    ensures |r| == |words|
    ensures forall k :: 0 <= k < |words| ==> r[k] == Item(words[k], words[k])
  {
    seq(|words|, k requires 0 <= k < |words| => Item(words[k], words[k]))
  }

  /** The expansion, by recursion: the first list gives way to its alternatives, left to right. */
  function Expand(i: Item): (r: Option<seq<string>>)
    ensures r.Some? ==> r.value != []
    decreases Opens(i.word), 1, 0
  {
    var cuts := FirstList(i.word);
    if cuts.None? then
      if HalfOpen(i.live) then None else Some([i.word])
    else
      var items := Unlexed(Alternatives(i.word, cuts.value));
      assert Below(items, Opens(i.word)) by {
        forall k | 0 <= k < |items| ensures Opens(items[k].word) < Opens(i.word) {
          AlternativeOpens(i.word, cuts.value, k);
        }
      }
      ExpandAll(items, Opens(i.word))
  }

  function ExpandAll(items: seq<Item>, n: nat): (r: Option<seq<string>>)
    requires Below(items, n)
    ensures r.Some? ==> |r.value| >= |items|
    decreases n, 0, |items|
  {
    if items == [] then Some([])
    else Joined(Expand(items[0]), ExpandAll(items[1..], n))
  }

  lemma JoinedIsOrderly(a: Option<seq<string>>, b: Option<seq<string>>, c: Option<seq<string>>)
    ensures Joined(Joined(a, b), c) == Joined(a, Joined(b, c))
    ensures Joined(a, Some([])) == a == Joined(Some([]), a)
  {
    if a.Some? { assert a.value + [] == a.value == [] + a.value; }
    if a.Some? && b.Some? && c.Some? {
      assert (a.value + b.value) + c.value == a.value + (b.value + c.value);
    }
  }

  lemma {:induction false} BoundIsIdle(items: seq<Item>, n: nat, m: nat)
    requires Below(items, n) && Below(items, m)
    ensures ExpandAll(items, n) == ExpandAll(items, m)
  {
    if items != [] { BoundIsIdle(items[1..], n, m); }
  }

  function Joined(a: Option<seq<string>>, b: Option<seq<string>>): Option<seq<string>>
  {
    if a.None? || b.None? then None else Some(a.value + b.value)
  }

  lemma {:induction false} ExpandConcat(a: seq<Item>, b: seq<Item>, n: nat)
    requires Below(a, n) && Below(b, n)
    ensures Below(a + b, n)
    ensures ExpandAll(a + b, n) == Joined(ExpandAll(a, n), ExpandAll(b, n))
  {
    if a == [] {
      assert a + b == b;
      JoinedIsOrderly(ExpandAll(b, n), None, None);
    } else {
      assert (a + b)[1..] == a[1..] + b;
      ExpandConcat(a[1..], b, n);
      JoinedIsOrderly(Expand(a[0]), ExpandAll(a[1..], n), ExpandAll(b, n));
    }
  }

  /** The worklist does exactly the recursive expansion, in the same order, and gives up exactly
      when that has no answer or makes more than 64 words. */
  method Expansion(word: string, bare: string) returns (words: Option<seq<string>>)
    ensures words ==
              var all := Expand(Item(word, bare));
              if all.Some? && |all.value| <= BRACE_LIMIT then all else None
  {
    hide Joined;
    hide FirstList;
    ghost var all := Expand(Item(word, bare));
    ghost var n := Opens(word) + 1;
    var done: seq<string> := [];
    var todo := [Item(word, bare)];
    JoinedIsOrderly(all, None, None);
    while todo != []
      invariant Below(todo, n) && |done| + |todo| <= BRACE_LIMIT
      invariant all == Joined(Some(done), ExpandAll(todo, n))
      decreases BRACE_LIMIT - |done| - |todo|, |todo|
    {
      var item, rest := todo[0], todo[1..];
      var cuts := BraceList(item.word);
      if cuts.None? {
        if HalfOpen(item.live) {
          NoneSpoils(Some(done), ExpandAll(rest, n));
          return None;
        }
        JoinedIsOrderly(Some(done), Some([item.word]), ExpandAll(rest, n));
        JoinedTwo(done, [item.word]);
        done := done + [item.word];
        todo := rest;
      } else {
        var parts := Unlexed(Alternatives(item.word, cuts.value));
        assert todo == [item] + rest;
        SplitOne(item, rest, cuts.value, n);
        if |done| + |rest| + |cuts.value| - 1 > BRACE_LIMIT {
          JoinedLength(done, ExpandAll(parts + rest, n));
          return None;
        }
        todo := parts + rest;
      }
    }
    JoinedIsOrderly(Some(done), None, None);
    words := Some(done);
  }

  lemma NoneSpoils(a: Option<seq<string>>, b: Option<seq<string>>)
    ensures Joined(a, Joined(None, b)) == None
  {
  }

  lemma JoinedTwo(a: seq<string>, b: seq<string>)
    ensures Joined(Some(a), Some(b)) == Some(a + b)
  {
  }

  lemma JoinedLength(a: seq<string>, b: Option<seq<string>>)
    ensures Joined(Some(a), b).Some? ==> b.Some? && |Joined(Some(a), b).value| == |a| + |b.value|
  {
  }

  lemma SplitOne(item: Item, rest: seq<Item>, cuts: seq<nat>, n: nat)
    requires Below([item] + rest, n) && FirstList(item.word) == Some(cuts)
    ensures var parts := Unlexed(Alternatives(item.word, cuts));
            Below(parts + rest, n) && ExpandAll([item] + rest, n) == ExpandAll(parts + rest, n)
  {
    var parts := Unlexed(Alternatives(item.word, cuts));
    assert Opens(([item] + rest)[0].word) < n;
    forall k | 0 <= k < |parts| ensures Opens(parts[k].word) < Opens(item.word) {
      AlternativeOpens(item.word, cuts, k);
    }
    assert ([item] + rest)[1..] == rest;
    assert Below(rest, n);
    BoundIsIdle(parts, Opens(item.word), n);
    ExpandConcat(parts, rest, n);
  }
}
