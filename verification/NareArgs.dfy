/** The arguments a benchmark passes to a run, read with the contract and without it, and the
    key they make. */
module NareArgs {
  import opened Wrappers

  /** A flag and its value, if it has one. */
  datatype Pair = Pair(flag: string, value: Option<string>)

  datatype FlagSpec = FlagSpec(takesValue: bool, choices: Option<seq<string>>)

  /** What a list is checked against: nare's flags, the flags refused in this list, the tokens
      that can be recorded, and the tool names. */
  datatype Contract = Contract(
    flags: map<string, FlagSpec>, refused: string -> bool, encodes: string -> bool, toolsOk: seq<Pair> -> bool)

  predicate IsDashed(token: string)
  {
    token != "" && token[0] == '-'
  }

  function Equals(token: string): (r: Option<nat>)
    ensures r.Some? ==> r.value < |token| && token[r.value] == '=' && forall k :: 0 <= k < r.value ==> token[k] != '='
    ensures r.None? ==> forall k :: 0 <= k < |token| ==> token[k] != '='
  {
    if token == "" then None
    else if token[0] == '=' then Some(0)
    else
      var rest := Equals(token[1..]);
      if rest.None? then None else Some(rest.value + 1)
  }

  /** What a token says of itself: its flag, and its value when that is written with `=`. */
  function Partition(token: string): Pair
  {
    var at := Equals(token);
    if at.None? then Pair(token, None) else Pair(token[..at.value], Some(token[at.value + 1..]))
  }

  predicate HasValueAt(tokens: seq<string>, i: nat)
  {
    i < |tokens| && !IsDashed(tokens[i])
  }

  // ---- with the contract ----

  /** The pair at token i and where the next begins, unless it is refused. */
  function CheckOne(tokens: seq<string>, i: nat, c: Contract): (r: Option<(Pair, nat)>)
    requires i < |tokens|
    ensures r.Some? ==> i < r.value.1 <= |tokens|
  {
    var token := tokens[i];
    var said := Partition(token);
    if !IsDashed(token) || token == "-" || token == "--" then None
    else if c.refused(said.flag) || said.flag !in c.flags then None
    else
      var spec := c.flags[said.flag];
      if !spec.takesValue then
        if said.value.Some? then None else Some((said, i + 1))
      else if said.value.None? && !HasValueAt(tokens, i + 1) then None
      else
        var value := if said.value.Some? then said.value.value else tokens[i + 1];
        if spec.choices.Some? && value !in spec.choices.value then None
        else Some((Pair(said.flag, Some(value)), if said.value.Some? then i + 1 else i + 2))
  }

  function CheckFrom(tokens: seq<string>, i: nat, found: seq<Pair>, c: Contract): Option<seq<Pair>>
    requires i <= |tokens|
    decreases |tokens| - i
  {
    if i == |tokens| then Some(found)
    else
      var one := CheckOne(tokens, i, c);
      if one.None? then None else CheckFrom(tokens, one.value.1, found + [one.value.0], c)
  }

  /** The pairs of a list the runner accepts. */
  function Checked(tokens: seq<string>, c: Contract): Option<seq<Pair>>
  {
    var found := CheckFrom(tokens, 0, [], c);
    if (exists i :: 0 <= i < |tokens| && !c.encodes(tokens[i])) || found.None? || !c.toolsOk(found.value) then None
    else found
  }

  method CheckArgs(tokens: seq<string>, c: Contract) returns (found: Option<seq<Pair>>)
    ensures found == Checked(tokens, c)
  {
    for k := 0 to |tokens|
      invariant forall i :: 0 <= i < k ==> c.encodes(tokens[i])
    {
      if !c.encodes(tokens[k]) { return None; }
    }
    var list: seq<Pair> := [];
    var i := 0;
    while i < |tokens|
      invariant 0 <= i <= |tokens|
      invariant CheckFrom(tokens, i, list, c) == CheckFrom(tokens, 0, [], c)
    {
      var one := CheckOne(tokens, i, c);
      if one.None? { return None; }
      list := list + [one.value.0];
      i := one.value.1;
    }
    if !c.toolsOk(list) { return None; }
    found := Some(list);
  }

  // ---- without it ----

  function PairAt(tokens: seq<string>, i: nat): (r: (Pair, nat))
    requires i < |tokens|
    ensures i < r.1 <= |tokens|
  {
    var said := Partition(tokens[i]);
    if said.value.Some? then (said, i + 1)
    else if HasValueAt(tokens, i + 1) then (Pair(said.flag, Some(tokens[i + 1])), i + 2)
    else (said, i + 1)
  }

  function PairsFrom(tokens: seq<string>, i: nat, found: seq<Pair>): seq<Pair>
    requires i <= |tokens|
    decreases |tokens| - i
  {
    if i == |tokens| then found else PairsFrom(tokens, PairAt(tokens, i).1, found + [PairAt(tokens, i).0])
  }

  function Pairs(tokens: seq<string>): seq<Pair>
  {
    PairsFrom(tokens, 0, [])
  }

  method SplitPairs(tokens: seq<string>) returns (found: seq<Pair>)
    ensures found == Pairs(tokens)
  {
    found := [];
    var i := 0;
    while i < |tokens|
      invariant 0 <= i <= |tokens|
      invariant PairsFrom(tokens, i, found) == PairsFrom(tokens, 0, [])
    {
      var said := Partition(tokens[i]);
      i := i + 1;
      if said.value.None? && i < |tokens| && !IsDashed(tokens[i]) {
        found := found + [Pair(said.flag, Some(tokens[i]))];
        i := i + 1;
      } else {
        found := found + [said];
      }
    }
  }

  lemma {:induction false} CheckedSplitsFrom(tokens: seq<string>, i: nat, found: seq<Pair>, c: Contract)
    requires i <= |tokens| && CheckFrom(tokens, i, found, c).Some?
    ensures PairsFrom(tokens, i, found) == CheckFrom(tokens, i, found, c).value
    decreases |tokens| - i
  {
    if i < |tokens| {
      var one := CheckOne(tokens, i, c);
      CheckedSplitsFrom(tokens, one.value.1, found + [one.value.0], c);
      if one.value.1 < |tokens| { assert CheckOne(tokens, one.value.1, c).Some?; }
      assert PairAt(tokens, i) == one.value;
    }
  }

  /** On every list the runner accepts, the split without the contract is the split with it. */
  lemma CheckedSplits(tokens: seq<string>, c: Contract)
    requires Checked(tokens, c).Some?
    ensures Pairs(tokens) == Checked(tokens, c).value
  {
    CheckedSplitsFrom(tokens, 0, [], c);
  }

  /** A pair nare takes: a flag it has and that is not refused, with a value exactly when the
      flag takes one, and one of its choices when it has any. */
  predicate Allowed(p: Pair, c: Contract)
  {
    && p.flag in c.flags && !c.refused(p.flag)
    && (p.value.Some? <==> c.flags[p.flag].takesValue)
    && (p.value.Some? && c.flags[p.flag].choices.Some? ==> p.value.value in c.flags[p.flag].choices.value)
  }

  lemma {:induction false} CheckedIsAllowedFrom(tokens: seq<string>, i: nat, found: seq<Pair>, c: Contract)
    requires i <= |tokens| && CheckFrom(tokens, i, found, c).Some?
    requires forall k :: 0 <= k < |found| ==> Allowed(found[k], c)
    ensures var all := CheckFrom(tokens, i, found, c).value; forall k :: 0 <= k < |all| ==> Allowed(all[k], c)
    decreases |tokens| - i
  {
    if i < |tokens| {
      var one := CheckOne(tokens, i, c);
      assert Allowed(one.value.0, c);
      CheckedIsAllowedFrom(tokens, one.value.1, found + [one.value.0], c);
    }
  }

  /** Every pair of an accepted list is one nare takes. */
  lemma CheckedIsAllowed(tokens: seq<string>, c: Contract)
    requires Checked(tokens, c).Some?
    ensures forall k :: 0 <= k < |Checked(tokens, c).value| ==> Allowed(Checked(tokens, c).value[k], c)
    ensures c.toolsOk(Checked(tokens, c).value) && forall k :: 0 <= k < |tokens| ==> c.encodes(tokens[k])
  {
    CheckedIsAllowedFrom(tokens, 0, [], c);
  }

  // ---- every spelling reads back ----

  /** A flag has a dash and no `=`; a value given as a token of its own has no dash. */
  predicate Spellable(p: Pair, joined: bool)
  {
    && IsDashed(p.flag) && Equals(p.flag).None?
    && (p.value.Some? && !joined ==> !IsDashed(p.value.value))
  }

  function Spell(p: Pair, joined: bool): seq<string>
  {
    if p.value.None? then [p.flag]
    else if joined then [p.flag + "=" + p.value.value]
    else [p.flag, p.value.value]
  }

  /** Pairs written out, each with its value joined by `=` or as the next token. */
  function SpellAll(ps: seq<Pair>, joined: seq<bool>): seq<string>
    requires |ps| == |joined|
  {
    if ps == [] then [] else Spell(ps[0], joined[0]) + SpellAll(ps[1..], joined[1..])
  }

  lemma {:induction false} EqualsAt(flag: string, value: string)
    requires Equals(flag).None?
    ensures Equals(flag + "=" + value) == Some(|flag|)
  {
    var token := flag + "=" + value;
    var at := Equals(token);
    assert token[|flag|] == '=';
    assert forall k :: 0 <= k < |flag| ==> token[k] == flag[k];
    assert !(at.value < |flag|);
  }

  lemma SpelledPair(p: Pair, joined: bool, rest: seq<string>)
    requires Spellable(p, joined) && (rest != [] ==> IsDashed(rest[0]))
    ensures PairAt(Spell(p, joined) + rest, 0) == (p, |Spell(p, joined)|)
  {
    if p.value.Some? && joined {
      var token := p.flag + "=" + p.value.value;
      EqualsAt(p.flag, p.value.value);
      assert token[..|p.flag|] == p.flag && token[|p.flag| + 1..] == p.value.value;
    }
  }

  lemma {:induction false} PairsShift(tokens: seq<string>, i: nat, j: nat, found: seq<Pair>)
    requires i <= j <= |tokens|
    ensures PairsFrom(tokens, j, found) == PairsFrom(tokens[i..], j - i, found)
    decreases |tokens| - j
  {
    if j < |tokens| {
      assert tokens[i..][j - i] == tokens[j];
      assert j + 1 < |tokens| ==> tokens[i..][j - i + 1] == tokens[j + 1];
      assert PairAt(tokens[i..], j - i) == (PairAt(tokens, j).0, PairAt(tokens, j).1 - i);
      PairsShift(tokens, i, PairAt(tokens, j).1, found + [PairAt(tokens, j).0]);
    }
  }

  lemma SpelledStartsDashed(ps: seq<Pair>, joined: seq<bool>)
    requires |ps| == |joined| && forall k :: 0 <= k < |ps| ==> Spellable(ps[k], joined[k])
    ensures SpellAll(ps, joined) != [] ==> IsDashed(SpellAll(ps, joined)[0])
  {
  }

  lemma {:induction false} SpelledFrom(ps: seq<Pair>, joined: seq<bool>, found: seq<Pair>)
    requires |ps| == |joined| && forall k :: 0 <= k < |ps| ==> Spellable(ps[k], joined[k])
    ensures PairsFrom(SpellAll(ps, joined), 0, found) == found + ps
  {
    hide Spell;
    hide Spellable;
    hide PairAt;
    if ps == [] {
      assert found + ps == found;
    } else {
      var first := Spell(ps[0], joined[0]);
      var rest := SpellAll(ps[1..], joined[1..]);
      SpelledStartsDashed(ps[1..], joined[1..]);
      SpelledPair(ps[0], joined[0], rest);
      PairsShift(first + rest, |first|, |first|, found + [ps[0]]);
      assert (first + rest)[|first|..] == rest;
      SpelledFrom(ps[1..], joined[1..], found + [ps[0]]);
      assert found + [ps[0]] + ps[1..] == found + ps;
    }
  }

  /** However each value is spelled, the split reads the same pairs. */
  lemma SpellingReadsBack(ps: seq<Pair>, joined: seq<bool>)
    requires |ps| == |joined| && forall k :: 0 <= k < |ps| ==> Spellable(ps[k], joined[k])
    ensures Pairs(SpellAll(ps, joined)) == ps
  {
    SpelledFrom(ps, joined, []);
    assert [] + ps == ps;
  }

  // ---- what is accepted ----

  /** A pair nare takes, so spelled that its flag is seen: a lone dash or two is no flag. */
  predicate Takes(p: Pair, joined: bool, c: Contract)
  {
    && Allowed(p, c) && Spellable(p, joined)
    && (p.value.None? || !joined ==> p.flag != "-" && p.flag != "--")
  }

  /** The list spells out these pairs, each one nare takes, and can be recorded. */
  ghost predicate Spells(tokens: seq<string>, ps: seq<Pair>, joined: seq<bool>, c: Contract)
  {
    && |ps| == |joined| && tokens == SpellAll(ps, joined)
    && (forall k :: 0 <= k < |ps| ==> Takes(ps[k], joined[k], c))
    && c.toolsOk(ps) && forall k :: 0 <= k < |tokens| ==> c.encodes(tokens[k])
  }

  lemma OneIsSpelled(tokens: seq<string>, i: nat, c: Contract) returns (joined: bool)
    requires i < |tokens| && CheckOne(tokens, i, c).Some?
    ensures var one := CheckOne(tokens, i, c).value;
            Takes(one.0, joined, c) && tokens[i..one.1] == Spell(one.0, joined)
  {
    var said := Partition(tokens[i]);
    joined := said.value.Some?;
    var at := Equals(tokens[i]);
    if joined {
      var token := tokens[i];
      assert token == token[..at.value] + "=" + token[at.value + 1..];
      assert Equals(token[..at.value]).None?;
    }
  }

  lemma {:induction false} CheckedIsSpelled(tokens: seq<string>, i: nat, found: seq<Pair>, c: Contract)
    returns (ps: seq<Pair>, joined: seq<bool>)
    requires i <= |tokens| && CheckFrom(tokens, i, found, c).Some?
    ensures |ps| == |joined| && tokens[i..] == SpellAll(ps, joined)
    ensures CheckFrom(tokens, i, found, c) == Some(found + ps)
    ensures forall k :: 0 <= k < |ps| ==> Takes(ps[k], joined[k], c)
    decreases |tokens| - i
  {
    hide Takes;
    hide Spell;
    hide CheckOne;
    if i == |tokens| {
      ps, joined := [], [];
      assert found + ps == found;
    } else {
      var one := CheckOne(tokens, i, c).value;
      var how := OneIsSpelled(tokens, i, c);
      var rest, hows := CheckedIsSpelled(tokens, one.1, found + [one.0], c);
      ps, joined := [one.0] + rest, [how] + hows;
      assert ps[1..] == rest && joined[1..] == hows;
      assert tokens[i..] == tokens[i..one.1] + tokens[one.1..];
      assert found + [one.0] + rest == found + ps;
    }
  }

  lemma SpelledOne(tokens: seq<string>, i: nat, p: Pair, joined: bool, rest: seq<string>, c: Contract)
    requires i <= |tokens| && Takes(p, joined, c) && tokens[i..] == Spell(p, joined) + rest
    requires rest != [] ==> IsDashed(rest[0])
    ensures i < |tokens| && CheckOne(tokens, i, c) == Some((p, i + |Spell(p, joined)|))
    ensures tokens[i + |Spell(p, joined)|..] == rest
  {
    var spelled := Spell(p, joined);
    assert tokens[i] == tokens[i..][0] == spelled[0];
    assert i + 1 < |tokens| ==> tokens[i + 1] == tokens[i..][1];
    assert (spelled + rest)[|spelled|..] == rest;
    if p.value.Some? && joined {
      EqualsAt(p.flag, p.value.value);
      var token := p.flag + "=" + p.value.value;
      assert token[..|p.flag|] == p.flag && token[|p.flag| + 1..] == p.value.value;
      assert token[|p.flag|] == '=';
    }
  }

  lemma {:induction false} SpelledIsChecked(
    tokens: seq<string>, i: nat, found: seq<Pair>, ps: seq<Pair>, joined: seq<bool>, c: Contract)
    requires i <= |tokens| && |ps| == |joined| && tokens[i..] == SpellAll(ps, joined)
    requires forall k :: 0 <= k < |ps| ==> Takes(ps[k], joined[k], c)
    ensures CheckFrom(tokens, i, found, c) == Some(found + ps)
    decreases |ps|
  {
    hide Spell;
    hide CheckOne;
    if ps == [] {
      assert found + ps == found;
    } else {
      SpelledStartsDashed(ps[1..], joined[1..]);
      SpelledOne(tokens, i, ps[0], joined[0], SpellAll(ps[1..], joined[1..]), c);
      SpelledIsChecked(tokens, i + |Spell(ps[0], joined[0])|, found + [ps[0]], ps[1..], joined[1..], c);
      assert found + [ps[0]] + ps[1..] == found + ps;
    }
  }

  /** A list is accepted exactly when it spells out pairs nare takes, and those are the pairs
      it is read as. */
  lemma CheckedExactlyWhenSpelled(tokens: seq<string>, c: Contract)
    ensures Checked(tokens, c).Some? <==> exists ps, joined :: Spells(tokens, ps, joined, c)
    ensures forall ps, joined :: Spells(tokens, ps, joined, c) ==> Checked(tokens, c) == Some(ps)
  {
    hide CheckFrom;
    hide Takes;
    hide SpellAll;
    assert tokens[0..] == tokens;
    forall ps, joined | Spells(tokens, ps, joined, c) ensures Checked(tokens, c) == Some(ps) {
      SpelledIsChecked(tokens, 0, [], ps, joined, c);
      assert [] + ps == ps;
    }
    if Checked(tokens, c).Some? {
      var ps, joined := CheckedIsSpelled(tokens, 0, [], c);
      assert [] + ps == ps;
      assert Spells(tokens, ps, joined, c);
    }
  }

  // ---- the key ----

  /** The order of strings by code point. */
  predicate AtMost(a: string, b: string)
  {
    a == "" || (b != "" && (a[0] < b[0] || (a[0] == b[0] && AtMost(a[1..], b[1..]))))
  }

  lemma {:induction false} AtMostOrders(a: string, b: string)
    ensures AtMost(a, b) || AtMost(b, a)
    ensures AtMost(a, b) && AtMost(b, a) ==> a == b
  {
    if a != "" && b != "" && a[0] == b[0] {
      AtMostOrders(a[1..], b[1..]);
      assert a == [a[0]] + a[1..] && b == [b[0]] + b[1..];
    }
  }

  lemma {:induction false} AtMostChains(a: string, b: string, c: string)
    requires AtMost(a, b) && AtMost(b, c)
    ensures AtMost(a, c)
  {
    if a != "" && a[0] == b[0] && b[0] == c[0] { AtMostChains(a[1..], b[1..], c[1..]); }
  }

  predicate Ordered(ps: seq<Pair>)
  {
    forall i, j :: 0 <= i < j < |ps| ==> AtMost(ps[i].flag, ps[j].flag)
  }

  /** The values a flag is given, in order. */
  function ValuesOf(ps: seq<Pair>, flag: string): seq<Option<string>>
  {
    if ps == [] then []
    else (if ps[0].flag == flag then [ps[0].value] else []) + ValuesOf(ps[1..], flag)
  }

  /** A stable insertion: before the first pair with a greater or equal flag. */
  function Insert(p: Pair, ps: seq<Pair>): (r: seq<Pair>)
    ensures |r| == |ps| + 1
  {
    if ps == [] || AtMost(p.flag, ps[0].flag) then [p] + ps else [ps[0]] + Insert(p, ps[1..])
  }

  /** A stable sort by flag name. */
  function Sorted(ps: seq<Pair>): seq<Pair>
  {
    if ps == [] then [] else Insert(ps[0], Sorted(ps[1..]))
  }

  lemma {:induction false} InsertValues(p: Pair, ps: seq<Pair>, flag: string)
    ensures ValuesOf(Insert(p, ps), flag) == ValuesOf([p] + ps, flag)
  {
    assert ([p] + ps)[1..] == ps;
    if ps != [] && !AtMost(p.flag, ps[0].flag) {
      AtMostOrders(p.flag, p.flag);
      InsertValues(p, ps[1..], flag);
      assert ([p] + ps[1..])[1..] == ps[1..];
      assert Insert(p, ps)[1..] == Insert(p, ps[1..]);
    }
  }

  lemma {:induction false} InsertOrdered(p: Pair, ps: seq<Pair>)
    requires Ordered(ps)
    ensures Ordered(Insert(p, ps))
    ensures forall q :: q in Insert(p, ps) ==> q == p || q in ps
  {
    if ps == [] {
    } else if AtMost(p.flag, ps[0].flag) {
      forall j | 0 <= j < |ps| ensures AtMost(p.flag, ps[j].flag) {
        if j > 0 { AtMostChains(p.flag, ps[0].flag, ps[j].flag); }
      }
    } else {
      AtMostOrders(p.flag, ps[0].flag);
      InsertOrdered(p, ps[1..]);
      var rest := Insert(p, ps[1..]);
      forall j | 0 <= j < |rest| ensures AtMost(ps[0].flag, rest[j].flag) {
        assert rest[j] in rest;
      }
    }
  }

  lemma {:induction false} SortedIsStable(ps: seq<Pair>, flag: string)
    ensures Ordered(Sorted(ps))
    ensures ValuesOf(Sorted(ps), flag) == ValuesOf(ps, flag)
  {
    if ps != [] {
      SortedIsStable(ps[1..], flag);
      InsertOrdered(ps[0], Sorted(ps[1..]));
      InsertValues(ps[0], Sorted(ps[1..]), flag);
      assert ([ps[0]] + Sorted(ps[1..]))[1..] == Sorted(ps[1..]);
    }
  }

  lemma {:induction false} NoneOf(ps: seq<Pair>, flag: string)
    requires forall i :: 0 <= i < |ps| ==> ps[i].flag != flag
    ensures ValuesOf(ps, flag) == []
  {
    if ps != [] { NoneOf(ps[1..], flag); }
  }

  /** Of two ordered lists with the same values per flag, neither opens with a lesser flag. */
  lemma OpensAlike(a: seq<Pair>, b: seq<Pair>)
    requires Ordered(a) && Ordered(b) && a != [] && forall flag :: ValuesOf(a, flag) == ValuesOf(b, flag)
    ensures b != [] && AtMost(b[0].flag, a[0].flag)
  {
    var flag := a[0].flag;
    assert ValuesOf(a, flag) != [] && ValuesOf(b, flag) == ValuesOf(a, flag);
    AtMostOrders(flag, flag);
    assert forall i :: 0 < i < |b| ==> AtMost(b[0].flag, b[i].flag);
    if b == [] || !AtMost(b[0].flag, flag) { NoneOf(b, flag); }
  }

  lemma ValuesRest(a: seq<Pair>, b: seq<Pair>, flag: string)
    requires a != [] && b != [] && a[0] == b[0] && ValuesOf(a, flag) == ValuesOf(b, flag)
    ensures ValuesOf(a[1..], flag) == ValuesOf(b[1..], flag)
  {
    if a[0].flag == flag {
      assert ValuesOf(a, flag)[1..] == ValuesOf(a[1..], flag);
      assert ValuesOf(b, flag)[1..] == ValuesOf(b[1..], flag);
    } else {
      assert ValuesOf(a, flag) == ValuesOf(a[1..], flag) && ValuesOf(b, flag) == ValuesOf(b[1..], flag);
    }
  }

  /** An ordered list is determined by the values of each flag. */
  lemma {:induction false} OrderedIsCanonical(a: seq<Pair>, b: seq<Pair>)
    requires Ordered(a) && Ordered(b) && forall flag :: ValuesOf(a, flag) == ValuesOf(b, flag)
    ensures a == b
  {
    if a == [] {
      if b != [] { OpensAlike(b, a); }
    } else {
      OpensAlike(a, b);
      OpensAlike(b, a);
      AtMostOrders(a[0].flag, b[0].flag);
      assert ValuesOf(a, a[0].flag)[0] == a[0].value && ValuesOf(b, a[0].flag)[0] == b[0].value;
      forall flag ensures ValuesOf(a[1..], flag) == ValuesOf(b[1..], flag) { ValuesRest(a, b, flag); }
      OrderedIsCanonical(a[1..], b[1..]);
      assert a == [a[0]] + a[1..] && b == [b[0]] + b[1..];
    }
  }

  const HOST_FILE_FLAGS := {"--system-file", "--append-system-file"}

  /** A host file is known by its digest. */
  function Keyed(p: Pair, files: map<string, string>): Pair
  {
    if p.flag in HOST_FILE_FLAGS && p.value.Some? && p.value.value in files then
      Pair(p.flag, Some(files[p.value.value]))
    else p
  }

  function KeyedAll(ps: seq<Pair>, files: map<string, string>): (r: seq<Pair>)
    ensures |r| == |ps| && forall i :: 0 <= i < |ps| ==> r[i] == Keyed(ps[i], files)
  {
    seq(|ps|, i requires 0 <= i < |ps| => Keyed(ps[i], files))
  }

  /** The key two sets of results compare under. */
  function Variant(args: seq<string>, files: map<string, string>): seq<Pair>
  {
    Sorted(KeyedAll(Pairs(args), files))
  }

  /** The key is canonical: two lists have one key exactly when each flag is given the same
      values in the same order, whatever stands between them. */
  lemma VariantIsCanonical(a: seq<string>, aFiles: map<string, string>, b: seq<string>, bFiles: map<string, string>)
    ensures Variant(a, aFiles) == Variant(b, bFiles)
            <==> SameValues(KeyedAll(Pairs(a), aFiles), KeyedAll(Pairs(b), bFiles))
  {
    SortedIsCanonical(KeyedAll(Pairs(a), aFiles), KeyedAll(Pairs(b), bFiles));
  }

  ghost predicate SameValues(x: seq<Pair>, y: seq<Pair>)
  {
    forall flag :: ValuesOf(x, flag) == ValuesOf(y, flag)
  }

  lemma SortedIsCanonical(x: seq<Pair>, y: seq<Pair>)
    ensures Sorted(x) == Sorted(y) <==> SameValues(x, y)
  {
    hide Sorted;
    hide ValuesOf;
    forall flag
      ensures ValuesOf(Sorted(x), flag) == ValuesOf(x, flag) && ValuesOf(Sorted(y), flag) == ValuesOf(y, flag)
    {
      SortedIsStable(x, flag);
      SortedIsStable(y, flag);
    }
    SortedIsStable(x, "");
    SortedIsStable(y, "");
    if SameValues(x, y) {
      OrderedIsCanonical(Sorted(x), Sorted(y));
    }
    if Sorted(x) == Sorted(y) {
      forall flag ensures ValuesOf(x, flag) == ValuesOf(y, flag) {
        assert ValuesOf(Sorted(x), flag) == ValuesOf(Sorted(y), flag);
      }
    }
  }
}
