/** The lexer that reads a shell line's words with quotes as the shell reads them. */
module ShellWords {
  import opened Wrappers

  /** A word after quote removal and what of it was left unquoted; an operator; a redirection
      with its descriptor. */
  datatype Token = Word(text: string, bare: string) | Op(op: string) | Redir(op: string)

  const REDIRECTIONS := ["&>>", "&>", ">>", ">&", ">|", "<&", "<>", ">", "<"]
  const OPERATORS := ["&&", "||", "|&", ";;", ";", "&", "|", "(", ")"]

  /** The tokens so far and the word in progress, which may be an empty quoted one. */
  datatype Lexer = Lexer(tokens: seq<Token>, text: string, bare: string, active: bool)
  {
    function Take(more: string): Lexer
    {
      Lexer(tokens, text + more, bare, true)
    }

    function TakeBare(c: char): Lexer
    {
      Lexer(tokens, text + [c], bare + [c], true)
    }

    function End(): Lexer
    {
      Lexer(if active then tokens + [Word(text, bare)] else tokens, "", "", false)
    }

    function Emit(t: Token): Lexer
    {
      Lexer(tokens + [t], text, bare, active)
    }
  }

  const START := Lexer([], "", "", false)

  function IndexOf(s: string, c: char): (r: Option<nat>)
    ensures r.Some? ==> r.value < |s| && s[r.value] == c && forall k :: 0 <= k < r.value ==> s[k] != c
    ensures r.None? ==> forall k :: 0 <= k < |s| ==> s[k] != c
  {
    if s == "" then None
    else if s[0] == c then Some(0)
    else
      var rest := IndexOf(s[1..], c);
      if rest.None? then None else Some(rest.value + 1)
  }

  predicate IsDigit(c: char)
  {
    '0' <= c <= '9'
  }

  predicate IsNameStart(c: char)
  {
    'a' <= c <= 'z' || 'A' <= c <= 'Z' || c == '_'
  }

  /** A word that names the descriptor the redirection after it redirects. */
  predicate IsDescriptor(text: string)
  {
    || (text != "" && forall i :: 0 <= i < |text| ==> IsDigit(text[i]))
    || (|text| >= 3 && text[0] == '{' && text[|text| - 1] == '}' && IsNameStart(text[1])
        && forall i :: 2 <= i < |text| - 1 ==> IsNameStart(text[i]) || IsDigit(text[i]))
  }

  function FirstPrefix(s: string, options: seq<string>): (r: string)
    ensures r == "" || (r in options && r <= s)
  {
    if options == [] then ""
    else if options[0] != "" && options[0] <= s then options[0]
    else FirstPrefix(s, options[1..])
  }

  /** What reading a part of the line leaves: nothing when it cannot be read. */
  datatype Read = Unreadable | Reading(state: Lexer, rest: string)

  /** Inside double quotes, one character or escape at a time. */
  function InQuotes(s: Lexer, rest: string): (r: Read)
    requires rest != "" && rest[0] != '"'
    ensures r.Reading? ==> |r.rest| < |rest|
  {
    if rest[0] == '\\' && |rest| > 1 && rest[1] in "$`\"\\" then Reading(s.Take([rest[1]]), rest[2..])
    else if rest[0] == '\\' && |rest| > 1 && rest[1] !in "\r\n" then Reading(s.Take("\\"), rest[1..])
    else if rest[0] in "\\`" || "$(" <= rest then Unreadable
    else if rest[0] == '$' then Reading(s.TakeBare('$'), rest[1..])
    else Reading(s.Take([rest[0]]), rest[1..])
  }

  /** Inside double quotes, to the closing one. */
  function DoubleQuoted(s: Lexer, rest: string): (r: Read)
    ensures r.Reading? ==> |r.rest| < |rest|
    decreases |rest|
  {
    if rest == "" then Unreadable
    else if rest[0] == '"' then Reading(s, rest[1..])
    else
      var r := InQuotes(s, rest);
      if r.Unreadable? then Unreadable else DoubleQuoted(r.state, r.rest)
  }

  /** A redirection, with the descriptor before it if the word in progress is one. */
  function Redirected(s: Lexer, rest: string): (r: Read)
    ensures r.Reading? ==> |r.rest| < |rest|
  {
    var op := FirstPrefix(rest, REDIRECTIONS);
    if "<(" <= rest || ">(" <= rest || "<<" <= rest || op == "" then Unreadable
    else if rest[0] in "<>" && s.active && s.text == s.bare && IsDescriptor(s.text) then
      Reading(Lexer(s.tokens + [Redir(s.text + op)], "", "", false), rest[|op|..])
    else Reading(s.End().Emit(Redir(op)), rest[|op|..])
  }

  function Operated(s: Lexer, rest: string): (r: Read)
    ensures r.Reading? ==> |r.rest| < |rest|
  {
    var op := FirstPrefix(rest, OPERATORS);
    if op == "" then Unreadable else Reading(s.End().Emit(Op(op)), rest[|op|..])
  }

  /** One turn of the lexer's loop. */
  function ReadOne(s: Lexer, rest: string): (r: Read)
    requires rest != ""
    ensures r.Reading? ==> |r.rest| < |rest|
  {
    var c := rest[0];
    if c in " \t" then Reading(s.End(), rest[1..])
    else if c in "\r\n" then Unreadable
    else if c == '\'' then
      var close := IndexOf(rest[1..], '\'');
      if close.None? then Unreadable
      else Reading(s.Take(rest[1..close.value + 1]), rest[close.value + 2..])
    else if c == '"' then DoubleQuoted(s.Take(""), rest[1..])
    else if c == '\\' then
      if |rest| == 1 || rest[1] in "\r\n" then Unreadable else Reading(s.Take([rest[1]]), rest[2..])
    else if c == '`' || "$(" <= rest then Unreadable
    else if c in "<>" || "&>" <= rest then Redirected(s, rest)
    else if c in "|&;()" then Operated(s, rest)
    else Reading(s.TakeBare(c), rest[1..])
  }

  function LexFrom(s: Lexer, rest: string): Option<seq<Token>>
    decreases |rest|
  {
    if rest == "" then Some(s.End().tokens)
    else
      var r := ReadOne(s, rest);
      if r.Unreadable? then None else LexFrom(r.state, r.rest)
  }

  /** The tokens of a line; none at all when it cannot be read. */
  function Tokens(command: string): seq<Token>
  {
    var lexed := LexFrom(START, command);
    if lexed.Some? then lexed.value else []
  }

  // ---- the lexer's loops ----

  method ReadDoubleQuoted(s: Lexer, command: string, from: nat) returns (r: Read)
    requires from <= |command|
    ensures r == DoubleQuoted(s, command[from..])
  {
    hide InQuotes;
    var i := from;
    var state := s;
    while true
      invariant from <= i <= |command|
      invariant DoubleQuoted(state, command[i..]) == DoubleQuoted(s, command[from..])
      decreases |command| - i
    {
      if i >= |command| { return Unreadable; }
      if command[i] == '"' {
        assert command[i..][1..] == command[i + 1..];
        return Reading(state, command[i + 1..]);
      }
      var read := ReadInQuotes(state, command, i);
      if read.Unreadable? { return Unreadable; }
      state := read.state;
      i := |command| - |read.rest|;
    }
  }

  method ReadInQuotes(s: Lexer, command: string, i: nat) returns (r: Read)
    requires i < |command| && command[i] != '"'
    ensures r == InQuotes(s, command[i..])
    ensures r.Reading? ==> |r.rest| < |command| - i && r.rest == command[|command| - |r.rest|..]
  {
    var inner := command[i];
    assert command[i..][1..] == command[i + 1..];
    if inner == '\\' && i + 1 < |command| && command[i + 1] in "$`\"\\" {
      assert command[i..][2..] == command[i + 2..];
      return Reading(s.Take([command[i + 1]]), command[i + 2..]);
    }
    if inner == '\\' && i + 1 < |command| && command[i + 1] !in "\r\n" {
      return Reading(s.Take("\\"), command[i + 1..]);
    }
    if inner in "\\`" || "$(" <= command[i..] { return Unreadable; }
    if inner == '$' { return Reading(s.TakeBare('$'), command[i + 1..]); }
    r := Reading(s.Take([inner]), command[i + 1..]);
  }

  /** One turn of the lexer's loop, at position i. */
  method ReadNext(s: Lexer, command: string, i: nat) returns (read: Read)
    requires i < |command|
    ensures read == ReadOne(s, command[i..])
  {
    hide Redirected;
    hide Operated;
    hide DoubleQuoted;
    hide IndexOf;
    var rest := command[i..];
    var c := command[i];
    if c in " \t" {
      read := Reading(s.End(), rest[1..]);
    } else if c in "\r\n" {
      read := Unreadable;
    } else if c == '\'' {
      var close := IndexOf(rest[1..], '\'');
      if close.None? { return Unreadable; }
      read := Reading(s.Take(rest[1..close.value + 1]), rest[close.value + 2..]);
    } else if c == '"' {
      assert rest[1..] == command[i + 1..];
      read := ReadDoubleQuoted(s.Take(""), command, i + 1);
    } else if c == '\\' {
      if |rest| == 1 || rest[1] in "\r\n" { return Unreadable; }
      read := Reading(s.Take([rest[1]]), rest[2..]);
    } else if c == '`' || "$(" <= rest {
      read := Unreadable;
    } else if c in "<>" || "&>" <= rest {
      read := Redirected(s, rest);
    } else if c in "|&;()" {
      read := Operated(s, rest);
    } else {
      read := Reading(s.TakeBare(c), rest[1..]);
    }
  }

  method Lex(command: string) returns (tokens: seq<Token>)
    ensures tokens == Tokens(command)
  {
    hide ReadOne;
    var i := 0;
    var s := START;
    while i < |command|
      invariant 0 <= i <= |command|
      invariant LexFrom(s, command[i..]) == LexFrom(START, command)
    {
      var read := ReadNext(s, command, i);
      if read.Unreadable? { return []; }
      SuffixOf(s, command, i);
      s := read.state;
      i := |command| - |read.rest|;
    }
    tokens := s.End().tokens;
  }

  lemma {:induction false} DoubleQuotedSuffix(s: Lexer, rest: string)
    ensures var r := DoubleQuoted(s, rest); r.Reading? ==> r.rest == rest[|rest| - |r.rest|..]
    decreases |rest|
  {
    if rest != "" && rest[0] != '"' {
      var next := InQuotes(s, rest);
      if next.Reading? {
        assert next.rest == rest[|rest| - |next.rest|..];
        hide InQuotes;
        DoubleQuotedSuffix(next.state, next.rest);
      }
    }
  }

  /** What is left after one turn is the end of the line. */
  lemma SuffixOf(s: Lexer, command: string, i: nat)
    requires i < |command|
    ensures var r := ReadOne(s, command[i..]);
            r.Reading? ==> r.rest == command[|command| - |r.rest|..]
  {
    var rest := command[i..];
    if rest[0] == '"' { DoubleQuotedSuffix(s.Take(""), rest[1..]); }
    var r := ReadOne(s, rest);
    if r.Reading? { assert r.rest == rest[|rest| - |r.rest|..]; }
  }

  // ---- quoting is undone ----

  function Escaped(word: string): string
  {
    if word == "" then ""
    else (if word[0] == '\'' then "'\\''" else [word[0]]) + Escaped(word[1..])
  }

  /** A word in single quotes, as a caller writes one. */
  function Quoted(word: string): string
  {
    "'" + Escaped(word) + "'"
  }

  function Line(words: seq<string>): string
  {
    if words == [] then ""
    else if |words| == 1 then Quoted(words[0])
    else Quoted(words[0]) + " " + Line(words[1..])
  }

  lemma {:induction false} EscapedPlain(a: string, b: string)
    requires forall k :: 0 <= k < |a| ==> a[k] != '\''
    ensures Escaped(a + b) == a + Escaped(b)
  {
    if a == "" {
      assert a + b == b;
    } else {
      assert (a + b)[1..] == a[1..] + b;
      EscapedPlain(a[1..], b);
    }
  }

  lemma FirstIndex(s: string, c: char, n: nat)
    requires n < |s| && s[n] == c && forall k :: 0 <= k < n ==> s[k] != c
    ensures IndexOf(s, c) == Some(n)
  {
    hide IndexOf;
  }

  lemma QuoteStep(s: Lexer, a: string, rest: string)
    requires forall k :: 0 <= k < |a| ==> a[k] != '\''
    ensures LexFrom(s, "'" + a + "'" + rest) == LexFrom(s.Take(a), rest)
  {
    hide IndexOf;
    hide DoubleQuoted;
    hide Redirected;
    hide Operated;
    var line := "'" + a + "'" + rest;
    assert line[1..] == a + "'" + rest;
    FirstIndex(line[1..], '\'', |a|);
    assert line[1..|a| + 1] == a && line[|a| + 2..] == rest;
    assert ReadOne(s, line) == Reading(s.Take(a), rest);
  }

  lemma EscapeStep(s: Lexer, rest: string)
    ensures LexFrom(s, "\\'" + rest) == LexFrom(s.Take("'"), rest)
  {
  }

  lemma TakeTwice(s: Lexer, a: string, b: string)
    ensures s.Take(a).Take(b) == s.Take(a + b)
  {
  }

  lemma QuotedSplits(a: string, b: string)
    requires forall k :: 0 <= k < |a| ==> a[k] != '\''
    ensures Quoted(a + ("'" + b)) == "'" + a + "'" + ("\\'" + Quoted(b))
  {
    EscapedPlain(a, "'" + b);
    assert ("'" + b)[1..] == b;
  }

  lemma QuotedPlain(a: string)
    requires forall k :: 0 <= k < |a| ==> a[k] != '\''
    ensures Quoted(a) == "'" + a + "'"
  {
    EscapedPlain(a, "");
    assert a + "" == a;
  }

  /** A quoted word is read back as the word, all of it quoted. */
  lemma {:induction false} QuotedIsRead(s: Lexer, word: string, rest: string)
    ensures LexFrom(s, Quoted(word) + rest) == LexFrom(s.Take(word), rest)
    decreases |word|
  {
    hide LexFrom;
    hide Quoted;
    var k := IndexOf(word, '\'');
    hide IndexOf;
    if k.None? {
      QuotedPlain(word);
      QuoteStep(s, word, rest);
    } else {
      var a, b := word[..k.value], word[k.value + 1..];
      assert word == a + ("'" + b);
      QuotedSplits(a, b);
      var after := "\\'" + (Quoted(b) + rest);
      assert Quoted(word) + rest == "'" + a + "'" + after;
      QuoteStep(s, a, after);
      EscapeStep(s.Take(a), Quoted(b) + rest);
      QuotedIsRead(s.Take(a).Take("'"), b, rest);
      TakeTwice(s, a, "'");
      TakeTwice(s, a + "'", b);
      assert a + "'" + b == word;
    }
  }

  function AllQuoted(words: seq<string>): (r: seq<Token>)
    ensures |r| == |words|
    ensures forall i :: 0 <= i < |words| ==> r[i] == Word(words[i], "")
  {
    seq(|words|, i requires 0 <= i < |words| => Word(words[i], ""))
  }

  lemma SpaceStep(s: Lexer, rest: string)
    ensures LexFrom(s, " " + rest) == LexFrom(s.End(), rest)
  {
  }

  /** One quoted word, read from between words. */
  lemma WordIsRead(tokens: seq<Token>, word: string, rest: string)
    requires rest == "" || rest[0] == ' '
    ensures LexFrom(Lexer(tokens, "", "", false), Quoted(word) + rest)
            == LexFrom(Lexer(tokens + [Word(word, "")], "", "", false), if rest == "" then "" else rest[1..])
  {
    var s := Lexer(tokens, "", "", false);
    QuotedIsRead(s, word, rest);
    hide Quoted;
    assert "" + word == word;
    assert s.Take(word).End() == Lexer(tokens + [Word(word, "")], "", "", false);
    if rest != "" {
      assert rest == " " + rest[1..];
      SpaceStep(s.Take(word), rest[1..]);
    }
  }

  /** What follows the first word of a line. */
  function AfterFirst(words: seq<string>): string
    requires words != []
  {
    if |words| == 1 then "" else " " + Line(words[1..])
  }

  lemma LineSplits(words: seq<string>)
    requires words != []
    ensures Line(words) == Quoted(words[0]) + AfterFirst(words)
    ensures (if AfterFirst(words) == "" then "" else AfterFirst(words)[1..]) == Line(words[1..])
  {
    hide Quoted;
  }

  lemma AllQuotedCons(tokens: seq<Token>, words: seq<string>)
    requires words != []
    ensures (tokens + [Word(words[0], "")]) + AllQuoted(words[1..]) == tokens + AllQuoted(words)
  {
  }

  lemma NoLineIsRead(tokens: seq<Token>)
    ensures LexFrom(Lexer(tokens, "", "", false), "") == Some(tokens)
  {
  }

  lemma {:induction false} LineIsRead(tokens: seq<Token>, words: seq<string>)
    ensures LexFrom(Lexer(tokens, "", "", false), Line(words)) == Some(tokens + AllQuoted(words))
    decreases |words|
  {
    hide Quoted;
    hide LexFrom;
    if words == [] {
      NoLineIsRead(tokens);
      assert tokens + AllQuoted([]) == tokens;
    } else {
      LineSplits(words);
      WordIsRead(tokens, words[0], AfterFirst(words));
      LineIsRead(tokens + [Word(words[0], "")], words[1..]);
      AllQuotedCons(tokens, words);
    }
  }

  /** The lexer undoes quoting: any words, each in single quotes, come back as they were, with
      nothing in them left for the shell to expand. */
  lemma QuotingIsUndone(words: seq<string>)
    ensures Tokens(Line(words)) == AllQuoted(words)
  {
    LineIsRead([], words);
    assert [] + AllQuoted(words) == AllQuoted(words);
  }

  // ---- what is bare is part of the word ----

  predicate Subsequence(b: string, t: string)
  {
    if t == "" then b == ""
    else
      || (b != "" && b[|b| - 1] == t[|t| - 1] && Subsequence(b[..|b| - 1], t[..|t| - 1]))
      || Subsequence(b, t[..|t| - 1])
  }

  lemma {:induction false} StillWithin(b: string, t: string, more: string)
    requires Subsequence(b, t)
    ensures Subsequence(b, t + more)
  {
    if more == "" {
      assert t + more == t;
    } else {
      StillWithin(b, t, more[..|more| - 1]);
      assert (t + more)[..|t + more| - 1] == t + more[..|more| - 1];
    }
  }

  lemma BothGrow(b: string, t: string, c: char)
    requires Subsequence(b, t)
    ensures Subsequence(b + [c], t + [c])
  {
  }

  predicate WordsOk(tokens: seq<Token>)
  {
    forall i :: 0 <= i < |tokens| && tokens[i].Word? ==> Subsequence(tokens[i].bare, tokens[i].text)
  }

  predicate LexerOk(s: Lexer)
  {
    WordsOk(s.tokens) && Subsequence(s.bare, s.text)
  }

  lemma InQuotesKeeps(s: Lexer, rest: string)
    requires LexerOk(s) && rest != "" && rest[0] != '"'
    ensures var r := InQuotes(s, rest); r.Reading? ==> LexerOk(r.state)
  {
    hide Subsequence;
    if |rest| > 1 { StillWithin(s.bare, s.text, [rest[1]]); }
    StillWithin(s.bare, s.text, "\\");
    StillWithin(s.bare, s.text, [rest[0]]);
    BothGrow(s.bare, s.text, '$');
  }

  lemma {:induction false} DoubleQuotedKeeps(s: Lexer, rest: string)
    requires LexerOk(s)
    ensures var r := DoubleQuoted(s, rest); r.Reading? ==> LexerOk(r.state)
    decreases |rest|
  {
    hide InQuotes;
    hide LexerOk;
    if rest != "" && rest[0] != '"' {
      InQuotesKeeps(s, rest);
      var next := InQuotes(s, rest);
      if next.Reading? { DoubleQuotedKeeps(next.state, next.rest); }
    }
  }

  lemma OperatorKeeps(s: Lexer, rest: string)
    requires LexerOk(s) && rest != ""
    ensures Redirected(s, rest).Reading? ==> LexerOk(Redirected(s, rest).state)
    ensures Operated(s, rest).Reading? ==> LexerOk(Operated(s, rest).state)
  {
    assert Subsequence("", "");
    hide Subsequence;
    hide FirstPrefix;
    hide IsDescriptor;
  }

  lemma TakeKeeps(s: Lexer, more: string)
    requires LexerOk(s)
    ensures LexerOk(s.Take(more)) && LexerOk(s.End())
  {
    assert Subsequence("", "");
    StillWithin(s.bare, s.text, more);
    hide Subsequence;
  }

  lemma TakeBareKeeps(s: Lexer, c: char)
    requires LexerOk(s)
    ensures LexerOk(s.TakeBare(c))
  {
    BothGrow(s.bare, s.text, c);
    hide Subsequence;
  }

  lemma ReadOneKeeps(s: Lexer, rest: string)
    requires LexerOk(s) && rest != ""
    ensures var r := ReadOne(s, rest); r.Reading? ==> LexerOk(r.state)
  {
    hide LexerOk;
    hide IndexOf;
    hide DoubleQuoted;
    hide Redirected;
    hide Operated;
    TakeKeeps(s, "");
    OperatorKeeps(s, rest);
    TakeBareKeeps(s, rest[0]);
    if rest[0] == '\'' {
      var close := IndexOf(rest[1..], '\'');
      if close.Some? { TakeKeeps(s, rest[1..close.value + 1]); }
    } else if rest[0] == '"' {
      DoubleQuotedKeeps(s.Take(""), rest[1..]);
    } else if rest[0] == '\\' && |rest| > 1 {
      TakeKeeps(s, [rest[1]]);
    }
  }

  lemma {:induction false} LexKeeps(s: Lexer, rest: string)
    requires LexerOk(s)
    ensures LexFrom(s, rest).Some? ==> WordsOk(LexFrom(s, rest).value)
    decreases |rest|
  {
    hide ReadOne;
    hide Subsequence;
    if rest != "" {
      var r := ReadOne(s, rest);
      ReadOneKeeps(s, rest);
      if r.Reading? { LexKeeps(r.state, r.rest); }
    }
  }

  /** Whatever the line, the bare part of each word is a subsequence of its text. */
  lemma BareIsPartOfText(command: string)
    ensures WordsOk(Tokens(command))
  {
    LexKeeps(START, command);
  }

  // ---- nothing of an unquoted line is lost ----

  predicate IsBlank(c: char)
  {
    c in " \t"
  }

  predicate Unquoted(line: string)
  {
    forall i :: 0 <= i < |line| ==> line[i] != '\'' && line[i] != '"' && line[i] != '\\'
  }

  function Unspaced(line: string): string
  {
    if line == "" then "" else (if IsBlank(line[0]) then "" else [line[0]]) + Unspaced(line[1..])
  }

  function TextOf(t: Token): string
  {
    if t.Word? then t.text else t.op
  }

  function AllText(tokens: seq<Token>): string
  {
    if tokens == [] then "" else AllText(tokens[..|tokens| - 1]) + TextOf(tokens[|tokens| - 1])
  }

  /** Everything the lexer has read. */
  function Taken(s: Lexer): string
  {
    AllText(s.tokens) + s.text
  }

  lemma EndTakes(s: Lexer)
    requires !s.active ==> s.text == ""
    ensures Taken(s.End()) == Taken(s)
  {
    if s.active { AllTextSnoc(s.tokens, Word(s.text, s.bare)); }
  }

  lemma AllTextSnoc(tokens: seq<Token>, t: Token)
    ensures AllText(tokens + [t]) == AllText(tokens) + TextOf(t)
  {
    assert (tokens + [t])[..|tokens|] == tokens;
  }

  lemma {:induction false} UnspacedAfter(op: string, rest: string)
    requires op <= rest && forall i :: 0 <= i < |op| ==> !IsBlank(op[i])
    ensures Unspaced(rest) == op + Unspaced(rest[|op|..])
  {
    if op != "" {
      UnspacedAfter(op[1..], rest[1..]);
      assert rest[1..][|op[1..]|..] == rest[|op|..];
      assert op == [op[0]] + op[1..];
    }
  }

  predicate NoBlanks(options: seq<string>)
  {
    forall i, j :: 0 <= i < |options| && 0 <= j < |options[i]| ==> !IsBlank(options[i][j])
  }

  lemma OperatorsHaveNoBlanks()
    ensures NoBlanks(REDIRECTIONS) && NoBlanks(OPERATORS)
  {
  }

  lemma EmitTakes(s: Lexer, t: Token)
    ensures Taken(s.End().Emit(t)) == Taken(s.End()) + TextOf(t)
  {
    AllTextSnoc(s.End().tokens, t);
  }

  lemma OpTakes(s: Lexer, rest: string, op: string, options: seq<string>, t: Token)
    requires op in options && NoBlanks(options) && op <= rest
    requires !s.active ==> s.text == ""
    requires TextOf(t) == op
    ensures Taken(s.End().Emit(t)) + Unspaced(rest[|op|..]) == Taken(s) + Unspaced(rest)
  {
    hide AllText;
    hide Unspaced;
    var i :| 0 <= i < |options| && options[i] == op;
    UnspacedAfter(op, rest);
    EndTakes(s);
    EmitTakes(s, t);
    assert Taken(s) + op + Unspaced(rest[|op|..]) == Taken(s) + (op + Unspaced(rest[|op|..]));
  }

  /** What is read of an unquoted line is kept, blanks aside. */
  lemma ReadOneTakes(s: Lexer, rest: string)
    requires rest != "" && Unquoted(rest) && (!s.active ==> s.text == "")
    ensures var r := ReadOne(s, rest);
            r.Reading? ==>
              && Taken(r.state) + Unspaced(r.rest) == Taken(s) + Unspaced(rest)
              && (!r.state.active ==> r.state.text == "")
  {
    hide FirstPrefix;
    hide IsDescriptor;
    hide Unspaced;
    hide AllText;
    OperatorsHaveNoBlanks();
    hide REDIRECTIONS;
    hide OPERATORS;
    var c := rest[0];
    if c in " \t" {
      EndTakes(s);
      BlankGoes(rest);
    } else if c in "\r\n" || c == '`' || "$(" <= rest {
    } else if c in "<>" || "&>" <= rest {
      RedirectedTakes(s, rest);
    } else if c in "|&;()" {
      var op := FirstPrefix(rest, OPERATORS);
      if op != "" { OpTakes(s, rest, op, OPERATORS, Op(op)); }
    } else {
      CharTakes(s, rest);
    }
  }

  lemma BlankGoes(rest: string)
    requires rest != "" && rest[0] in " \t"
    ensures Unspaced(rest) == Unspaced(rest[1..])
  {
  }

  lemma CharTakes(s: Lexer, rest: string)
    requires rest != "" && !IsBlank(rest[0])
    ensures Taken(s.TakeBare(rest[0])) + Unspaced(rest[1..]) == Taken(s) + Unspaced(rest)
  {
    UnspacedAfter([rest[0]], rest);
    hide Unspaced;
    hide AllText;
    var all := AllText(s.tokens);
    assert (all + (s.text + [rest[0]])) + Unspaced(rest[1..]) == (all + s.text) + ([rest[0]] + Unspaced(rest[1..]));
  }

  lemma Regrouped(a: string, b: string, c: string, d: string)
    ensures (a + (b + c)) + "" + d == (a + b) + (c + d)
  {
  }

  lemma RedirectedTakes(s: Lexer, rest: string)
    requires rest != "" && (!s.active ==> s.text == "")
    ensures var r := Redirected(s, rest);
            r.Reading? ==>
              && Taken(r.state) + Unspaced(r.rest) == Taken(s) + Unspaced(rest)
              && (!r.state.active ==> r.state.text == "")
  {
    OperatorsHaveNoBlanks();
    hide FirstPrefix;
    hide IsDescriptor;
    hide Unspaced;
    hide AllText;
    var op := FirstPrefix(rest, REDIRECTIONS);
    if op != "" {
      OpTakes(s, rest, op, REDIRECTIONS, Redir(op));
      AllTextSnoc(s.tokens, Redir(s.text + op));
      var i :| 0 <= i < |REDIRECTIONS| && REDIRECTIONS[i] == op;
      UnspacedAfter(op, rest);
      Regrouped(AllText(s.tokens), s.text, op, Unspaced(rest[|op|..]));
    }
  }

  lemma {:induction false} LexTakes(s: Lexer, rest: string)
    requires Unquoted(rest) && (!s.active ==> s.text == "")
    ensures LexFrom(s, rest).Some? ==> AllText(LexFrom(s, rest).value) == Taken(s) + Unspaced(rest)
    decreases |rest|
  {
    hide ReadOne;
    if rest == "" {
      EndTakes(s);
      assert Taken(s.End()) == AllText(s.End().tokens) + "";
    } else {
      var r := ReadOne(s, rest);
      ReadOneTakes(s, rest);
      if r.Reading? {
        SuffixOf(s, rest, 0);
        assert rest[0..] == rest;
        LexTakes(r.state, r.rest);
      }
    }
  }

  /** Of a line with no quote or backslash that can be read, the tokens hold every character
      but the blanks, in order and nothing more. */
  lemma NothingIsLost(command: string)
    requires Unquoted(command) && LexFrom(START, command).Some?
    ensures AllText(Tokens(command)) == Unspaced(command)
  {
    hide LexFrom;
    hide Unspaced;
    hide Unquoted;
    LexTakes(START, command);
    assert Taken(START) == "";
    assert "" + Unspaced(command) == Unspaced(command);
  }
}
