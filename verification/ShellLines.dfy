/** Shell lines built piece by piece from words, operators and redirections, and what the lexer
    reads of them. */
module ShellLines {
  import opened Wrappers
  import opened ShellWords

  /** Part of a double-quoted string: a character that stands for itself, escaped where it has
      to be; a dollar left for the shell to expand; a backslash kept before ordinary text. */
  datatype Part = Literal(c: char) | Expand | Kept

  /** Part of a word. */
  datatype Piece = Plain(c: char) | Dollar | Single(s: string) | Escape(c: char) | Double(parts: seq<Part>)

  /** An item of a line. */
  datatype Item = AWord(pieces: seq<Piece>) | Operator(op: string) | Redirect(fd: string, op: string)

  // ---- what may be written ----

  predicate MustEscape(c: char)
  {
    c == '$' || c == '`' || c == '"' || c == '\\'
  }

  predicate PartOk(part: Part, next: Option<Part>)
  {
    match part
    case Literal(_) => true
    case Expand => next != Some(Literal('('))
    case Kept => next.Some? && next.value.Literal? && !MustEscape(next.value.c) && next.value.c !in "\r\n"
  }

  function Next(parts: seq<Part>, i: nat): Option<Part>
  {
    if i + 1 < |parts| then Some(parts[i + 1]) else None
  }

  predicate PartsOk(parts: seq<Part>)
  {
    forall i :: 0 <= i < |parts| ==> PartOk(parts[i], Next(parts, i))
  }

  /** A character that means nothing to the shell. */
  predicate IsPlain(c: char)
  {
    && c != ' ' && c != '\t' && c != '\r' && c != '\n' && c != '\'' && c != '"' && c != '\\' && c != '`' && c != '$'
    && c != '<' && c != '>' && c != '|' && c != '&' && c != ';' && c != '(' && c != ')'
  }

  predicate PieceOk(p: Piece)
  {
    match p
    case Plain(c) => IsPlain(c)
    case Dollar => true
    case Single(s) => forall k :: 0 <= k < |s| ==> s[k] != '\''
    case Escape(c) => c != '\r' && c != '\n'
    case Double(parts) => PartsOk(parts)
  }

  predicate ItemOk(item: Item)
  {
    match item
    case AWord(pieces) => pieces != [] && forall i :: 0 <= i < |pieces| ==> PieceOk(pieces[i])
    case Operator(op) => op in OPERATORS
    case Redirect(fd, op) =>
      op in REDIRECTIONS && (fd == "" || (IsDescriptor(fd) && op != "&>>" && op != "&>"))
  }

  // ---- how it is written, and what it says ----

  function PrintPart(part: Part): string
  {
    match part
    case Literal(c) => if MustEscape(c) then ['\\', c] else [c]
    case Expand => "$"
    case Kept => "\\"
  }

  function PartText(part: Part): string
  {
    match part
    case Literal(c) => [c]
    case Expand => "$"
    case Kept => "\\"
  }

  function PrintParts(parts: seq<Part>): string
  {
    if parts == [] then "" else PrintPart(parts[0]) + PrintParts(parts[1..])
  }

  function PartsText(parts: seq<Part>): string
  {
    if parts == [] then "" else PartText(parts[0]) + PartsText(parts[1..])
  }

  /** Only an expansion is left for the shell. */
  function PartsBare(parts: seq<Part>): string
  {
    if parts == [] then "" else (if parts[0].Expand? then "$" else "") + PartsBare(parts[1..])
  }

  function PrintPiece(p: Piece): string
  {
    match p
    case Plain(c) => [c]
    case Dollar => "$"
    case Single(s) => "'" + s + "'"
    case Escape(c) => ['\\', c]
    case Double(parts) => "\"" + PrintParts(parts) + "\""
  }

  function PieceText(p: Piece): string
  {
    match p
    case Plain(c) => [c]
    case Dollar => "$"
    case Single(s) => s
    case Escape(c) => [c]
    case Double(parts) => PartsText(parts)
  }

  function PieceBare(p: Piece): string
  {
    match p
    case Plain(c) => [c]
    case Dollar => "$"
    case Single(_) => ""
    case Escape(_) => ""
    case Double(parts) => PartsBare(parts)
  }

  function PrintPieces(pieces: seq<Piece>): string
  {
    if pieces == [] then "" else PrintPiece(pieces[0]) + PrintPieces(pieces[1..])
  }

  function PiecesText(pieces: seq<Piece>): string
  {
    if pieces == [] then "" else PieceText(pieces[0]) + PiecesText(pieces[1..])
  }

  function PiecesBare(pieces: seq<Piece>): string
  {
    if pieces == [] then "" else PieceBare(pieces[0]) + PiecesBare(pieces[1..])
  }

  function PrintItem(item: Item): string
  {
    match item
    case AWord(pieces) => PrintPieces(pieces)
    case Operator(op) => op
    case Redirect(fd, op) => fd + op
  }

  function Meaning(item: Item): Token
  {
    match item
    case AWord(pieces) => Word(PiecesText(pieces), PiecesBare(pieces))
    case Operator(op) => Op(op)
    case Redirect(fd, op) => Redir(fd + op)
  }

  /** The items, each followed by a blank. */
  function PrintLine(items: seq<Item>): string
  {
    if items == [] then "" else PrintItem(items[0]) + " " + PrintLine(items[1..])
  }

  function Meanings(items: seq<Item>): (r: seq<Token>)
    ensures |r| == |items|
    ensures forall i :: 0 <= i < |items| ==> r[i] == Meaning(items[i])
  {
    seq(|items|, i requires 0 <= i < |items| => Meaning(items[i]))
  }

  // ---- double quotes ----

  function TookParts(s: Lexer, parts: seq<Part>): Lexer
  {
    Lexer(s.tokens, s.text + PartsText(parts), s.bare + PartsBare(parts), true)
  }

  function TookPart(s: Lexer, part: Part): Lexer
  {
    Lexer(s.tokens, s.text + PartText(part), s.bare + if part.Expand? then "$" else "", true)
  }

  /** One part, whatever follows it that may. */
  lemma PartIsRead(s: Lexer, part: Part, rest: string)
    requires s.active && rest != ""
    requires part.Expand? ==> rest[0] != '('
    requires part.Kept? ==> !MustEscape(rest[0]) && rest[0] !in "\r\n"
    ensures var line := PrintPart(part) + rest;
            && line[0] != '"'
            && InQuotes(s, line)
               == Reading(TookPart(s, part), rest)
  {
    var line := PrintPart(part) + rest;
    assert |line| > 1;
    match part
    case Literal(c) =>
      if MustEscape(c) {
        assert line[0] == '\\' && line[1] == c && line[2..] == rest;
      } else {
        assert line[0] == c && line[1..] == rest;
      }
    case Expand => assert line[0] == '$' && line[1] == rest[0] && line[1..] == rest;
    case Kept => assert line[0] == '\\' && line[1] == rest[0] && line[1..] == rest;
  }

  /** What a later part starts with. */
  lemma PartStarts(part: Part, rest: string)
    ensures var line := PrintPart(part) + rest;
            && line != ""
            && (part != Literal('(') ==> line[0] != '(')
            && (part.Literal? && !MustEscape(part.c) ==> line[0] == part.c)
  {
  }

  lemma {:induction false} PartsAreRead(s: Lexer, parts: seq<Part>, rest: string)
    requires s.active && PartsOk(parts)
    ensures DoubleQuoted(s, PrintParts(parts) + "\"" + rest) == Reading(TookParts(s, parts), rest)
    decreases |parts|
  {
    hide InQuotes;
    hide PrintPart;
    hide PartText;
    hide PartsOk;
    var tail := "\"" + rest;
    if parts == [] {
      assert PrintParts(parts) + "\"" + rest == tail;
      assert tail[1..] == rest;
      assert s.text + "" == s.text && s.bare + "" == s.bare;
    } else {
      var more := PrintParts(parts[1..]) + tail;
      assert PrintParts(parts) + "\"" + rest == PrintPart(parts[0]) + more;
      assert PrintParts(parts[1..]) + "\"" + rest == more;
      NextStarts(parts, tail);
      PartIsRead(s, parts[0], more);
      RestOk(parts);
      PartsAreRead(TookPart(s, parts[0]), parts[1..], rest);
      TookOneMore(s, parts);
    }
  }

  lemma TookOneMore(s: Lexer, parts: seq<Part>)
    requires parts != []
    ensures TookParts(TookPart(s, parts[0]), parts[1..]) == TookParts(s, parts)
  {
    hide PartText;
    Joins(s.text, PartText(parts[0]), PartsText(parts[1..]));
    Joins(s.bare, if parts[0].Expand? then "$" else "", PartsBare(parts[1..]));
  }

  lemma Joins(a: string, b: string, c: string)
    ensures a + b + c == a + (b + c)
  {
  }

  lemma RestOk(parts: seq<Part>)
    requires parts != [] && PartsOk(parts)
    ensures PartsOk(parts[1..])
  {
    var rest := parts[1..];
    forall i | 0 <= i < |rest| ensures PartOk(rest[i], Next(rest, i)) {
      assert Next(rest, i) == Next(parts, i + 1) && PartOk(parts[i + 1], Next(parts, i + 1));
    }
  }

  lemma NextStarts(parts: seq<Part>, tail: string)
    requires parts != [] && PartsOk(parts) && tail != "" && tail[0] == '"'
    ensures var more := PrintParts(parts[1..]) + tail;
            && more != ""
            && (parts[0].Expand? ==> more[0] != '(')
            && (parts[0].Kept? ==> !MustEscape(more[0]) && more[0] !in "\r\n")
  {
    hide PrintPart;
    var more := PrintParts(parts[1..]) + tail;
    assert PartOk(parts[0], Next(parts, 0));
    if |parts| > 1 {
      var rest := PrintParts(parts[1..][1..]) + tail;
      assert more == PrintPart(parts[1]) + rest;
      PartStarts(parts[1], rest);
    } else {
      assert more == tail;
    }
  }

  // ---- words ----

  function TookPiece(s: Lexer, p: Piece): Lexer
  {
    Lexer(s.tokens, s.text + PieceText(p), s.bare + PieceBare(p), true)
  }

  lemma PieceIsRead(s: Lexer, p: Piece, rest: string)
    requires PieceOk(p) && (rest == "" || rest[0] != '(')
    ensures LexFrom(s, PrintPiece(p) + rest) == LexFrom(TookPiece(s, p), rest)
  {
    match p
    case Single(t) => SingleIsRead(s, t, rest);
    case Double(parts) => DoubleIsRead(s, parts, rest);
    case Plain(c) => PlainIsRead(s, c, rest);
    case Dollar => DollarIsRead(s, rest);
    case Escape(c) => EscapeIsRead(s, c, rest);
  }

  lemma SingleIsRead(s: Lexer, t: string, rest: string)
    requires PieceOk(Single(t))
    ensures LexFrom(s, PrintPiece(Single(t)) + rest) == LexFrom(TookPiece(s, Single(t)), rest)
  {
    hide LexFrom;
    QuoteStep(s, t, rest);
    assert s.Take(t) == TookPiece(s, Single(t));
  }

  lemma DoubleIsRead(s: Lexer, parts: seq<Part>, rest: string)
    requires PieceOk(Double(parts))
    ensures LexFrom(s, PrintPiece(Double(parts)) + rest) == LexFrom(TookPiece(s, Double(parts)), rest)
  {
    hide DoubleQuoted;
    hide Redirected;
    hide Operated;
    hide PartsOk;
    var line := PrintPiece(Double(parts)) + rest;
    assert line[0] == '"' && line[1..] == PrintParts(parts) + "\"" + rest;
    PartsAreRead(s.Take(""), parts, rest);
    assert s.text + "" == s.text;
    assert TookParts(s.Take(""), parts) == TookPiece(s, Double(parts));
  }

  lemma PlainIsRead(s: Lexer, c: char, rest: string)
    requires IsPlain(c)
    ensures LexFrom(s, [c] + rest) == LexFrom(s.TakeBare(c), rest)
  {
    hide DoubleQuoted;
    hide Redirected;
    hide Operated;
    var line := [c] + rest;
    assert line[0] == c && line[1..] == rest;
    assert ReadOne(s, line) == Reading(s.TakeBare(c), rest);
  }

  lemma DollarIsRead(s: Lexer, rest: string)
    requires rest == "" || rest[0] != '('
    ensures LexFrom(s, "$" + rest) == LexFrom(s.TakeBare('$'), rest)
  {
    hide DoubleQuoted;
    hide Redirected;
    hide Operated;
    var line := "$" + rest;
    assert line[0] == '$' && line[1..] == rest;
    if rest != "" { assert line[1] == rest[0]; }
    assert ReadOne(s, line) == Reading(s.TakeBare('$'), rest);
  }

  lemma EscapeIsRead(s: Lexer, c: char, rest: string)
    requires c != '\r' && c != '\n'
    ensures LexFrom(s, ['\\', c] + rest) == LexFrom(TookPiece(s, Escape(c)), rest)
  {
    hide DoubleQuoted;
    hide Redirected;
    hide Operated;
    var line := ['\\', c] + rest;
    assert line[0] == '\\' && line[1] == c && line[2..] == rest;
    assert s.bare + "" == s.bare;
    assert ReadOne(s, line) == Reading(TookPiece(s, Escape(c)), rest);
  }

  lemma PieceStarts(p: Piece, rest: string)
    requires PieceOk(p)
    ensures PrintPiece(p) + rest != "" && (PrintPiece(p) + rest)[0] != '('
  {
  }

  lemma {:induction false} PiecesAreRead(s: Lexer, pieces: seq<Piece>, rest: string)
    requires (forall i :: 0 <= i < |pieces| ==> PieceOk(pieces[i])) && (rest == "" || rest[0] != '(')
    ensures LexFrom(s, PrintPieces(pieces) + rest)
            == LexFrom(
                 Lexer(s.tokens, s.text + PiecesText(pieces), s.bare + PiecesBare(pieces), s.active || pieces != []),
                 rest)
    decreases |pieces|
  {
    hide LexFrom;
    hide PieceOk;
    hide PrintPiece;
    hide PieceText;
    hide PieceBare;
    if pieces == [] {
      assert PrintPieces(pieces) + rest == rest;
      assert s.text + "" == s.text && s.bare + "" == s.bare;
    } else {
      var more := PrintPieces(pieces[1..]) + rest;
      assert PrintPieces(pieces) + rest == PrintPiece(pieces[0]) + more;
      if |pieces| > 1 {
        assert more == PrintPiece(pieces[1]) + (PrintPieces(pieces[1..][1..]) + rest);
        PieceStarts(pieces[1], PrintPieces(pieces[1..][1..]) + rest);
      } else {
        assert more == rest;
      }
      PieceIsRead(s, pieces[0], more);
      var s' := TookPiece(s, pieces[0]);
      PiecesAreRead(s', pieces[1..], rest);
      assert s'.text + PiecesText(pieces[1..]) == s.text + PiecesText(pieces);
      assert s'.bare + PiecesBare(pieces[1..]) == s.bare + PiecesBare(pieces);
    }
  }

  // ---- operators and redirections ----

  function Between(tokens: seq<Token>): Lexer
  {
    Lexer(tokens, "", "", false)
  }

  /** No option of the list is the start of a later one, and none holds a blank. */
  predicate LongestFirst(options: seq<string>)
  {
    && NoBlanks(options)
    && (forall i :: 0 <= i < |options| ==> options[i] != "")
    && forall i, j :: 0 <= i < j < |options| ==> Apart(options[i], options[j])
  }

  lemma ListsAreInOrder()
    ensures LongestFirst(REDIRECTIONS) && LongestFirst(OPERATORS)
  {
    OperatorsHaveNoBlanks();
    forall i, j | 0 <= i < j < |REDIRECTIONS| ensures Apart(REDIRECTIONS[i], REDIRECTIONS[j]) {}
    forall i, j | 0 <= i < j < |OPERATORS| ensures Apart(OPERATORS[i], OPERATORS[j]) {}
  }

  /** The first is no start of the second: it is longer, or their first or last characters
      differ. */
  predicate Apart(a: string, b: string)
  {
    && a != ""
    && (|a| <= |b| ==> b != "" && (a[0] != b[0] || (|a| == |b| && a[|a| - 1] != b[|b| - 1])))
  }

  /** An operator before a blank is read as itself. */
  lemma {:induction false} IsFound(op: string, rest: string, options: seq<string>)
    requires op in options && LongestFirst(options)
    ensures FirstPrefix(op + (" " + rest), options) == op
  {
    var line := op + (" " + rest);
    var first := options[0];
    var j :| 0 <= j < |options| && options[j] == op;
    if first == op {
      assert line[..|op|] == op;
    } else {
      assert Apart(options[0], options[j]);
      NotBefore(first, op, rest);
      assert options[1..][j - 1] == op;
      IsFound(op, rest, options[1..]);
    }
  }

  lemma NotBefore(first: string, op: string, rest: string)
    requires Apart(first, op) && forall k :: 0 <= k < |first| ==> !IsBlank(first[k])
    ensures !(first <= op + (" " + rest))
  {
    var line := op + (" " + rest);
    if |first| <= |op| {
      assert line[0] == op[0] && line[|first| - 1] == op[|first| - 1];
    } else {
      assert line[|op|] == ' ';
    }
  }

  /** How the operators begin. */
  lemma OperatorsBegin(op: string)
    requires op in OPERATORS
    ensures op != "" && op[0] in "|&;()" && (|op| > 1 ==> op[1] != '>')
  {
  }

  lemma RedirectionsBegin(op: string)
    requires op in REDIRECTIONS
    ensures op != "" && (|op| > 1 ==> op[1] != '(' && op[1] != '<')
    ensures op[0] in "<>" || (op[0] == '&' && |op| > 1 && op[1] == '>' && (op == "&>" || op == "&>>"))
  {
  }

  lemma OperatorIsRead(tokens: seq<Token>, op: string, rest: string)
    requires op in OPERATORS
    ensures LexFrom(Between(tokens), op + (" " + rest)) == LexFrom(Between(tokens + [Op(op)]), " " + rest)
  {
    ListsAreInOrder();
    IsFound(op, rest, OPERATORS);
    OperatorsBegin(op);
    hide OPERATORS;
    hide FirstPrefix;
    hide ReadOne;
    var line := op + (" " + rest);
    assert line[0] == op[0] && line[1] == if |op| > 1 then op[1] else ' ';
    assert line[|op|..] == " " + rest;
    ReadsOperator(Between(tokens), line);
  }

  lemma ReadsOperator(s: Lexer, line: string)
    requires |line| > 1 && line[0] in "|&;()" && line[1] != '>'
    ensures ReadOne(s, line) == Operated(s, line)
  {
    hide DoubleQuoted;
    hide Redirected;
    hide Operated;
  }

  lemma ReadsRedirection(s: Lexer, line: string)
    requires |line| > 1 && (line[0] in "<>" || (line[0] == '&' && line[1] == '>'))
    ensures ReadOne(s, line) == Redirected(s, line)
  {
    hide DoubleQuoted;
    hide Redirected;
    hide Operated;
    if line[0] == '&' { assert "&>" <= line; }
  }

  lemma RedirectionIsRead(s: Lexer, op: string, rest: string)
    requires op in REDIRECTIONS
    ensures LexFrom(s, op + (" " + rest))
            == if op[0] in "<>" && s.active && s.text == s.bare && IsDescriptor(s.text) then
                 LexFrom(Between(s.tokens + [Redir(s.text + op)]), " " + rest)
               else LexFrom(s.End().Emit(Redir(op)), " " + rest)
  {
    ListsAreInOrder();
    IsFound(op, rest, REDIRECTIONS);
    RedirectionsBegin(op);
    hide REDIRECTIONS;
    hide FirstPrefix;
    hide IsDescriptor;
    hide ReadOne;
    var line := op + (" " + rest);
    assert line[0] == op[0] && line[1] == if |op| > 1 then op[1] else ' ';
    assert line[|op|..] == " " + rest;
    ReadsRedirection(s, line);
  }

  lemma {:induction false} PlainsAreRead(s: Lexer, fd: string, rest: string)
    requires s.active && forall i :: 0 <= i < |fd| ==> IsPlain(fd[i])
    ensures LexFrom(s, fd + rest) == LexFrom(Lexer(s.tokens, s.text + fd, s.bare + fd, true), rest)
    decreases |fd|
  {
    hide LexFrom;
    hide IsPlain;
    if fd == "" {
      assert fd + rest == rest;
      assert s.text + fd == s.text && s.bare + fd == s.bare;
    } else {
      assert fd + rest == [fd[0]] + (fd[1..] + rest);
      PlainIsRead(s, fd[0], fd[1..] + rest);
      PlainsAreRead(s.TakeBare(fd[0]), fd[1..], rest);
      assert s.text + [fd[0]] + fd[1..] == s.text + fd && s.bare + [fd[0]] + fd[1..] == s.bare + fd;
    }
  }

  lemma DescriptorIsPlain(fd: string)
    requires IsDescriptor(fd)
    ensures fd != "" && forall i :: 0 <= i < |fd| ==> IsPlain(fd[i])
  {
  }

  lemma DescriptorIsRead(tokens: seq<Token>, fd: string, rest: string)
    requires IsDescriptor(fd)
    ensures LexFrom(Between(tokens), fd + rest) == LexFrom(Lexer(tokens, fd, fd, true), rest)
  {
    hide LexFrom;
    hide IsDescriptor;
    hide IsPlain;
    DescriptorIsPlain(fd);
    assert fd + rest == [fd[0]] + (fd[1..] + rest);
    PlainIsRead(Between(tokens), fd[0], fd[1..] + rest);
    PlainsAreRead(Lexer(tokens, [fd[0]], [fd[0]], true), fd[1..], rest);
    assert "" + [fd[0]] == [fd[0]];
    assert [fd[0]] + fd[1..] == fd;
  }

  // ---- lines ----

  lemma ItemIsRead(tokens: seq<Token>, item: Item, rest: string)
    requires ItemOk(item)
    ensures LexFrom(Between(tokens), PrintItem(item) + (" " + rest)) == LexFrom(Between(tokens + [Meaning(item)]), rest)
  {
    hide LexFrom;
    hide PieceOk;
    hide IsDescriptor;
    hide OPERATORS;
    hide REDIRECTIONS;
    match item
    case AWord(pieces) =>
      PiecesAreRead(Between(tokens), pieces, " " + rest);
      var s := Lexer(tokens, "" + PiecesText(pieces), "" + PiecesBare(pieces), true);
      SpaceStep(s, rest);
      assert "" + PiecesText(pieces) == PiecesText(pieces) && "" + PiecesBare(pieces) == PiecesBare(pieces);
      assert s.End() == Between(tokens + [Meaning(item)]);
    case Operator(op) =>
      OperatorIsRead(tokens, op, rest);
      SpaceStep(Between(tokens + [Op(op)]), rest);
    case Redirect(fd, op) =>
      RedirectIsRead(tokens, fd, op, rest);
      SpaceStep(Between(tokens + [Redir(fd + op)]), rest);
  }

  lemma RedirectIsRead(tokens: seq<Token>, fd: string, op: string, rest: string)
    requires ItemOk(Redirect(fd, op))
    ensures LexFrom(Between(tokens), fd + op + (" " + rest)) == LexFrom(Between(tokens + [Redir(fd + op)]), " " + rest)
  {
    RedirectionsBegin(op);
    hide LexFrom;
    hide IsDescriptor;
    hide REDIRECTIONS;
    if fd == "" {
      assert fd + op == op;
      RedirectionIsRead(Between(tokens), op, rest);
    } else {
      assert fd + op + (" " + rest) == fd + (op + (" " + rest));
      DescriptorIsRead(tokens, fd, op + (" " + rest));
      RedirectionIsRead(Lexer(tokens, fd, fd, true), op, rest);
    }
  }

  lemma {:induction false} ItemsAreRead(tokens: seq<Token>, items: seq<Item>, tail: string)
    requires forall i :: 0 <= i < |items| ==> ItemOk(items[i])
    ensures LexFrom(Between(tokens), PrintLine(items) + tail) == LexFrom(Between(tokens + Meanings(items)), tail)
    decreases |items|
  {
    hide LexFrom;
    hide ItemOk;
    hide PrintItem;
    hide Meaning;
    if items == [] {
      assert PrintLine(items) + tail == tail;
      assert tokens + Meanings(items) == tokens;
    } else {
      var more := PrintLine(items[1..]) + tail;
      assert PrintLine(items) + tail == PrintItem(items[0]) + (" " + more);
      ItemIsRead(tokens, items[0], more);
      ItemsAreRead(tokens + [Meaning(items[0])], items[1..], tail);
      assert tokens + [Meaning(items[0])] + Meanings(items[1..]) == tokens + Meanings(items);
    }
  }

  /** A line of words, however each is quoted, of operators and of redirections is read as exactly
      those: each word with its text and with what of it is left for the shell, each operator and
      redirection as itself, a descriptor with the redirection it is joined to. */
  lemma LineReadsBack(items: seq<Item>)
    requires forall i :: 0 <= i < |items| ==> ItemOk(items[i])
    ensures Tokens(PrintLine(items)) == Meanings(items)
  {
    hide ItemOk;
    hide LexFrom;
    ItemsAreRead([], items, "");
    NoLineIsRead([] + Meanings(items));
    assert PrintLine(items) + "" == PrintLine(items);
    assert [] + Meanings(items) == Meanings(items);
  }

  /** What the lexer does not read: a substitution, a here-document, a line break, or a quote or
      a backslash with nothing to close or follow it. */
  predicate IsRefused(tail: string)
  {
    && tail != ""
    && var c := tail[0];
       || c == '\n' || c == '\r' || c == '`'
       || "$(" <= tail || "<(" <= tail || ">(" <= tail || "<<" <= tail
       || (c == '\\' && (|tail| == 1 || tail[1] == '\n' || tail[1] == '\r'))
       || (c == '\'' && forall k :: 1 <= k < |tail| ==> tail[k] != '\'')
  }

  lemma TailIsRefused(s: Lexer, tail: string)
    requires IsRefused(tail)
    ensures LexFrom(s, tail) == None
  {
    hide DoubleQuoted;
    hide Operated;
    hide FirstPrefix;
    hide IsDescriptor;
    if tail[0] == '\'' {
      assert forall k :: 0 <= k < |tail[1..]| ==> tail[1..][k] == tail[k + 1];
      NoIndex(tail[1..]);
    }
    assert ReadOne(s, tail).Unreadable?;
  }

  lemma NoIndex(s: string)
    requires forall k :: 0 <= k < |s| ==> s[k] != '\''
    ensures IndexOf(s, '\'').None?
  {
    hide IndexOf;
  }

  /** A line that comes to one of these is not read at all, whatever stands before it. */
  lemma RefusedLineIsNotRead(items: seq<Item>, tail: string)
    requires (forall i :: 0 <= i < |items| ==> ItemOk(items[i])) && IsRefused(tail)
    ensures Tokens(PrintLine(items) + tail) == []
  {
    hide ItemOk;
    hide LexFrom;
    hide IsRefused;
    ItemsAreRead([], items, tail);
    TailIsRefused(Between([] + Meanings(items)), tail);
  }
}
