/** What a local reference points at, by the rules of RFC 6901, apart from the walk that
    follows it. */
module JsonPointer {
  import opened Wrappers
  import opened Decimals
  import opened Json
  import opened SchemaCheck

  // ---- tokens ----

  /** The key a token stands for: "~1" is a slash and "~0" a tilde, read once from the left
      (section 4 of RFC 6901). */
  function Decoded(token: string): string
  {
    if token == "" then ""
    else if |token| >= 2 && token[0] == '~' && token[1] == '1' then "/" + Decoded(token[2..])
    else if |token| >= 2 && token[0] == '~' && token[1] == '0' then "~" + Decoded(token[2..])
    else [token[0]] + Decoded(token[1..])
  }

  /** A key as a pointer writes it. */
  function Encoded(key: string): string
  {
    if key == "" then ""
    else (if key[0] == '~' then "~0" else if key[0] == '/' then "~1" else [key[0]]) + Encoded(key[1..])
  }

  lemma {:induction false} EncodedDecodes(key: string)
    ensures Decoded(Encoded(key)) == key && NoSlash(Encoded(key))
  {
    if key != "" {
      EncodedDecodes(key[1..]);
      var rest := Encoded(key[1..]);
      var token := Encoded(key);
      if key[0] == '~' || key[0] == '/' {
        assert token[2..] == rest;
      } else {
        assert token[1..] == rest;
      }
    }
  }

  function Slashes(s: string): string
  {
    ReplacePair(s, '~', '1', '/')
  }

  function Tildes(s: string): string
  {
    ReplacePair(s, '~', '0', '~')
  }

  lemma SlashesHead(s: string)
    requires s != ""
    ensures Slashes(s) != "" && Slashes(s)[0] in {s[0], '/'}
  {
  }

  lemma TildesStep(c: char, s: string)
    requires c == '~' && s != "" ==> s[0] != '0'
    ensures Tildes([c] + s) == [c] + Tildes(s)
  {
    assert ([c] + s)[1..] == s;
  }

  lemma SlashesStep(c: char, s: string)
    requires c == '~' && s != "" ==> s[0] != '1'
    ensures Slashes([c] + s) == [c] + Slashes(s)
  {
    assert ([c] + s)[1..] == s;
  }

  /** Replacing the slashes and then the tildes is reading the token once. */
  lemma {:induction false} UnescapeDecodes(token: string)
    ensures Unescape(token) == Decoded(token)
    decreases |token|
  {
    if |token| >= 2 && token[0] == '~' && token[1] == '1' {
      UnescapeDecodes(token[2..]);
      assert Slashes(token) == ['/'] + Slashes(token[2..]);
      TildesStep('/', Slashes(token[2..]));
    } else if |token| >= 2 && token[0] == '~' && token[1] == '0' {
      UnescapeDecodes(token[2..]);
      assert token[1..] == ['0'] + token[2..] && token == ['~'] + token[1..];
      SlashesStep('0', token[2..]);
      SlashesStep('~', token[1..]);
      var s := Slashes(token);
      assert s == ['~'] + (['0'] + Slashes(token[2..])) && s[2..] == Slashes(token[2..]);
    } else if token != "" {
      UnescapeDecodes(token[1..]);
      assert token == [token[0]] + token[1..];
      SlashesStep(token[0], token[1..]);
      if |token| > 1 { SlashesHead(token[1..]); }
      TildesStep(token[0], Slashes(token[1..]));
    }
  }

  // ---- pointers ----

  predicate NoSlash(token: string)
  {
    forall i :: 0 <= i < |token| ==> token[i] != '/'
  }

  predicate AreTokens(tokens: seq<string>)
  {
    forall i :: 0 <= i < |tokens| ==> NoSlash(tokens[i])
  }

  /** A pointer is its tokens, each after a slash. */
  function Slashed(tokens: seq<string>): string
  {
    if tokens == [] then "" else "/" + tokens[0] + Slashed(tokens[1..])
  }

  function DecodedAll(tokens: seq<string>): (r: seq<string>)
    ensures |r| == |tokens|
  {
    if tokens == [] then [] else [Decoded(tokens[0])] + DecodedAll(tokens[1..])
  }

  function EncodedAll(keys: seq<string>): (r: seq<string>)
    ensures |r| == |keys| && forall i :: 0 <= i < |keys| ==> r[i] == Encoded(keys[i])
  {
    if keys == [] then [] else [Encoded(keys[0])] + EncodedAll(keys[1..])
  }

  lemma {:induction false} EncodedAllDecodes(keys: seq<string>)
    ensures DecodedAll(EncodedAll(keys)) == keys && AreTokens(EncodedAll(keys))
  {
    if keys != [] {
      EncodedDecodes(keys[0]);
      EncodedAllDecodes(keys[1..]);
      assert EncodedAll(keys)[1..] == EncodedAll(keys[1..]);
      assert AreTokens(EncodedAll(keys)) by {
        forall i | 0 <= i < |keys| ensures NoSlash(EncodedAll(keys)[i]) { EncodedDecodes(keys[i]); }
      }
    }
  }

  /** Splitting at the slashes takes a text apart into tokens, and nothing is lost. */
  lemma {:induction false} SplitIsSlashed(s: string)
    ensures AreTokens(Split(s, '/')) && s == Split(s, '/')[0] + Slashed(Split(s, '/')[1..])
  {
    if s != "" {
      SplitIsSlashed(s[1..]);
      var rest := Split(s[1..], '/');
      assert s == [s[0]] + s[1..];
      if s[0] == '/' { assert Split(s, '/')[1..] == rest && rest == [rest[0]] + rest[1..]; }
    }
  }

  lemma {:induction false} SplitPiece(token: string, rest: string)
    requires NoSlash(token) && (rest == "" || rest[0] == '/')
    ensures Split(token + rest, '/') == [token] + Split(rest, '/')[1..]
    decreases |token|
  {
    if token == "" {
      assert token + rest == rest;
    } else {
      assert (token + rest)[0] == token[0] && (token + rest)[1..] == token[1..] + rest;
      SplitPiece(token[1..], rest);
      var parts := Split(token[1..] + rest, '/');
      assert parts[0] == token[1..] && parts[1..] == Split(rest, '/')[1..];
      assert token == [token[0]] + token[1..];
    }
  }

  lemma {:induction false} SlashedSplits(tokens: seq<string>)
    requires AreTokens(tokens)
    ensures Split(Slashed(tokens), '/') == [""] + tokens
  {
    if tokens != [] {
      var rest := tokens[0] + Slashed(tokens[1..]);
      assert Slashed(tokens)[1..] == rest;
      SplitPiece(tokens[0], Slashed(tokens[1..]));
      SlashedSplits(tokens[1..]);
    }
  }

  // ---- where a pointer leads ----

  /** The index a token names: its digits, leading zeros and all. */
  predicate Names(key: string, n: nat)
  {
    IsDigits(key) && DigitsValue(key) == n
  }

  lemma DecimalNames(n: nat)
    ensures Names(Decimal(n), n)
  {
    DecimalReadsBack(n);
  }

  /** One step into a document: to a member of an object, or to an item of an array. */
  ghost predicate StepsTo(from: Json, key: string, to: Json)
  {
    || (from.Obj? && Get(from.fields, key) == Some(to))
    || (from.Arr? && exists n :: 0 <= n < |from.items| && from.items[n] == to && Names(key, n))
  }

  ghost predicate Leads(from: Json, keys: seq<string>, to: Json)
  {
    if keys == [] then to == from
    else exists next :: StepsTo(from, keys[0], next) && Leads(next, keys[1..], to)
  }

  /** The object a reference names: "#" and the pointer to it from the root. */
  ghost predicate RefersTo(ref: string, root: Json, py: Python, to: Json)
  {
    && ref != "" && ref[0] == '#' && to.Obj?
    && exists tokens ::
         AreTokens(tokens) && py.unquote(ref[1..]) == Slashed(tokens) && Leads(root, DecodedAll(tokens), to)
  }

  lemma ChildSteps(from: Json, key: string, to: Json)
    ensures Child(from, key) == Some(to) <==> StepsTo(from, key, to)
  {
  }

  lemma {:induction false} WalkLeads(from: Json, tokens: seq<string>, to: Json)
    ensures Walk(from, tokens) == Some(to) <==> Leads(from, DecodedAll(tokens), to)
    decreases |tokens|
  {
    hide Unescape;
    hide Child;
    hide StepsTo;
    if tokens != [] {
      var keys := DecodedAll(tokens);
      UnescapeDecodes(tokens[0]);
      assert keys[1..] == DecodedAll(tokens[1..]);
      var next := Child(from, keys[0]);
      forall x ensures next == Some(x) <==> StepsTo(from, keys[0], x) { ChildSteps(from, keys[0], x); }
      if next.Some? {
        WalkLeads(next.value, tokens[1..], to);
      }
    }
  }

  /** A reference resolves to exactly what it refers to. */
  lemma ResolveMeans(ref: string, root: Json, py: Python, to: Json)
    ensures Resolve(ref, root, py) == Some(to) <==> RefersTo(ref, root, py, to)
  {
    hide Walk;
    hide Leads;
    hide Split;
    hide Slashed;
    if ref != "" && ref[0] == '#' {
      var pointer := py.unquote(ref[1..]);
      var parts := Split(pointer, '/');
      SplitIsSlashed(pointer);
      WalkLeads(root, parts[1..], to);
      if RefersTo(ref, root, py, to) {
        var tokens :| AreTokens(tokens) && pointer == Slashed(tokens) && Leads(root, DecodedAll(tokens), to);
        SlashedSplits(tokens);
        SlashedOpens(tokens);
        assert parts[1..] == tokens;
      }
      if pointer == "" || pointer[0] == '/' {
        PointerOpens(pointer);
        assert AreTokens(parts[1..]) && pointer == Slashed(parts[1..]);
      }
    }
  }

  lemma SlashedOpens(tokens: seq<string>)
    ensures Slashed(tokens) != "" ==> Slashed(tokens)[0] == '/'
  {
  }

  lemma PointerOpens(pointer: string)
    requires pointer == "" || pointer[0] == '/'
    ensures Split(pointer, '/')[0] == ""
    ensures Split(pointer, '/')[0] + Slashed(Split(pointer, '/')[1..]) == Slashed(Split(pointer, '/')[1..])
  {
  }

  /** The pointer written for a path resolves to what stands at its end. */
  lemma PathIsFound(ref: string, root: Json, py: Python, keys: seq<string>, to: Json)
    requires ref != "" && ref[0] == '#' && to.Obj? && Leads(root, keys, to)
    requires py.unquote(ref[1..]) == Slashed(EncodedAll(keys))
    ensures Resolve(ref, root, py) == Some(to)
  {
    hide Leads;
    EncodedAllDecodes(keys);
    ResolveMeans(ref, root, py, to);
  }
}
