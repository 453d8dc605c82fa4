/** The schema gate: which documents the validator agrees to enforce.

    A schema is walked keyword by keyword, each reference string is recorded before its
    target is walked, and the recorded references are then searched for a cycle that never
    descends into the value. Regular expressions and percent-decoding are Python's, so they
    are a parameter of everything here. */
module SchemaCheck {
  import opened Wrappers
  import opened Decimals
  import opened Json

  /** What the schema code borrows from Python's standard library. */
  datatype Python = Python(
    unquote: string -> string,
    compiles: string -> bool,
    search: (string, string) -> bool)

  const SUPPORTED: set<string> := {
    "type", "properties", "required", "items", "enum", "additionalProperties", "description", "title", "$schema",
    "default", "const", "anyOf", "oneOf", "allOf", "$ref", "$defs", "definitions", "minLength", "maxLength", "pattern",
    "minItems", "maxItems", "uniqueItems", "minimum", "maximum", "exclusiveMinimum", "exclusiveMaximum"
  }
  const COUNTS: set<string> := {"minLength", "maxLength", "minItems", "maxItems"}
  const NUMBER_BOUNDS: set<string> := {"minimum", "maximum", "exclusiveMinimum", "exclusiveMaximum"}
  const COMPOSITIONS: set<string> := {"anyOf", "oneOf", "allOf"}

  datatype Refusal =
    | NotAnObject
    | UnknownKeyword(keyword: string)
    | BadShape(keyword: string)
    | BadReference(ref: string)
    | ReferenceCycle(loop: seq<string>)

  /** Whether a supported keyword carries a value the validator implements. */
  predicate ShapeOk(key: string, value: Json, py: Python)
  {
    && (key == "type" ==> value.Str?)
    && (key == "properties" ==> value.Obj?)
    && (key == "required" ==> value.Arr?)
    && (key == "items" ==> value.Obj?)
    && (key == "enum" ==> value.Arr?)
    && (key == "additionalProperties" ==> value.Bool? || value.Obj?)
    && (key == "uniqueItems" ==> value.Bool?)
    && (key == "pattern" ==> value.Str? && py.compiles(value.s))
    && (key == "$ref" ==> value.Str?)
    && (key == "$defs" || key == "definitions" ==> value.Obj?)
    && (key in COUNTS ==> value.Int? && value.i >= 0)
    && (key in NUMBER_BOUNDS ==> IsNumber(value))
    && (key in COMPOSITIONS ==>
          value.Arr? && value.items != [] && forall i :: 0 <= i < |value.items| ==> value.items[i].Obj?)
  }

  /** The list under a keyword, or none. */
  function ListAt(d: Dict, key: string): (r: seq<Json>)
    ensures Has(d, key) && Get(d, key).value.Arr? ==> r == Get(d, key).value.items
    ensures r != [] ==> Has(d, key) && Get(d, key).value == Arr(r)
  {
    match Get(d, key)
    case Some(Arr(items)) => items
    case _ => []
  }

  function DictAt(d: Dict, key: string): (r: Dict)
    ensures Has(d, key) && Get(d, key).value.Obj? ==> r == Get(d, key).value.fields
    ensures r != [] ==> Has(d, key) && Get(d, key).value == Obj(r)
  {
    match Get(d, key)
    case Some(Obj(fields)) => fields
    case _ => []
  }

  function ValuesOf(d: Dict): (r: seq<Json>)
    ensures |r| == |d| && forall i :: 0 <= i < |d| ==> r[i] == d[i].value
  {
    seq(|d|, i requires 0 <= i < |d| => d[i].value)
  }

  function ObjectAt(d: Dict, key: string): (r: seq<Json>)
    ensures forall s :: s in r ==> s.Obj? && Has(d, key) && Get(d, key).value == s
  {
    match Get(d, key)
    case Some(Obj(fields)) => [Obj(fields)]
    case _ => []
  }

  /** Schemas applied to the same value as the schema that holds them. */
  function Alternatives(d: Dict): seq<Json>
  {
    ListAt(d, "anyOf") + ListAt(d, "oneOf") + ListAt(d, "allOf")
  }

  /** Schemas applied to a property or an item of the value. */
  function Nested(d: Dict): seq<Json>
  {
    ValuesOf(DictAt(d, "properties"))
    + ((if Has(d, "items") then [Get(d, "items").value] else []) + ObjectAt(d, "additionalProperties"))
  }

  function Definitions(d: Dict): seq<Json>
  {
    ValuesOf(DictAt(d, "$defs")) + ValuesOf(DictAt(d, "definitions"))
  }

  /** Every schema written directly inside this one, in the order they are walked. */
  function SubSchemas(d: Dict): seq<Json>
  {
    Nested(d) + (Alternatives(d) + Definitions(d))
  }

  /** s is written inside the object d, and is smaller than it. */
  ghost predicate Inside(s: Json, d: Dict)
  {
    Docs(s) <= Docs(Obj(d)) && Size(s) < Size(Obj(d))
  }

  ghost predicate AllInside(subs: seq<Json>, d: Dict)
  {
    forall i :: 0 <= i < |subs| ==> Inside(subs[i], d)
  }

  lemma GetInside(d: Dict, key: string)
    requires Has(d, key)
    ensures Inside(Get(d, key).value, d)
  {
    GetIsDoc(d, key);
    GetSmaller(d, key);
  }

  lemma ListAtInside(d: Dict, key: string)
    ensures AllInside(ListAt(d, key), d)
  {
    var subs := ListAt(d, key);
    forall i | 0 <= i < |subs| ensures Inside(subs[i], d) {
      GetInside(d, key);
      ItemIsDoc(subs, i);
      ItemSmaller(subs, i);
    }
  }

  lemma ValuesInside(d: Dict, key: string)
    ensures AllInside(ValuesOf(DictAt(d, key)), d)
  {
    var inner := DictAt(d, key);
    forall i | 0 <= i < |inner| ensures Inside(inner[i].value, d) {
      GetInside(d, key);
      FieldIsDoc(inner, i);
      FieldSmaller(inner, i);
    }
  }

  lemma BothInside(a: seq<Json>, b: seq<Json>, d: Dict)
    requires AllInside(a, d) && AllInside(b, d)
    ensures AllInside(a + b, d)
  {
  }

  lemma AlternativesInside(d: Dict)
    ensures AllInside(Alternatives(d), d)
  {
    ListAtInside(d, "anyOf");
    ListAtInside(d, "oneOf");
    ListAtInside(d, "allOf");
    BothInside(ListAt(d, "anyOf"), ListAt(d, "oneOf"), d);
    BothInside(ListAt(d, "anyOf") + ListAt(d, "oneOf"), ListAt(d, "allOf"), d);
  }

  lemma NestedInside(d: Dict)
    ensures AllInside(Nested(d), d)
  {
    ValuesInside(d, "properties");
    if Has(d, "items") { GetInside(d, "items"); }
    if Has(d, "additionalProperties") { GetInside(d, "additionalProperties"); }
  }

  lemma SubSchemasInside(d: Dict)
    ensures AllInside(SubSchemas(d), d)
  {
    NestedInside(d);
    AlternativesInside(d);
    ValuesInside(d, "$defs");
    ValuesInside(d, "definitions");
    BothInside(ValuesOf(DictAt(d, "$defs")), ValuesOf(DictAt(d, "definitions")), d);
    BothInside(Alternatives(d), Definitions(d), d);
    BothInside(Nested(d), Alternatives(d) + Definitions(d), d);
  }

  // ---- references ----

  predicate HasRef(schema: Json)
  {
    schema.Obj? && Has(schema.fields, "$ref") && Get(schema.fields, "$ref").value.Str?
  }

  function RefOf(schema: Json): string
    requires HasRef(schema)
  {
    Get(schema.fields, "$ref").value.s
  }

  /** Every reference string written anywhere in the document: finitely many. */
  ghost function RefStrings(root: Json): set<string>
  {
    set d | d in Docs(root) && HasRef(d) :: RefOf(d)
  }

  function Split(s: string, sep: char): (r: seq<string>)
    ensures |r| > 0
  {
    if s == "" then [""]
    else
      var rest := Split(s[1..], sep);
      if s[0] == sep then [""] + rest else [[s[0]] + rest[0]] + rest[1..]
  }

  /** str.replace of a two-character string by one character. */
  function ReplacePair(s: string, a: char, b: char, c: char): string
  {
    if |s| < 2 then s
    else if s[0] == a && s[1] == b then [c] + ReplacePair(s[2..], a, b, c)
    else [s[0]] + ReplacePair(s[1..], a, b, c)
  }

  function Unescape(token: string): string
  {
    ReplacePair(ReplacePair(token, '~', '1', '/'), '~', '0', '~')
  }

  /** One token of a pointer, taken inside target. */
  function Child(target: Json, key: string): (r: Option<Json>)
    ensures r.Some? ==> Docs(r.value) <= Docs(target)
  {
    if target.Obj? && Has(target.fields, key) then
      GetIsDoc(target.fields, key);
      Get(target.fields, key)
    else if target.Arr? && IsDigits(key) && DigitsValue(key) < |target.items| then
      ItemIsDoc(target.items, DigitsValue(key));
      Some(target.items[DigitsValue(key)])
    else None
  }

  function Walk(target: Json, tokens: seq<string>): (r: Option<Json>)
    ensures r.Some? ==> Docs(r.value) <= Docs(target)
  {
    if tokens == [] then Some(target)
    else
      match Child(target, Unescape(tokens[0]))
      case None => None
      case Some(next) => Walk(next, tokens[1..])
  }

  /** The object a reference names: a local JSON pointer into the root document. */
  function Resolve(ref: string, root: Json, py: Python): (r: Option<Json>)
    ensures r.Some? ==> r.value.Obj? && r.value in Docs(root) && Docs(r.value) <= Docs(root)
  {
    if ref == "" || ref[0] != '#' then None
    else
      var pointer := py.unquote(ref[1..]);
      if pointer != "" && pointer[0] != '/' then None
      else
        match Walk(root, Split(pointer, '/')[1..])
        case Some(Obj(fields)) => DocsTransitive(Obj(fields), root); Some(Obj(fields))
        case _ => None
  }

  /** The pointer walk as the loop that makes it. */
  method ResolveReference(ref: string, root: Json, py: Python) returns (r: Option<Json>)
    ensures r == Resolve(ref, root, py)
  {
    if ref == "" || ref[0] != '#' {
      return None;
    }
    var pointer := py.unquote(ref[1..]);
    if pointer != "" && pointer[0] != '/' {
      return None;
    }
    var tokens := Split(pointer, '/')[1..];
    var target := root;
    for i := 0 to |tokens|
      invariant Walk(root, tokens) == Walk(target, tokens[i..])
    {
      var next := Child(target, Unescape(tokens[i]));
      assert tokens[i..][0] == tokens[i] && tokens[i..][1..] == tokens[i + 1..];
      if next.None? {
        return None;
      }
      target := next.value;
    }
    if target.Obj? {
      r := Some(target);
    } else {
      r := None;
    }
  }

  // ---- what the walk accepts ----

  ghost predicate KeywordsOk(d: Dict, py: Python)
  {
    forall i :: 0 <= i < |d| ==> d[i].key in SUPPORTED && ShapeOk(d[i].key, d[i].value, py)
  }

  /** schema, and every schema inside it, uses implemented keywords only, and every
      reference it makes is a known one. */
  ghost predicate Checked(schema: Json, known: set<string>, py: Python)
    decreases Size(schema)
  {
    && schema.Obj?
    && KeywordsOk(schema.fields, py)
    && (HasRef(schema) ==> RefOf(schema) in known)
    && (SubSchemasInside(schema.fields);
        forall i :: 0 <= i < |SubSchemas(schema.fields)| ==> Checked(SubSchemas(schema.fields)[i], known, py))
  }

  lemma CheckedMember(schema: Json, s: Json, known: set<string>, py: Python)
    requires Checked(schema, known, py) && s in SubSchemas(schema.fields)
    ensures Checked(s, known, py) && Inside(s, schema.fields)
  {
    SubSchemasInside(schema.fields);
    var i :| 0 <= i < |SubSchemas(schema.fields)| && SubSchemas(schema.fields)[i] == s;
  }

  /** Every known reference names a checked schema. */
  ghost predicate Closed(known: set<string>, root: Json, py: Python)
  {
    forall r :: r in known ==> Resolve(r, root, py).Some? && Checked(Resolve(r, root, py).value, known, py)
  }

  lemma {:induction false} CheckedGrows(schema: Json, known: set<string>, more: set<string>, py: Python)
    requires Checked(schema, known, py) && known <= more
    ensures Checked(schema, more, py)
    decreases Size(schema)
  {
    SubSchemasInside(schema.fields);
    var subs := SubSchemas(schema.fields);
    forall i | 0 <= i < |subs| ensures Checked(subs[i], more, py) {
      CheckedGrows(subs[i], known, more, py);
    }
  }

  /** The references recorded so far, each with its target. */
  type Refs = map<string, Json>

  ghost predicate Recorded(refs: Refs, from: set<string>, root: Json, py: Python)
  {
    forall r :: r in refs && r !in from ==>
      Resolve(r, root, py) == Some(refs[r]) && Checked(refs[r], refs.Keys, py)
  }

  method CheckKeywords(d: Dict, py: Python) returns (refusal: Option<Refusal>)
    ensures refusal.None? <==> KeywordsOk(d, py)
  {
    for i := 0 to |d|
      invariant forall k :: 0 <= k < i ==> d[k].key in SUPPORTED && ShapeOk(d[k].key, d[k].value, py)
    {
      if d[i].key !in SUPPORTED {
        return Some(UnknownKeyword(d[i].key));
      }
      if !ShapeOk(d[i].key, d[i].value, py) {
        return Some(BadShape(d[i].key));
      }
    }
    return None;
  }

  lemma RefStringIn(schema: Json, root: Json)
    requires schema in Docs(root) && HasRef(schema)
    ensures RefOf(schema) in RefStrings(root)
  {
  }

  ghost predicate Grown(refs: Refs, refs': Refs, root: Json)
  {
    && refs.Keys <= refs'.Keys <= RefStrings(root)
    && forall r :: r in refs ==> refs'[r] == refs[r]
  }

  ghost predicate AllChecked(subs: seq<Json>, known: set<string>, py: Python)
  {
    forall i :: 0 <= i < |subs| ==> Checked(subs[i], known, py)
  }

  /** What a walk of some schemas that started with refs and ended with refs' is worth. A
      walk that passed checked every schema, and every reference it recorded. And a walk
      does pass whenever some closed set of references accepts all of them, recording no
      reference outside that set. */
  ghost predicate Walked(subs: seq<Json>, root: Json, refs: Refs, passed: bool, refs': Refs, py: Python)
  {
    && Grown(refs, refs', root)
    && (passed ==> AllChecked(subs, refs'.Keys, py) && Recorded(refs', refs.Keys, root, py))
    && (forall known :: Closed(known, root, py) && AllChecked(subs, known, py) ==>
          passed && refs'.Keys <= refs.Keys + known)
  }

  /** The schema walk. It ends even on a schema that refers to itself, because a reference
      string is recorded before its target is walked and the document holds finitely many. */
  method CheckSchema(schema: Json, root: Json, refs: Refs, py: Python)
    returns (refusal: Option<Refusal>, refs': Refs)
    requires schema in Docs(root) && refs.Keys <= RefStrings(root)
    ensures Walked([schema], root, refs, refusal.None?, refs', py)
    decreases RefStrings(root) - refs.Keys, Size(schema), 2
  {
    if !schema.Obj? {
      RefusedOutright(schema, root, refs, py);
      return Some(NotAnObject), refs;
    }
    refusal := CheckKeywords(schema.fields, py);
    if refusal.Some? {
      RefusedOutright(schema, root, refs, py);
      return refusal, refs;
    }
    refusal, refs' := CheckInside(schema, root, refs, py);
  }

  /** What a schema with good keywords holds: its sub-schemas, then its reference. */
  method CheckInside(schema: Json, root: Json, refs: Refs, py: Python)
    returns (refusal: Option<Refusal>, refs': Refs)
    requires schema in Docs(root) && refs.Keys <= RefStrings(root)
    requires schema.Obj? && KeywordsOk(schema.fields, py)
    ensures Walked([schema], root, refs, refusal.None?, refs', py)
    decreases RefStrings(root) - refs.Keys, Size(schema), 1
  {
    SubSchemasInRoot(schema, root);
    refusal, refs' := CheckEach(SubSchemas(schema.fields), Size(schema), root, refs, py);
    if refusal.Some? {
      WalkedWhole(schema, root, refs, false, refs', py);
      return;
    }
    refusal, refs' := CheckReference(schema, root, refs, refs', py);
  }

  /** The reference a schema makes, once its sub-schemas are walked. */
  method CheckReference(schema: Json, root: Json, ghost refs: Refs, mid: Refs, py: Python)
    returns (refusal: Option<Refusal>, refs': Refs)
    requires schema in Docs(root) && schema.Obj? && KeywordsOk(schema.fields, py)
    requires Walked(SubSchemas(schema.fields), root, refs, true, mid, py)
    ensures Walked([schema], root, refs, refusal.None?, refs', py)
    decreases RefStrings(root) - refs.Keys, Size(schema), 0
  {
    if !HasRef(schema) || RefOf(schema) in mid {
      WalkedWhole(schema, root, refs, true, mid, py);
      return None, mid;
    }
    refusal, refs' := CheckTarget(RefOf(schema), schema, root, mid, py);
    WalkedWithTarget(schema, root, refs, mid, refusal.None?, refs', py);
  }

  /** The walk of one schema's sub-schemas, each of which is smaller than `bound`. */
  method CheckEach(subs: seq<Json>, ghost bound: nat, root: Json, refs: Refs, py: Python)
    returns (refusal: Option<Refusal>, refs': Refs)
    requires refs.Keys <= RefStrings(root)
    requires AllBelow(subs, bound, root)
    ensures Walked(subs, root, refs, refusal.None?, refs', py)
    decreases RefStrings(root) - refs.Keys, bound, 0
  {
    refs' := refs;
    for i := 0 to |subs|
      invariant refs.Keys <= refs'.Keys <= RefStrings(root)
      invariant Walked(subs[..i], root, refs, true, refs', py)
    {
      ghost var before := refs';
      refusal, refs' := CheckSchema(subs[i], root, refs', py);
      WalkedOneMore(subs, i, root, refs, before, refusal.None?, refs', py);
      if refusal.Some? {
        return;
      }
    }
    assert subs[..|subs|] == subs;
    refusal := None;
  }

  /** Record one new reference, then walk what it names. */
  method CheckTarget(ref: string, ghost schema: Json, root: Json, refs: Refs, py: Python)
    returns (refusal: Option<Refusal>, refs': Refs)
    requires schema in Docs(root) && HasRef(schema) && ref == RefOf(schema) && ref !in refs
    requires refs.Keys <= RefStrings(root)
    ensures TargetWalked(ref, root, refs, refusal.None?, refs', py)
    decreases RefStrings(root) - refs.Keys, 0, 0
  {
    RefStringIn(schema, root);
    var target := ResolveReference(ref, root, py);
    if target.None? {
      return Some(BadReference(ref)), refs;
    }
    var recorded := refs[ref := target.value];
    assert recorded.Keys == refs.Keys + {ref};
    refusal, refs' := CheckSchema(target.value, root, recorded, py);
    TargetRecorded(ref, target.value, root, refs, refusal.None?, refs', py);
  }

  lemma TargetRecorded(
    ref: string, target: Json, root: Json, refs: Refs, passed: bool, refs': Refs, py: Python)
    requires ref !in refs && Resolve(ref, root, py) == Some(target)
    requires refs.Keys <= RefStrings(root)
    requires Walked([target], root, refs[ref := target], passed, refs', py)
    ensures TargetWalked(ref, root, refs, passed, refs', py)
  {
    var recorded := refs[ref := target];
    assert recorded.Keys == refs.Keys + {ref};
    assert refs'[ref] == recorded[ref];
    forall r | r in refs ensures refs'[r] == refs[r] {
      assert refs'[r] == recorded[r];
    }
    if passed { OneChecked(target, refs'.Keys, py); }
    forall known | Closed(known, root, py) && ref in known
      ensures passed && refs'.Keys <= refs.Keys + known
    {
      OneChecked(target, known, py);
    }
  }

  ghost predicate TargetWalked(ref: string, root: Json, refs: Refs, passed: bool, refs': Refs, py: Python)
  {
    && Grown(refs, refs', root)
    && (passed ==>
          && ref in refs' && Resolve(ref, root, py) == Some(refs'[ref])
          && Checked(refs'[ref], refs'.Keys, py)
          && Recorded(refs', refs.Keys + {ref}, root, py))
    && (forall known :: Closed(known, root, py) && ref in known ==> passed && refs'.Keys <= refs.Keys + known)
  }

  lemma SubSchemasInRoot(schema: Json, root: Json)
    requires schema in Docs(root) && schema.Obj?
    ensures AllBelow(SubSchemas(schema.fields), Size(schema), root)
  {
    SubSchemasInside(schema.fields);
    DocsTransitive(schema, root);
  }

  ghost predicate AllBelow(subs: seq<Json>, bound: nat, root: Json)
  {
    forall i :: 0 <= i < |subs| ==> subs[i] in Docs(root) && Size(subs[i]) < bound
  }

  lemma CheckedParts(schema: Json, known: set<string>, py: Python)
    ensures Checked(schema, known, py) <==>
              && schema.Obj? && KeywordsOk(schema.fields, py) && (HasRef(schema) ==> RefOf(schema) in known)
              && AllChecked(SubSchemas(schema.fields), known, py)
  {
    if schema.Obj? { SubSchemasInside(schema.fields); }
  }

  lemma AllCheckedGrows(subs: seq<Json>, known: set<string>, more: set<string>, py: Python)
    requires AllChecked(subs, known, py) && known <= more
    ensures AllChecked(subs, more, py)
  {
    forall i | 0 <= i < |subs| ensures Checked(subs[i], more, py) {
      CheckedGrows(subs[i], known, more, py);
    }
  }

  lemma RefusedOutright(schema: Json, root: Json, refs: Refs, py: Python)
    requires refs.Keys <= RefStrings(root)
    requires !schema.Obj? || !KeywordsOk(schema.fields, py)
    ensures Walked([schema], root, refs, false, refs, py)
  {
    forall known ensures !AllChecked([schema], known, py) {
      assert AllChecked([schema], known, py) ==> Checked([schema][0], known, py);
    }
  }

  lemma WalkedOneMore(
    subs: seq<Json>, i: nat, root: Json, refs: Refs, mid: Refs, passed: bool, refs': Refs, py: Python)
    requires i < |subs|
    requires Walked(subs[..i], root, refs, true, mid, py)
    requires Walked([subs[i]], root, mid, passed, refs', py)
    ensures Grown(refs, refs', root)
    ensures passed ==> Walked(subs[..i + 1], root, refs, true, refs', py)
    ensures !passed ==> Walked(subs, root, refs, false, refs', py)
  {
    if passed {
      AllCheckedGrows(subs[..i], mid.Keys, refs'.Keys, py);
      PrefixChecked(subs, i, refs'.Keys, py);
      Extend(mid, refs', refs.Keys, root, py);
    }
    forall known | Closed(known, root, py) && AllChecked(subs[..i + 1], known, py)
      ensures passed && refs'.Keys <= refs.Keys + known
    {
      PrefixChecked(subs, i, known, py);
    }
    forall known | Closed(known, root, py) && AllChecked(subs, known, py)
      ensures passed && refs'.Keys <= refs.Keys + known
    {
      PrefixChecked(subs, i, known, py);
    }
  }

  lemma PrefixChecked(subs: seq<Json>, i: nat, known: set<string>, py: Python)
    requires i < |subs|
    ensures AllChecked(subs[..i + 1], known, py) <==>
              AllChecked(subs[..i], known, py) && AllChecked([subs[i]], known, py)
    ensures AllChecked(subs, known, py) ==> AllChecked(subs[..i + 1], known, py)
  {
    var more := subs[..i + 1];
    assert more == subs[..i] + [subs[i]];
    if AllChecked(more, known, py) {
      forall k | 0 <= k < i ensures Checked(subs[..i][k], known, py) { assert more[k] == subs[..i][k]; }
      assert Checked(more[i], known, py);
    }
    if AllChecked([subs[i]], known, py) {
      assert Checked([subs[i]][0], known, py);
    }
  }

  lemma OneChecked(schema: Json, known: set<string>, py: Python)
    ensures AllChecked([schema], known, py) <==> Checked(schema, known, py)
  {
    assert AllChecked([schema], known, py) ==> Checked([schema][0], known, py);
  }

  lemma WalkedWhole(schema: Json, root: Json, refs: Refs, passed: bool, refs': Refs, py: Python)
    requires schema.Obj? && KeywordsOk(schema.fields, py)
    requires Walked(SubSchemas(schema.fields), root, refs, passed, refs', py)
    requires passed && HasRef(schema) ==> RefOf(schema) in refs'
    ensures Walked([schema], root, refs, passed, refs', py)
  {
    if passed {
      CheckedParts(schema, refs'.Keys, py);
      OneChecked(schema, refs'.Keys, py);
    }
    forall known | Closed(known, root, py) && AllChecked([schema], known, py)
      ensures passed && refs'.Keys <= refs.Keys + known
    {
      OneChecked(schema, known, py);
      CheckedParts(schema, known, py);
    }
  }

  lemma WalkedWithTarget(
    schema: Json, root: Json, refs: Refs, mid: Refs, passed: bool, refs': Refs, py: Python)
    requires schema.Obj? && KeywordsOk(schema.fields, py) && HasRef(schema) && RefOf(schema) !in mid
    requires Walked(SubSchemas(schema.fields), root, refs, true, mid, py)
    requires TargetWalked(RefOf(schema), root, mid, passed, refs', py)
    ensures Walked([schema], root, refs, passed, refs', py)
  {
    if passed { PassedWithTarget(schema, root, refs, mid, refs', py); }
    forall known | Closed(known, root, py) && AllChecked([schema], known, py)
      ensures passed && refs'.Keys <= refs.Keys + known
    {
      OneChecked(schema, known, py);
      CheckedParts(schema, known, py);
    }
  }

  lemma PassedWithTarget(schema: Json, root: Json, refs: Refs, mid: Refs, refs': Refs, py: Python)
    requires schema.Obj? && KeywordsOk(schema.fields, py) && HasRef(schema) && RefOf(schema) !in mid
    requires Walked(SubSchemas(schema.fields), root, refs, true, mid, py)
    requires TargetWalked(RefOf(schema), root, mid, true, refs', py)
    ensures AllChecked([schema], refs'.Keys, py) && Recorded(refs', refs.Keys, root, py)
  {
    RecordTarget(mid, RefOf(schema), refs', refs.Keys, root, py);
    AllCheckedGrows(SubSchemas(schema.fields), mid.Keys, refs'.Keys, py);
    CheckedParts(schema, refs'.Keys, py);
    OneChecked(schema, refs'.Keys, py);
  }

  /** What was recorded stays checked when a later walk records more. */
  lemma Extend(before: Refs, after: Refs, from: set<string>, root: Json, py: Python)
    requires before.Keys <= after.Keys
    requires forall r :: r in before ==> after[r] == before[r]
    requires Recorded(before, from, root, py)
    requires Recorded(after, before.Keys, root, py)
    ensures Recorded(after, from, root, py)
  {
    forall r | r in after && r !in from
      ensures Resolve(r, root, py) == Some(after[r]) && Checked(after[r], after.Keys, py)
    {
      if r in before { CheckedGrows(before[r], before.Keys, after.Keys, py); }
    }
  }

  lemma RecordTarget(before: Refs, ref: string, after: Refs, from: set<string>, root: Json, py: Python)
    requires ref !in before && Resolve(ref, root, py).Some?
    requires before.Keys + {ref} <= after.Keys
    requires forall r :: r in before ==> after[r] == before[r]
    requires after[ref] == Resolve(ref, root, py).value && Checked(after[ref], after.Keys, py)
    requires Recorded(before, from, root, py)
    requires Recorded(after, before.Keys + {ref}, root, py)
    ensures Recorded(after, from, root, py)
  {
    forall r | r in after && r !in from
      ensures Resolve(r, root, py) == Some(after[r]) && Checked(after[r], after.Keys, py)
    {
      if r in before { CheckedGrows(before[r], before.Keys, after.Keys, py); }
    }
  }
}

