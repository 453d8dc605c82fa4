/** Validation of a JSON value against an accepted schema, and what its verdict means. */
module Validator {
  import opened Wrappers
  import opened Json
  import opened SchemaCheck
  import opened RefCycles

  datatype Step = Key(key: string) | Index(index: nat)

  /** The keys and indexes from the answer's root. */
  type Location = seq<Step>

  datatype SchemaError = SchemaError(code: string, location: Location)

  /** What a validation returns, or that Python raised: a name in `required` that is a list
      or an object cannot be looked up in a dict. */
  datatype Outcome = Found(errors: seq<SchemaError>) | Raised

  const CLEAN: Outcome := Found([])

  function Fault(failed: bool, code: string, location: Location): Outcome
  {
    if failed then Found([SchemaError(code, location)]) else CLEAN
  }

  function Join(a: Outcome, b: Outcome): (r: Outcome)
    ensures r == CLEAN <==> a == CLEAN && b == CLEAN
    ensures r.Found? <==> a.Found? && b.Found?
  {
    if a.Raised? || b.Raised? then Raised else Found(a.errors + b.errors)
  }

  function JoinAll(parts: seq<Outcome>): (r: Outcome)
    ensures r.Raised? <==> exists i :: 0 <= i < |parts| && parts[i].Raised?
    ensures r == CLEAN <==> forall i :: 0 <= i < |parts| ==> parts[i] == CLEAN
    ensures r.Found? ==> forall e :: e in r.errors ==>
              exists i :: 0 <= i < |parts| && parts[i].Found? && e in parts[i].errors
  {
    if parts == [] then CLEAN
    else
      var rest := JoinAll(parts[1..]);
      assert parts == [parts[0]] + parts[1..];
      Join(parts[0], rest)
  }

  // ---- the schema an accepted document gives ----

  /** Some explanation of an accepted schema. Nothing below depends on which. */
  ghost function MeaningOf(root: Json, py: Python): (m: Meaning)
    requires Acceptable(root, py)
    ensures Explains(m, root, py)
  {
    var m :| Explains(m, root, py); m
  }

  /** A schema that belongs to an accepted document. */
  ghost predicate Belongs(schema: Json, root: Json, py: Python)
  {
    schema.Obj? && Acceptable(root, py) && Checked(schema, MeaningOf(root, py).known, py)
  }

  ghost function TopRank(refs: seq<string>, rank: map<string, nat>): (n: nat)
    ensures forall r :: r in refs && r in rank ==> rank[r] < n
    ensures n > 0 ==> exists r :: r in refs && r in rank && n == rank[r] + 1
  {
    if refs == [] then 0
    else
      var rest := TopRank(refs[1..], rank);
      if refs[0] in rank && rank[refs[0]] >= rest then rank[refs[0]] + 1 else rest
  }

  /** How far a schema is from the end of the references applied to one value. */
  ghost function Height(schema: Json, root: Json, py: Python): nat
    requires Acceptable(root, py)
  {
    TopRank(SamePositionRefs(schema), MeaningOf(root, py).rank)
  }

  /** Following a reference at one value gets strictly nearer the end. */
  lemma TargetIsLower(schema: Json, root: Json, py: Python)
    requires Belongs(schema, root, py) && HasRef(schema)
    ensures Resolve(RefOf(schema), root, py).Some?
    ensures Belongs(Resolve(RefOf(schema), root, py).value, root, py)
    ensures Height(Resolve(RefOf(schema), root, py).value, root, py) < Height(schema, root, py)
  {
    var m := MeaningOf(root, py);
    var ref := RefOf(schema);
    var target := Resolve(ref, root, py).value;
    assert ref in SamePositionRefs(schema);
    var g := GraphOf(Targets(m.known, root, py));
    forall r | r in SamePositionRefs(target) ensures r in m.rank && m.rank[r] < m.rank[ref] {
      assert Edge(g, ref, r);
    }
  }

  /** An alternative is applied to the same value, no further from the end. */
  lemma AlternativeBelongs(schema: Json, sub: Json, root: Json, py: Python)
    requires Belongs(schema, root, py) && sub in Alternatives(schema.fields)
    ensures Belongs(sub, root, py) && Size(sub) < Size(schema)
    ensures Height(sub, root, py) <= Height(schema, root, py)
  {
    var i :| 0 <= i < |Alternatives(schema.fields)| && Alternatives(schema.fields)[i] == sub;
    AlternativeChecked(schema, i, MeaningOf(root, py).known, py);
    forall r | r in SamePositionRefs(sub) ensures r in SamePositionRefs(schema) {
      SamePositionRefsMember(schema, r);
    }
  }

  lemma PropertyBelongs(schema: Json, name: string, root: Json, py: Python)
    requires Belongs(schema, root, py) && Has(DictAt(schema.fields, "properties"), name)
    ensures Belongs(Get(DictAt(schema.fields, "properties"), name).value, root, py)
  {
    var d := DictAt(schema.fields, "properties");
    var i :| 0 <= i < |d| && d[i] == Entry(name, Get(d, name).value);
    assert ValuesOf(d)[i] == d[i].value;
    CheckedMember(schema, d[i].value, MeaningOf(root, py).known, py);
  }

  lemma ItemsBelongs(schema: Json, root: Json, py: Python)
    requires Belongs(schema, root, py) && Has(schema.fields, "items")
    ensures Belongs(Get(schema.fields, "items").value, root, py)
  {
    CheckedMember(schema, Get(schema.fields, "items").value, MeaningOf(root, py).known, py);
  }

  lemma AdditionalBelongs(schema: Json, root: Json, py: Python)
    requires Belongs(schema, root, py) && AdditionalSchema(schema.fields).Some?
    ensures Belongs(AdditionalSchema(schema.fields).value, root, py)
  {
    assert ObjectAt(schema.fields, "additionalProperties") == [AdditionalSchema(schema.fields).value];
    CheckedMember(schema, AdditionalSchema(schema.fields).value, MeaningOf(root, py).known, py);
  }

  // ---- one schema, one value ----

  function TypeOf(value: Json): string
  {
    match value
    case Bool(_) => "boolean"
    case Int(_) => "integer"
    case Float(_) => "number"
    case Str(_) => "string"
    case Arr(_) => "array"
    case Obj(_) => "object"
    case Null => "null"
  }

  predicate Matches(actual: string, expected: string)
  {
    if expected == "number" then actual in {"number", "integer"} else actual == expected
  }

  predicate WrongType(value: Json, d: Dict)
  {
    match Get(d, "type")
    case Some(Str(expected)) => !Matches(TypeOf(value), expected)
    case _ => false
  }

  function AdditionalSchema(d: Dict): Option<Json>
  {
    match Get(d, "additionalProperties")
    case Some(Obj(fields)) => Some(Obj(fields))
    case _ => None
  }

  predicate AdditionalForbidden(d: Dict)
  {
    Get(d, "additionalProperties") == Some(Bool(false))
  }

  function CountAt(d: Dict, key: string, otherwise: int): int
  {
    match Get(d, key)
    case Some(Int(n)) => n
    case _ => otherwise
  }

  function NumberAt(d: Dict, key: string, otherwise: real): real
  {
    match Get(d, key)
    case Some(Int(n)) => n as real
    case Some(Float(r)) => r
    case _ => otherwise
  }

  function EnumFault(value: Json, d: Dict, location: Location): Outcome
  {
    Fault(
      Has(d, "enum") && Canonical(value) !in CanonicalItems(ListAt(d, "enum")),
      "enum", location)
  }

  function ConstFault(value: Json, d: Dict, location: Location): Outcome
  {
    Fault(Has(d, "const") && Canonical(value) != Canonical(Get(d, "const").value), "const", location)
  }

  function StringBounds(value: Json, d: Dict, location: Location, py: Python): Outcome
  {
    if !value.Str? then CLEAN
    else Join(
      Fault(|value.s| > CountAt(d, "maxLength", |value.s|), "max_length", location),
      Join(
        Fault(|value.s| < CountAt(d, "minLength", |value.s|), "min_length", location),
        Fault(
          Has(d, "pattern") && Get(d, "pattern").value.Str? && !py.search(Get(d, "pattern").value.s, value.s),
          "pattern", location)))
  }

  function NumberBounds(value: Json, d: Dict, location: Location): Outcome
  {
    if !IsNumber(value) then CLEAN
    else
      var n := NumberOf(value);
      Join(
        Join(
          Fault(Has(d, "minimum") && !(n >= NumberAt(d, "minimum", n)), "minimum", location),
          Fault(Has(d, "maximum") && !(n <= NumberAt(d, "maximum", n)), "maximum", location)),
        Join(
          Fault(Has(d, "exclusiveMinimum") && !(n > NumberAt(d, "exclusiveMinimum", n)), "exclusive_minimum", location),
          Fault(
            Has(d, "exclusiveMaximum") && !(n < NumberAt(d, "exclusiveMaximum", n)), "exclusive_maximum", location)))
  }

  /** The errors of the duplicate scan: one for each item some earlier item equals. */
  function Repeats(items: seq<Json>, location: Location): (r: seq<SchemaError>)
  {
    if items == [] then []
    else
      var front := items[..|items| - 1];
      Repeats(front, location)
      + if Canonical(items[|items| - 1]) in CanonicalItems(front)
        then [SchemaError("unique_items", location)] else []
  }

  function ArrayBounds(value: Json, d: Dict, location: Location): Outcome
  {
    if !value.Arr? then CLEAN
    else Join(
      Fault(|value.items| > CountAt(d, "maxItems", |value.items|), "max_items", location),
      Join(
        Fault(|value.items| < CountAt(d, "minItems", |value.items|), "min_items", location),
        if Get(d, "uniqueItems") == Some(Bool(true)) then Found(Repeats(value.items, location)) else CLEAN))
  }

  /** The duplicate scan as the loop that makes it, with its table of forms seen. */
  method ScanRepeats(items: seq<Json>, location: Location) returns (errors: seq<SchemaError>)
    ensures errors == Repeats(items, location)
  {
    errors := [];
    var first: map<Canon, nat> := map[];
    for i := 0 to |items|
      invariant errors == Repeats(items[..i], location)
      invariant forall c :: c in first <==> c in CanonicalItems(items[..i])
    {
      var key := Canonical(items[i]);
      RepeatsStep(items, i, location);
      if key in first {
        errors := errors + [SchemaError("unique_items", location)];
      } else {
        first := first[key := i];
      }
    }
    assert items[..|items|] == items;
  }

  lemma RepeatsStep(items: seq<Json>, i: nat, location: Location)
    requires i < |items|
    ensures Repeats(items[..i + 1], location) ==
              Repeats(items[..i], location)
              + if Canonical(items[i]) in CanonicalItems(items[..i])
                then [SchemaError("unique_items", location)] else []
    ensures CanonicalItems(items[..i + 1]) == CanonicalItems(items[..i]) + [Canonical(items[i])]
  {
    hide Canonical;
    hide CanonicalItems;
    var more := items[..i + 1];
    assert more[..|more| - 1] == items[..i];
  }

  function Bounds(value: Json, d: Dict, location: Location, py: Python): Outcome
  {
    Join(
      StringBounds(value, d, location, py),
      Join(NumberBounds(value, d, location), ArrayBounds(value, d, location)))
  }

  function RequiredFault(name: Json, fields: Dict, location: Location): Outcome
  {
    if name.Arr? || name.Obj? then Raised
    else Fault(!(name.Str? && Has(fields, name.s)), "missing", location)
  }

  function RequiredFaults(names: seq<Json>, fields: Dict, location: Location): (r: Outcome)
  {
    JoinAll(seq(|names|, i requires 0 <= i < |names| => RequiredFault(names[i], fields, location)))
  }

  /** How many of the outcomes are clean. */
  function Matched(outcomes: seq<Outcome>): (n: nat)
    ensures n == 0 <==> CLEAN !in outcomes
  {
    if outcomes == [] then 0 else (if outcomes[0] == CLEAN then 1 else 0) + Matched(outcomes[1..])
  }

  function AnyOfFault(outcomes: seq<Outcome>, location: Location): Outcome
  {
    if exists i :: 0 <= i < |outcomes| && outcomes[i].Raised? then Raised
    else Fault(Matched(outcomes) == 0, "any_of", location)
  }

  function OneOfFault(outcomes: seq<Outcome>, location: Location): Outcome
  {
    if exists i :: 0 <= i < |outcomes| && outcomes[i].Raised? then Raised
    else Fault(Matched(outcomes) != 1, "one_of", location)
  }

  // ---- validation ----

  /** Every error of a value against a schema of the accepted document root. It has no bound
      on its recursion: each step descends into the value, or follows a reference at the same
      value to a lower rank, or enters a smaller schema. */
  function Validate(value: Json, schema: Json, location: Location, root: Json, py: Python): (r: Outcome)
    requires Belongs(schema, root, py)
    decreases Size(value), Height(schema, root, py), Size(schema), 4
  {
    var d := schema.fields;
    var followed := ValidateReference(value, schema, location, root, py);
    if WrongType(value, d) then Join(followed, Fault(true, "type", location))
    else
      Join(
        Join(followed, Join(EnumFault(value, d, location), ConstFault(value, d, location))),
        Join(
          Join(Composition(value, schema, location, root, py), Bounds(value, d, location, py)),
          Join(
            ValidateObject(value, schema, location, root, py),
            ValidateItems(value, schema, location, root, py))))
  }

  function ValidateReference(value: Json, schema: Json, location: Location, root: Json, py: Python): (r: Outcome)
    requires Belongs(schema, root, py)
    decreases Size(value), Height(schema, root, py), Size(schema), 0
  {
    if HasRef(schema) then
      TargetIsLower(schema, root, py);
      Validate(value, Resolve(RefOf(schema), root, py).value, location, root, py)
    else CLEAN
  }

  function ValidateAlternative(
    value: Json, schema: Json, sub: Json, location: Location, root: Json, py: Python): (r: Outcome)
    requires Belongs(schema, root, py) && sub in Alternatives(schema.fields)
    decreases Size(value), Height(schema, root, py), Size(schema), 0
  {
    AlternativeBelongs(schema, sub, root, py);
    Validate(value, sub, location, root, py)
  }

  /** The outcomes of the alternatives under one composition keyword. */
  function Outcomes(
    value: Json, schema: Json, subs: seq<Json>, location: Location, root: Json, py: Python): (r: seq<Outcome>)
    requires Belongs(schema, root, py) && AreAlternatives(subs, schema.fields)
    ensures |r| == |subs|
    ensures forall i :: 0 <= i < |subs| ==>
              r[i] == ValidateAlternative(value, schema, subs[i], location, root, py)
    decreases Size(value), Height(schema, root, py), Size(schema), 1
  {
    seq(|subs|, i requires 0 <= i < |subs| => ValidateAlternative(value, schema, subs[i], location, root, py))
  }

  ghost predicate AreAlternatives(subs: seq<Json>, d: Dict)
  {
    forall i :: 0 <= i < |subs| ==> subs[i] in Alternatives(d)
  }

  /** At least one of the anyOf alternatives, exactly one of the oneOf alternatives. */
  function Choices(value: Json, schema: Json, location: Location, root: Json, py: Python): (r: Outcome)
    requires Belongs(schema, root, py)
    decreases Size(value), Height(schema, root, py), Size(schema), 2
  {
    var d := schema.fields;
    Join(
      if Has(d, "anyOf") then AnyOfFault(Outcomes(value, schema, ListAt(d, "anyOf"), location, root, py), location)
      else CLEAN,
      if Has(d, "oneOf") then OneOfFault(Outcomes(value, schema, ListAt(d, "oneOf"), location, root, py), location)
      else CLEAN)
  }

  function Composition(value: Json, schema: Json, location: Location, root: Json, py: Python): (r: Outcome)
    requires Belongs(schema, root, py)
    decreases Size(value), Height(schema, root, py), Size(schema), 3
  {
    Join(
      JoinAll(Outcomes(value, schema, ListAt(schema.fields, "allOf"), location, root, py)),
      Choices(value, schema, location, root, py))
  }

  /** A property of the value the schema does not name. */
  function ValidateExtra(
    value: Json, name: string, schema: Json, location: Location, root: Json, py: Python): (r: Outcome)
    requires Belongs(schema, root, py) && value.Obj? && Has(value.fields, name)
    decreases Size(value), Height(schema, root, py), Size(schema), 0
  {
    var d := schema.fields;
    if Has(DictAt(d, "properties"), name) then CLEAN
    else if AdditionalForbidden(d) then Fault(true, "unexpected_property", location)
    else if AdditionalSchema(d).Some? then
      AdditionalBelongs(schema, root, py);
      GetSmaller(value.fields, name);
      Validate(Get(value.fields, name).value, AdditionalSchema(d).value, location + [Key(name)], root, py)
    else CLEAN
  }

  /** A property the schema names. */
  function ValidateNamed(
    value: Json, name: string, schema: Json, location: Location, root: Json, py: Python): (r: Outcome)
    requires Belongs(schema, root, py) && value.Obj? && Has(DictAt(schema.fields, "properties"), name)
    decreases Size(value), Height(schema, root, py), Size(schema), 0
  {
    if Has(value.fields, name) then
      PropertyBelongs(schema, name, root, py);
      GetSmaller(value.fields, name);
      Validate(
        Get(value.fields, name).value, Get(DictAt(schema.fields, "properties"), name).value,
        location + [Key(name)], root, py)
    else CLEAN
  }

  function ExtraOutcomes(value: Json, schema: Json, location: Location, root: Json, py: Python): (r: seq<Outcome>)
    requires Belongs(schema, root, py) && value.Obj?
    ensures |r| == |value.fields|
    ensures forall i :: 0 <= i < |r| ==>
              (assert value.fields[i].key in Keys(value.fields);
               r[i] == ValidateExtra(value, value.fields[i].key, schema, location, root, py))
    decreases Size(value), Height(schema, root, py), Size(schema), 1
  {
    seq(|value.fields|, i requires 0 <= i < |value.fields| =>
      assert value.fields[i].key in Keys(value.fields);
      ValidateExtra(value, value.fields[i].key, schema, location, root, py))
  }

  function NamedOutcomes(value: Json, schema: Json, location: Location, root: Json, py: Python): (r: seq<Outcome>)
    requires Belongs(schema, root, py) && value.Obj?
    ensures |r| == |DictAt(schema.fields, "properties")|
    ensures forall i :: 0 <= i < |r| ==>
              (assert DictAt(schema.fields, "properties")[i].key in Keys(DictAt(schema.fields, "properties"));
               r[i] == ValidateNamed(
                 value, DictAt(schema.fields, "properties")[i].key, schema, location, root, py))
    decreases Size(value), Height(schema, root, py), Size(schema), 1
  {
    var named := DictAt(schema.fields, "properties");
    seq(|named|, i requires 0 <= i < |named| =>
      assert named[i].key in Keys(named);
      ValidateNamed(value, named[i].key, schema, location, root, py))
  }

  function ValidateObject(value: Json, schema: Json, location: Location, root: Json, py: Python): (r: Outcome)
    requires Belongs(schema, root, py)
    decreases Size(value), Height(schema, root, py), Size(schema), 2
  {
    if !value.Obj? then CLEAN
    else
      Join(
        RequiredFaults(ListAt(schema.fields, "required"), value.fields, location),
        Join(
          JoinAll(ExtraOutcomes(value, schema, location, root, py)),
          JoinAll(NamedOutcomes(value, schema, location, root, py))))
  }

  function ValidateItems(value: Json, schema: Json, location: Location, root: Json, py: Python): (r: Outcome)
    requires Belongs(schema, root, py)
    decreases Size(value), Height(schema, root, py), Size(schema), 1
  {
    if value.Arr? && Has(schema.fields, "items") then
      JoinAll(seq(|value.items|, i requires 0 <= i < |value.items| =>
        ValidateItem(value, i, schema, location, root, py)))
    else CLEAN
  }

  function ValidateItem(value: Json, i: nat, schema: Json, location: Location, root: Json, py: Python): (r: Outcome)
    requires Belongs(schema, root, py) && value.Arr? && i < |value.items| && Has(schema.fields, "items")
    decreases Size(value), Height(schema, root, py), Size(schema), 0
  {
    ItemsBelongs(schema, root, py);
    ItemSmaller(value.items, i);
    Validate(value.items[i], Get(schema.fields, "items").value, location + [Index(i)], root, py)
  }
}
